/** Level-by-level tries with a value at every node: the shape of the subscription tree and of the
retained-message index. `zero` is the value of a node that holds nothing. */
module Tries {

  datatype Trie<V> = Trie(children: map<string, Trie<V>>, value: V)

  function Leaf<V>(zero: V): Trie<V> {
    Trie(map[], zero)
  }

  /** The value stored under a path. */
  function Get<V>(t: Trie<V>, path: seq<string>, zero: V): V
    decreases |path|
  {
    if path == [] then t.value
    else if path[0] in t.children then Get(t.children[path[0]], path[1..], zero)
    else zero
  }

  predicate HasPath<V>(t: Trie<V>, path: seq<string>)
    decreases |path|
  {
    path == [] || (path[0] in t.children && HasPath(t.children[path[0]], path[1..]))
  }

  /** Store a value, creating nodes on the way down. */
  function Put<V>(t: Trie<V>, path: seq<string>, v: V, zero: V): Trie<V>
    decreases |path|
  {
    if path == [] then t.(value := v)
    else
      var child := if path[0] in t.children then t.children[path[0]] else Leaf(zero);
      t.(children := t.children[path[0] := Put(child, path[1..], v, zero)])
  }

  predicate Dead<V(==)>(t: Trie<V>, zero: V) {
    t.value == zero && t.children == map[]
  }

  /** Overwrite the value at an existing node and delete, on the way up, every child left dead. */
  function Cut<V(==)>(t: Trie<V>, path: seq<string>, v: V, zero: V): Trie<V>
    decreases |path|
  {
    if path == [] then t.(value := v)
    else if path[0] !in t.children then t
    else
      var child := Cut(t.children[path[0]], path[1..], v, zero);
      if Dead(child, zero) then t.(children := t.children - {path[0]})
      else t.(children := t.children[path[0] := child])
  }

  /** No node below the root is dead. */
  ghost predicate NoDead<V>(t: Trie<V>, zero: V) {
    forall k :: k in t.children ==> !Dead(t.children[k], zero) && NoDead(t.children[k], zero)
  }

  lemma {:induction false} GetLeaf<V>(path: seq<string>, zero: V)
    ensures Get(Leaf(zero), path, zero) == zero
  {
  }

  lemma {:induction false} GetPut<V>(t: Trie<V>, path: seq<string>, v: V, zero: V, q: seq<string>)
    ensures Get(Put(t, path, v, zero), q, zero) == if q == path then v else Get(t, q, zero)
    decreases |path|
  {
    if path != [] && q != [] && q[0] == path[0] {
      var child := if path[0] in t.children then t.children[path[0]] else Leaf(zero);
      GetPut(child, path[1..], v, zero, q[1..]);
      GetLeaf(q[1..], zero);
      assert q == path <==> q[1..] == path[1..] by {
        assert q == [q[0]] + q[1..] && path == [path[0]] + path[1..];
      }
    }
  }

  lemma {:induction false} GetAbsent<V>(t: Trie<V>, path: seq<string>, zero: V)
    requires !HasPath(t, path)
    ensures Get(t, path, zero) == zero
    decreases |path|
  {
    if path != [] && path[0] in t.children {
      GetAbsent(t.children[path[0]], path[1..], zero);
    }
  }

  lemma {:induction false} GetCut<V>(t: Trie<V>, path: seq<string>, v: V, zero: V, q: seq<string>)
    requires !HasPath(t, path) ==> v == zero
    ensures Get(Cut(t, path, v, zero), q, zero) == if q == path then v else Get(t, q, zero)
    decreases |path|
  {
    if !HasPath(t, path) {
      GetAbsent(t, path, zero);
    }
    if path != [] && q != [] && q[0] == path[0] && path[0] in t.children {
      GetCut(t.children[path[0]], path[1..], v, zero, q[1..]);
      assert q == path <==> q[1..] == path[1..] by {
        assert q == [q[0]] + q[1..] && path == [path[0]] + path[1..];
      }
    }
  }

  lemma {:induction false} PutNotDead<V>(t: Trie<V>, path: seq<string>, v: V, zero: V)
    requires NoDead(t, zero) && v != zero
    ensures NoDead(Put(t, path, v, zero), zero) && !Dead(Put(t, path, v, zero), zero)
    decreases |path|
  {
    if path != [] {
      var child := if path[0] in t.children then t.children[path[0]] else Leaf(zero);
      PutNotDead(child, path[1..], v, zero);
      assert path[0] in Put(t, path, v, zero).children;
    }
  }

  lemma {:induction false} CutNoDead<V>(t: Trie<V>, path: seq<string>, v: V, zero: V)
    requires NoDead(t, zero)
    ensures NoDead(Cut(t, path, v, zero), zero)
    decreases |path|
  {
    if path != [] && path[0] in t.children {
      CutNoDead(t.children[path[0]], path[1..], v, zero);
    }
  }

  /** In a trie without dead branches, every node below the root lies on the path to a value. */
  lemma {:induction false} LiveBranch<V>(t: Trie<V>, path: seq<string>, zero: V)
    requires NoDead(t, zero) && HasPath(t, path) && path != []
    ensures exists q :: |q| >= |path| && q[..|path|] == path && Get(t, q, zero) != zero
    decreases |path|
  {
    var k, child := path[0], t.children[path[0]];
    if |path| > 1 {
      LiveBranch(child, path[1..], zero);
      var q :| |q| >= |path[1..]| && q[..|path[1..]|] == path[1..] && Get(child, q, zero) != zero;
      assert ([k] + q)[1..] == q && ([k] + q)[..|path|] == path;
      assert Get(t, [k] + q, zero) != zero;
    } else {
      LiveNode(child, zero);
      var q :| Get(child, q, zero) != zero;
      assert ([k] + q)[1..] == q && ([k] + q)[..1] == path;
      assert Get(t, [k] + q, zero) != zero;
    }
  }

  lemma {:induction false} LiveNode<V>(t: Trie<V>, zero: V)
    requires NoDead(t, zero) && !Dead(t, zero)
    ensures exists q :: Get(t, q, zero) != zero
    decreases t
  {
    if t.value != zero {
      assert Get(t, [], zero) != zero;
    } else {
      var k :| k in t.children;
      LiveNode(t.children[k], zero);
      var q :| Get(t.children[k], q, zero) != zero;
      assert ([k] + q)[1..] == q;
      assert Get(t, [k] + q, zero) != zero;
    }
  }
}
