/** The subscription trie: what a subscription adds, what an unsubscription removes, what a topic reaches. */
module SubscriptionTrie {
  import opened Topics
  import opened Tries

  /** The clients subscribed at one node, with the QoS granted to each. */
  type Subs = map<string, nat>
  type Node = Trie<Subs>
  type Hits = iset<(string, nat)>

  datatype Subscriber = Subscriber(clientID: string, qos: nat)

  function At(t: Node, filter: seq<string>): Subs {
    Get(t, filter, map[])
  }

  method SubscribeNode(node: Node, parts: seq<string>, clientID: string, qos: nat, depth: nat)
    returns (n: Node, added: bool)
    requires depth <= |parts|
    ensures n == Put(node, parts[depth..], At(node, parts[depth..])[clientID := qos], map[])
    ensures added <==> clientID !in At(node, parts[depth..])
    decreases |parts| - depth
  {
    if depth == |parts| {
      return node.(value := node.value[clientID := qos]), clientID !in node.value;
    }
    var part := parts[depth];
    assert parts[depth..][1..] == parts[depth + 1..];
    var child := if part in node.children then node.children[part] else Trie(map[], map[]);
    child, added := SubscribeNode(child, parts, clientID, qos, depth + 1);
    GetLeaf<Subs>(parts[depth + 1..], map[]);
    n := node.(children := node.children[part := child]);
  }

  /** `dead` tells the caller to drop the node. */
  method UnsubscribeNode(node: Node, parts: seq<string>, clientID: string, depth: nat)
    returns (n: Node, removed: bool, dead: bool)
    requires depth <= |parts| && NoDead(node, map[])
    ensures n == Cut(node, parts[depth..], At(node, parts[depth..]) - {clientID}, map[])
    ensures removed <==> clientID in At(node, parts[depth..])
    ensures !Dead(node, map[]) ==> (dead <==> Dead(n, map[]))
    decreases |parts| - depth
  {
    if depth == |parts| {
      n := node.(value := node.value - {clientID});
      return n, clientID in node.value, |n.value| == 0 && |n.children| == 0;
    }
    var part := parts[depth];
    if part !in node.children {
      return node, false, false;
    }
    var child, childDead;
    child, removed, childDead := UnsubscribeNode(node.children[part], parts, clientID, depth + 1);
    assert parts[depth..][1..] == parts[depth + 1..];
    n := if childDead then node.(children := node.children - {part})
        else node.(children := node.children[part := child]);
    dead := |n.value| == 0 && |n.children| == 0;
  }

  // ---------------------------------------------------------------- collecting subscribers

  ghost predicate Has(m: Subs, h: (string, nat)) {
    h.0 in m && m[h.0] == h.1
  }

  ghost function Pairs(m: Subs): Hits {
    iset h: (string, nat) | Has(m, h)
  }

  ghost predicate IsUnder(t: Node, keys: set<string>, h: (string, nat)) {
    exists f :: f != [] && f[0] in keys && Has(At(t, f), h)
  }

  /** Everything below a node whose first step is one of `keys`. */
  ghost function Under(t: Node, keys: set<string>): Hits {
    iset h: (string, nat) | IsUnder(t, keys, h)
  }

  ghost predicate IsHeld(t: Node, h: (string, nat)) {
    exists f :: Has(At(t, f), h)
  }

  /** Everything at or below a node. */
  ghost function All(t: Node): Hits {
    iset h: (string, nat) | IsHeld(t, h)
  }

  /** `w` is `v` joined with the hits: every client of either, each at the highest QoS. */
  ghost predicate Joined(v: Subs, hits: Hits, w: Subs) {
    && (forall c :: c in v ==> c in w && w[c] >= v[c])
    && (forall h :: h in hits ==> h.0 in w && w[h.0] >= h.1)
    && (forall c :: c in w ==> Has(v, (c, w[c])) || (c, w[c]) in hits)
  }

  lemma JoinedTwice(u: Subs, a: Hits, v: Subs, b: Hits, w: Subs)
    requires Joined(u, a, v) && Joined(v, b, w)
    ensures Joined(u, a + b, w)
  {
  }

  ghost predicate Listed(results: seq<Subscriber>, c: string) {
    exists i :: 0 <= i < |results| && results[i].clientID == c
  }

  /** The result list and the visited map tell the same story. */
  ghost predicate Sync(results: seq<Subscriber>, visited: Subs) {
    && (forall i :: 0 <= i < |results| ==> Has(visited, (results[i].clientID, results[i].qos)))
    && (forall i, j :: 0 <= i < j < |results| ==> results[i].clientID != results[j].clientID)
    && (forall c :: c in visited ==> Listed(results, c))
  }

  lemma SyncAppend(results: seq<Subscriber>, visited: Subs, c: string, q: nat)
    requires Sync(results, visited) && c !in visited
    ensures Sync(results + [Subscriber(c, q)], visited[c := q])
  {
    var rs := results + [Subscriber(c, q)];
    forall d | d in visited[c := q] ensures Listed(rs, d) {
      if d == c {
        assert rs[|results|].clientID == d;
      } else {
        var i :| 0 <= i < |results| && results[i].clientID == d;
        assert rs[i].clientID == d;
      }
    }
  }

  lemma SyncUpdate(results: seq<Subscriber>, visited: Subs, i: nat, q: nat)
    requires Sync(results, visited) && i < |results|
    ensures Sync(results[i := results[i].(qos := q)], visited[results[i].clientID := q])
  {
    var rs := results[i := results[i].(qos := q)];
    forall d | d in visited[results[i].clientID := q] ensures Listed(rs, d) {
      assert Listed(results, d);
      var j :| 0 <= j < |results| && results[j].clientID == d;
      assert rs[j].clientID == d;
    }
  }

  method AddSubscriber(results: seq<Subscriber>, visited: Subs, clientID: string, qos: nat)
    returns (rs: seq<Subscriber>, vs: Subs)
    requires Sync(results, visited)
    ensures Sync(rs, vs) && Joined(visited, iset{(clientID, qos)}, vs)
  {
    if clientID !in visited {
      SyncAppend(results, visited, clientID, qos);
      return results + [Subscriber(clientID, qos)], visited[clientID := qos];
    }
    if qos <= visited[clientID] {
      return results, visited;
    }
    assert Listed(results, clientID);
    var i := 0;
    while results[i].clientID != clientID
      invariant 0 <= i < |results| && forall j :: 0 <= j < i ==> results[j].clientID != clientID
      decreases |results| - i
    {
      i := i + 1;
    }
    SyncUpdate(results, visited, i, qos);
    rs, vs := results[i := results[i].(qos := qos)], visited[clientID := qos];
  }

  lemma PairsStep(subs: Subs, keys: set<string>, c: string)
    requires c in keys && keys <= subs.Keys
    ensures Pairs(subs - (keys - {c})) == Pairs(subs - keys) + iset{(c, subs[c])}
  {
  }

  method AddAll(subs: Subs, results: seq<Subscriber>, visited: Subs) returns (rs: seq<Subscriber>, vs: Subs)
    requires Sync(results, visited)
    ensures Sync(rs, vs) && Joined(visited, Pairs(subs), vs)
  {
    rs, vs := results, visited;
    var keys := subs.Keys;
    ghost var done := Pairs(subs - keys);
    while keys != {}
      invariant keys <= subs.Keys && Sync(rs, vs)
      invariant done == Pairs(subs - keys) && Joined(visited, done, vs)
    {
      var c :| c in keys;
      ghost var v0 := vs;
      rs, vs := AddSubscriber(rs, vs, c, subs[c]);
      JoinedTwice(visited, done, v0, iset{(c, subs[c])}, vs);
      PairsStep(subs, keys, c);
      keys := keys - {c};
      done := Pairs(subs - keys);
    }
    assert subs - {} == subs;
  }

  lemma UnderChild(t: Node, k: string)
    requires k in t.children
    ensures Under(t, {k}) == All(t.children[k])
  {
    var child := t.children[k];
    forall h: (string, nat) ensures IsHeld(child, h) <==> IsUnder(t, {k}, h) {
      if IsHeld(child, h) {
        var f :| Has(At(child, f), h);
        assert ([k] + f)[1..] == f;
        assert Has(At(t, [k] + f), h);
      }
      if IsUnder(t, {k}, h) {
        var f :| f != [] && f[0] in {k} && Has(At(t, f), h);
        assert Has(At(child, f[1..]), h);
      }
    }
  }

  lemma UnderMore(t: Node, a: set<string>, b: set<string>)
    ensures Under(t, a + b) == Under(t, a) + Under(t, b)
  {
  }

  lemma AllSplits(t: Node)
    ensures All(t) == Pairs(t.value) + Under(t, t.children.Keys)
  {
    forall h: (string, nat) ensures IsHeld(t, h) <==> Has(t.value, h) || IsUnder(t, t.children.Keys, h) {
      if Has(t.value, h) {
        assert Has(At(t, []), h);
      }
    }
  }

  ghost function HeldVia(t: Node, keys: set<string>): Hits {
    Pairs(t.value) + Under(t, keys)
  }

  lemma HeldViaNone(t: Node)
    ensures HeldVia(t, {}) == Pairs(t.value)
  {
  }

  lemma HeldViaMore(t: Node, done: set<string>, k: string, u: Subs, v: Subs, w: Subs)
    requires k in t.children && Joined(u, HeldVia(t, done), v) && Joined(v, All(t.children[k]), w)
    ensures Joined(u, HeldVia(t, done + {k}), w)
  {
    UnderChild(t, k);
    UnderMore(t, done, {k});
    JoinedTwice(u, HeldVia(t, done), v, Under(t, {k}), w);
    assert HeldVia(t, done) + Under(t, {k}) == HeldVia(t, done + {k});
  }

  method CollectAllSubscribers(node: Node, results: seq<Subscriber>, visited: Subs)
    returns (rs: seq<Subscriber>, vs: Subs)
    requires Sync(results, visited)
    ensures Sync(rs, vs) && Joined(visited, All(node), vs)
    decreases node
  {
    rs, vs := AddAll(node.value, results, visited);
    var keys := node.children.Keys;
    HeldViaNone(node);
    ghost var done: set<string> := {};
    while keys != {}
      invariant keys <= node.children.Keys && done == node.children.Keys - keys
      invariant Sync(rs, vs)
      invariant Joined(visited, HeldVia(node, done), vs)
    {
      var k :| k in keys;
      ghost var v0 := vs;
      rs, vs := CollectAllSubscribers(node.children[k], rs, vs);
      HeldViaMore(node, done, k, visited, v0, vs);
      keys, done := keys - {k}, done + {k};
    }
    AllSplits(node);
  }

  // ---------------------------------------------------------------- what a topic reaches

  /** The filter matches the topic or a topic that is a prefix of it. */
  predicate ReachesPrefix(f: seq<string>, parts: seq<string>)
    decreases |f|
  {
    f == [] || f[0] == "#" || (parts != [] && (f[0] == "+" || f[0] == parts[0]) && ReachesPrefix(f[1..], parts[1..]))
  }

  /** The same with wildcards barred from the first level. */
  predicate Reaches(f: seq<string>, parts: seq<string>, wild: bool) {
    ReachesPrefix(f, parts) && (wild || f == [] || (f[0] != "+" && f[0] != "#"))
  }

  ghost predicate IsReached(t: Node, parts: seq<string>, wild: bool, h: (string, nat)) {
    exists f :: Has(At(t, f), h) && Reaches(f, parts, wild)
  }

  ghost function Reached(t: Node, parts: seq<string>, wild: bool): Hits {
    iset h: (string, nat) | IsReached(t, parts, wild, h)
  }

  /** The part of it that goes through one child. */
  ghost function Via(t: Node, k: string, parts: seq<string>): Hits {
    if k in t.children then Reached(t.children[k], parts, true) else iset{}
  }

  ghost function ViaHash(t: Node, wild: bool): Hits {
    if wild && "#" in t.children then All(t.children["#"]) else iset{}
  }

  ghost function ViaPlus(t: Node, parts: seq<string>, wild: bool): Hits
    requires parts != []
  {
    if wild then Via(t, "+", parts[1..]) else iset{}
  }

  lemma ViaSound(t: Node, k: string, parts: seq<string>, wild: bool, h: (string, nat))
    requires parts != [] && h in Via(t, k, parts[1..])
    requires (k == "+" && wild) || (k == parts[0] && (wild || Dollar(k)))
    ensures h in Reached(t, parts, wild)
  {
    var f :| Has(At(t.children[k], f), h) && Reaches(f, parts[1..], true);
    assert ([k] + f)[1..] == f;
    assert Has(At(t, [k] + f), h) && Reaches([k] + f, parts, wild);
  }

  lemma HashSound(t: Node, parts: seq<string>, wild: bool, h: (string, nat))
    requires h in ViaHash(t, wild)
    ensures h in Reached(t, parts, wild)
  {
    var f :| Has(At(t.children["#"], f), h);
    assert (["#"] + f)[1..] == f;
    assert Has(At(t, ["#"] + f), h) && Reaches(["#"] + f, parts, wild);
  }

  /** One step of the descent loses nothing and invents nothing. */
  lemma ReachedSplits(t: Node, parts: seq<string>, wild: bool)
    requires parts != [] && (wild || Dollar(parts[0]))
    ensures Reached(t, parts, wild)
        == Pairs(t.value) + ViaHash(t, wild) + Via(t, parts[0], parts[1..]) + ViaPlus(t, parts, wild)
  {
    forall h: (string, nat) | h in Reached(t, parts, wild)
      ensures h in Pairs(t.value) + ViaHash(t, wild) + Via(t, parts[0], parts[1..]) + ViaPlus(t, parts, wild)
    {
      var f :| Has(At(t, f), h) && Reaches(f, parts, wild);
      if f == [] {
      } else if f[0] == "#" {
        assert Has(At(t.children["#"], f[1..]), h);
      } else {
        assert Has(At(t.children[f[0]], f[1..]), h) && Reaches(f[1..], parts[1..], true);
      }
    }
    forall h: (string, nat)
      | h in Pairs(t.value) + ViaHash(t, wild) + Via(t, parts[0], parts[1..]) + ViaPlus(t, parts, wild)
      ensures h in Reached(t, parts, wild)
    {
      if h in Pairs(t.value) {
        assert Has(At(t, []), h) && Reaches([], parts, wild);
      } else if h in ViaHash(t, wild) {
        HashSound(t, parts, wild, h);
      } else if h in Via(t, parts[0], parts[1..]) {
        ViaSound(t, parts[0], parts, wild, h);
      } else {
        ViaSound(t, "+", parts, wild, h);
      }
    }
  }

  lemma ReachedEnds(t: Node)
    ensures Reached(t, [], true) == Pairs(t.value) + ViaHash(t, true)
  {
    forall h: (string, nat) | IsReached(t, [], true, h) ensures h in Pairs(t.value) + ViaHash(t, true) {
      var f :| Has(At(t, f), h) && Reaches(f, [], true);
      if f != [] {
        assert Has(At(t.children["#"], f[1..]), h);
      }
    }
    forall h: (string, nat) | h in Pairs(t.value) + ViaHash(t, true) ensures IsReached(t, [], true, h) {
      if h in Pairs(t.value) {
        assert Has(At(t, []), h) && Reaches([], [], true);
      } else {
        HashSound(t, [], true, h);
      }
    }
  }

  lemma JoinedNothing(u: Subs, a: Hits, v: Subs)
    requires Joined(u, a, v)
    ensures Joined(u, a + iset{}, v)
  {
  }

  /** What the node itself contributes before the descent: its own subscribers and those below '#'. */
  ghost function Here(t: Node, wild: bool): Hits {
    Pairs(t.value) + ViaHash(t, wild)
  }

  method MatchHere(node: Node, results: seq<Subscriber>, visited: Subs, wildcardsAllowed: bool)
    returns (rs: seq<Subscriber>, vs: Subs)
    requires Sync(results, visited)
    ensures Sync(rs, vs) && Joined(visited, Here(node, wildcardsAllowed), vs)
  {
    rs, vs := AddAll(node.value, results, visited);
    ghost var v0 := vs;
    if wildcardsAllowed && "#" in node.children {
      rs, vs := CollectAllSubscribers(node.children["#"], rs, vs);
      JoinedTwice(visited, Pairs(node.value), v0, ViaHash(node, wildcardsAllowed), vs);
    } else {
      JoinedNothing(visited, Pairs(node.value), vs);
    }
  }

  lemma JoinedSelf(u: Subs)
    ensures Joined(u, iset{}, u)
  {
  }

  /** What the descent contributes: the child of the same name, and the '+' child if wildcards are allowed. */
  ghost function Deeper(t: Node, parts: seq<string>, wild: bool): Hits
    requires parts != []
  {
    Via(t, parts[0], parts[1..]) + ViaPlus(t, parts, wild)
  }

  /** What is reached, and how it is put together from the two. */
  lemma JoinReached(t: Node, parts: seq<string>, wild: bool, u: Subs, v: Subs, w: Subs)
    requires parts != [] && (wild || Dollar(parts[0]))
    requires Joined(u, Here(t, wild), v) && Joined(v, Deeper(t, parts, wild), w)
    ensures Joined(u, Reached(t, parts, wild), w)
  {
    JoinedTwice(u, Here(t, wild), v, Deeper(t, parts, wild), w);
    ReachedSplits(t, parts, wild);
    assert Here(t, wild) + Deeper(t, parts, wild) == Reached(t, parts, wild);
  }

  method MatchNodeWithSys(node: Node, parts: seq<string>, depth: nat, results: seq<Subscriber>, visited: Subs,
                          isSystemTopic: bool, wildcardsAllowed: bool)
    returns (rs: seq<Subscriber>, vs: Subs)
    requires depth <= |parts| && Sync(results, visited)
    requires !wildcardsAllowed ==> depth == 0 && isSystemTopic && parts != [] && Dollar(parts[0])
    ensures Sync(rs, vs) && Joined(visited, Reached(node, parts[depth..], wildcardsAllowed), vs)
    decreases |parts| - depth, 1
  {
    rs, vs := MatchHere(node, results, visited, wildcardsAllowed);
    if depth == |parts| {
      ReachedEnds(node);
      return;
    }
    ghost var v0 := vs;
    rs, vs := MatchDeeper(node, parts, depth, rs, vs, isSystemTopic, wildcardsAllowed);
    JoinReached(node, parts[depth..], wildcardsAllowed, visited, v0, vs);
  }

  method MatchDeeper(node: Node, parts: seq<string>, depth: nat, results: seq<Subscriber>, visited: Subs,
                     isSystemTopic: bool, wildcardsAllowed: bool)
    returns (rs: seq<Subscriber>, vs: Subs)
    requires depth < |parts| && Sync(results, visited)
    requires !wildcardsAllowed ==> depth == 0 && isSystemTopic && Dollar(parts[0])
    ensures Sync(rs, vs) && Joined(visited, Deeper(node, parts[depth..], wildcardsAllowed), vs)
    decreases |parts| - depth, 0
  {
    var part := parts[depth];
    ghost var rest := parts[depth..];
    assert rest[0] == part && rest[1..] == parts[depth + 1..];
    var next := wildcardsAllowed || (isSystemTopic && depth == 0 && |part| > 0 && part[0] == '$');
    rs, vs := MatchChild(node, part, parts, depth + 1, results, visited, isSystemTopic, next);
    ghost var v1 := vs;
    if wildcardsAllowed {
      rs, vs := MatchChild(node, "+", parts, depth + 1, rs, vs, isSystemTopic, true);
    } else {
      JoinedSelf(vs);
    }
    JoinedTwice(visited, Via(node, part, rest[1..]), v1, ViaPlus(node, rest, wildcardsAllowed), vs);
  }

  /** Into one child, if it is there; past the first level wildcards are always allowed. */
  method MatchChild(node: Node, key: string, parts: seq<string>, depth: nat, results: seq<Subscriber>, visited: Subs,
                    isSystemTopic: bool, next: bool)
    returns (rs: seq<Subscriber>, vs: Subs)
    requires depth <= |parts| && Sync(results, visited) && next
    ensures Sync(rs, vs) && Joined(visited, Via(node, key, parts[depth..]), vs)
    decreases |parts| - depth, 2
  {
    if key !in node.children {
      JoinedSelf(visited);
      return results, visited;
    }
    rs, vs := MatchNodeWithSys(node.children[key], parts, depth, results, visited, isSystemTopic, next);
  }

  // ---------------------------------------------------------------- the matching relation

  lemma {:induction false} PrefixIsMatch(f: seq<string>, parts: seq<string>)
    ensures ReachesPrefix(f, parts) <==> exists k :: 0 <= k <= |parts| && Match(f, parts[..k])
    decreases |f|
  {
    if f == [] {
      assert Match(f, parts[..0]);
    } else if f[0] == "#" {
      assert Match(f, parts[..0]);
    } else if parts != [] {
      PrefixIsMatch(f[1..], parts[1..]);
      if ReachesPrefix(f, parts) {
        var k :| 0 <= k <= |parts[1..]| && Match(f[1..], parts[1..][..k]);
        assert parts[..k + 1][1..] == parts[1..][..k];
        assert Match(f, parts[..k + 1]);
      }
      if k :| 0 <= k <= |parts| && Match(f, parts[..k]) {
        assert parts[..k][1..] == parts[1..][..k - 1];
      }
    }
  }

  /** A filter reaches exactly the topics that it matches, or that extend a topic it matches. */
  lemma ReachesMeaning(f: seq<string>, parts: seq<string>)
    requires f != [] && parts != []
    ensures Reaches(f, parts, !Dollar(parts[0])) <==> exists k :: 1 <= k <= |parts| && MatchProtected(f, parts[..k])
  {
    PrefixIsMatch(f, parts);
    if Reaches(f, parts, !Dollar(parts[0])) {
      var k :| 0 <= k <= |parts| && Match(f, parts[..k]);
      if k == 0 {
        assert MatchProtected(f, parts[..1]);
      } else {
        assert MatchProtected(f, parts[..k]);
      }
    }
  }

  /** No subscription whose filter matches the topic is missed. */
  lemma MatchReaches(f: seq<string>, parts: seq<string>)
    requires f != [] && parts != [] && MatchProtected(f, parts)
    ensures Reaches(f, parts, !Dollar(parts[0]))
  {
    assert parts[..|parts|] == parts;
    ReachesMeaning(f, parts);
  }

  /** One entry per client of `hits`, at the highest QoS the client has there. */
  ghost predicate Selected(results: seq<Subscriber>, hits: Hits) {
    && (forall i :: 0 <= i < |results| ==> (results[i].clientID, results[i].qos) in hits)
    && (forall i, j :: 0 <= i < j < |results| ==> results[i].clientID != results[j].clientID)
    && (forall h :: h in hits ==> exists i :: 0 <= i < |results| && results[i].clientID == h.0 && results[i].qos >= h.1)
  }

  lemma JoinedSelects(results: seq<Subscriber>, visited: Subs, hits: Hits)
    requires Sync(results, visited) && Joined(map[], hits, visited)
    ensures Selected(results, hits)
  {
  }
}
