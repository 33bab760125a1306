/** The in-memory retained-message store: a table by topic and a trie that answers filters. */
module RetainedIndex {
  import opened Basics
  import opened Topics
  import opened Tries

  /** `timestamp` zero means the caller did not stamp the message. */
  datatype RetainedMessage = RetainedMessage(topic: string, qos: nat, payload: seq<bv8>, timestamp: nat)

  type Table = map<string, RetainedMessage>
  type Node = Trie<Option<RetainedMessage>>
  type Messages = iset<RetainedMessage>

  function At(t: Node, path: seq<string>): Option<RetainedMessage> {
    Get(t, path, None)
  }

  // ---------------------------------------------------------------- growing and pruning

  method AddToIndex(node: Node, parts: seq<string>, msg: RetainedMessage, depth: nat) returns (n: Node)
    requires depth <= |parts|
    ensures n == Put(node, parts[depth..], Some(msg), None)
    decreases |parts| - depth
  {
    if depth == |parts| {
      return node.(value := Some(msg));
    }
    var part := parts[depth];
    assert parts[depth..][1..] == parts[depth + 1..];
    var child := if part in node.children then node.children[part] else Trie(map[], None);
    child := AddToIndex(child, parts, msg, depth + 1);
    n := node.(children := node.children[part := child]);
  }

  method Remove(node: Node, parts: seq<string>, depth: nat) returns (n: Node, dead: bool)
    requires depth <= |parts| && NoDead(node, None)
    ensures n == Cut(node, parts[depth..], None, None)
    ensures !Dead(node, None) ==> (dead <==> Dead(n, None))
    decreases |parts| - depth
  {
    if depth == |parts| {
      return node.(value := None), |node.children| == 0;
    }
    var part := parts[depth];
    if part !in node.children {
      return node, false;
    }
    var child, childDead := Remove(node.children[part], parts, depth + 1);
    assert parts[depth..][1..] == parts[depth + 1..];
    n := if childDead then node.(children := node.children - {part})
        else node.(children := node.children[part := child]);
    dead := n.value.None? && |n.children| == 0;
  }

  /** The trie holds each message of the table under the levels of its topic, and nothing else. */
  ghost predicate Mirrors(t: Node, table: Table) {
    && (forall topic :: topic in table ==> table[topic].topic == topic && At(t, Split(topic)) == Some(table[topic]))
    && (forall ls :: At(t, ls).Some? ==> At(t, ls).value.topic in table && Split(At(t, ls).value.topic) == ls)
  }

  lemma MirrorPut(t: Node, table: Table, msg: RetainedMessage)
    requires Mirrors(t, table)
    ensures Mirrors(Put(t, Split(msg.topic), Some(msg), None), table[msg.topic := msg])
  {
    var parts, t', table' := Split(msg.topic), Put(t, Split(msg.topic), Some(msg), None), table[msg.topic := msg];
    forall topic | topic in table' ensures table'[topic].topic == topic && At(t', Split(topic)) == Some(table'[topic]) {
      GetPut(t, parts, Some(msg), None, Split(topic));
      if Split(topic) == parts {
        SplitInjective(topic, msg.topic);
      }
    }
    forall ls | At(t', ls).Some? ensures At(t', ls).value.topic in table' && Split(At(t', ls).value.topic) == ls {
      GetPut(t, parts, Some(msg), None, ls);
      assert ls == parts || At(t, ls) == At(t', ls);
    }
  }

  lemma MirrorCut(t: Node, table: Table, topic: string)
    requires Mirrors(t, table)
    ensures Mirrors(Cut(t, Split(topic), None, None), table - {topic})
  {
    var parts, t', table' := Split(topic), Cut(t, Split(topic), None, None), table - {topic};
    forall x | x in table' ensures table'[x].topic == x && At(t', Split(x)) == Some(table'[x]) {
      GetCut(t, parts, None, None, Split(x));
      if Split(x) == parts {
        SplitInjective(x, topic);
      }
    }
    forall ls | At(t', ls).Some? ensures At(t', ls).value.topic in table' && Split(At(t', ls).value.topic) == ls {
      GetCut(t, parts, None, None, ls);
      assert At(t, ls) == At(t', ls);
    }
  }

  // ---------------------------------------------------------------- collecting without repeats

  /** Every message below the node is a row of the table. */
  ghost predicate Owned(t: Node, table: Table) {
    forall ls :: At(t, ls).Some? ==> IsRow(table, At(t, ls).value)
  }

  ghost predicate IsRow(table: Table, m: RetainedMessage) {
    m.topic in table && table[m.topic] == m
  }

  lemma OwnedChild(t: Node, table: Table, k: string)
    requires Owned(t, table) && k in t.children
    ensures Owned(t.children[k], table)
  {
    forall ls | At(t.children[k], ls).Some? ensures IsRow(table, At(t.children[k], ls).value) {
      assert ([k] + ls)[1..] == ls;
      assert At(t, [k] + ls) == At(t.children[k], ls);
    }
  }

  /** The list holds rows of the table, no topic twice, and `visited` is the set of their topics. */
  ghost predicate Noted(table: Table, result: seq<RetainedMessage>, visited: set<string>) {
    && (forall m :: m in result ==> IsRow(table, m) && m.topic in visited)
    && (forall i, j :: 0 <= i < j < |result| ==> result[i].topic != result[j].topic)
    && (forall topic :: topic in visited ==> topic in table && table[topic] in result)
  }

  /** The new list holds the old messages and the hits. */
  ghost predicate Extended(result: seq<RetainedMessage>, hits: Messages, rs: seq<RetainedMessage>) {
    forall m :: m in rs <==> m in result || m in hits
  }

  ghost function Own(t: Node): Messages {
    iset m: RetainedMessage | t.value == Some(m)
  }

  method Note(node: Node, ghost table: Table, result: seq<RetainedMessage>, visited: set<string>)
    returns (rs: seq<RetainedMessage>, vs: set<string>)
    requires Noted(table, result, visited) && Owned(node, table)
    ensures Noted(table, rs, vs) && Extended(result, Own(node), rs)
  {
    rs, vs := result, visited;
    assert At(node, []) == node.value;
    if node.value.Some? {
      if node.value.value.topic !in visited {
        rs, vs := rs + [node.value.value], vs + {node.value.value.topic};
        forall i, j | 0 <= i < j < |rs| ensures rs[i].topic != rs[j].topic {
          assert result[i] in result;
        }
      }
    }
  }

  ghost predicate IsHeld(t: Node, m: RetainedMessage) {
    exists ls :: At(t, ls) == Some(m)
  }

  ghost function All(t: Node): Messages {
    iset m: RetainedMessage | IsHeld(t, m)
  }

  ghost predicate IsFound(t: Node, pattern: seq<string>, m: RetainedMessage) {
    exists ls :: At(t, ls) == Some(m) && Match(pattern, ls)
  }

  /** The messages below the node whose remaining levels match the remaining pattern. */
  ghost function Found(t: Node, pattern: seq<string>): Messages {
    iset m: RetainedMessage | IsFound(t, pattern, m)
  }

  ghost predicate IsFoundUnder(t: Node, keys: set<string>, pattern: seq<string>, m: RetainedMessage) {
    exists k :: k in keys && k in t.children && IsFound(t.children[k], pattern, m)
  }

  ghost function FoundUnder(t: Node, keys: set<string>, pattern: seq<string>): Messages {
    iset m: RetainedMessage | IsFoundUnder(t, keys, pattern, m)
  }

  lemma FoundAll(t: Node)
    ensures Found(t, ["#"]) == All(t)
  {
  }

  lemma AllSplits(t: Node, m: RetainedMessage)
    ensures IsHeld(t, m) <==> m in Own(t) || IsFoundUnder(t, t.children.Keys, ["#"], m)
  {
    if IsHeld(t, m) {
      var ls :| At(t, ls) == Some(m);
      if ls != [] {
        assert At(t.children[ls[0]], ls[1..]) == Some(m) && Match(["#"], ls[1..]);
        assert IsFound(t.children[ls[0]], ["#"], m);
      }
    }
    if m in Own(t) {
      assert At(t, []) == Some(m);
    }
    if IsFoundUnder(t, t.children.Keys, ["#"], m) {
      var k :| k in t.children && IsFound(t.children[k], ["#"], m);
      var ls := StepDown(t, k, ["#"], m);
    }
  }

  /** A message found below a child is held by the node. */
  lemma StepDown(t: Node, k: string, pattern: seq<string>, m: RetainedMessage) returns (ls: seq<string>)
    requires k in t.children && IsFound(t.children[k], pattern, m)
    ensures ls != [] && ls[0] == k && At(t, ls) == Some(m) && Match(pattern, ls[1..])
  {
    var tail :| At(t.children[k], tail) == Some(m) && Match(pattern, tail);
    ls := [k] + tail;
    assert ls[1..] == tail;
  }

  lemma FoundPlus(t: Node, rest: seq<string>)
    ensures Found(t, ["+"] + rest) == FoundUnder(t, t.children.Keys, rest)
  {
    var pattern := ["+"] + rest;
    assert pattern[1..] == rest;
    forall m: RetainedMessage ensures IsFound(t, pattern, m) <==> IsFoundUnder(t, t.children.Keys, rest, m) {
      if IsFound(t, pattern, m) {
        var ls :| At(t, ls) == Some(m) && Match(pattern, ls);
        assert At(t.children[ls[0]], ls[1..]) == Some(m);
        assert IsFound(t.children[ls[0]], rest, m);
      }
      if IsFoundUnder(t, t.children.Keys, rest, m) {
        var k :| k in t.children && IsFound(t.children[k], rest, m);
        var ls := StepDown(t, k, rest, m);
        assert Match(pattern, ls);
      }
    }
  }

  lemma FoundExact(t: Node, part: string, rest: seq<string>)
    requires part != "+" && part != "#"
    ensures Found(t, [part] + rest) == if part in t.children then Found(t.children[part], rest) else iset{}
  {
    var pattern := [part] + rest;
    assert pattern[1..] == rest;
    forall m: RetainedMessage
      ensures IsFound(t, pattern, m) <==> part in t.children && IsFound(t.children[part], rest, m)
    {
      if IsFound(t, pattern, m) {
        var ls :| At(t, ls) == Some(m) && Match(pattern, ls);
        assert At(t.children[part], ls[1..]) == Some(m);
      }
      if part in t.children && IsFound(t.children[part], rest, m) {
        var ls := StepDown(t, part, rest, m);
        assert Match(pattern, ls);
      }
    }
  }

  lemma FoundEnd(t: Node)
    ensures Found(t, []) == Own(t)
  {
    forall m: RetainedMessage ensures IsFound(t, [], m) <==> m in Own(t) {
      if m in Own(t) {
        assert At(t, []) == Some(m) && Match([], []);
      }
    }
  }

  lemma FoundHash(t: Node, pattern: seq<string>)
    requires pattern != [] && pattern[0] == "#"
    ensures Found(t, pattern) == All(t)
  {
  }

  lemma UnderMore(t: Node, keys: set<string>, k: string, pattern: seq<string>)
    requires k in t.children
    ensures FoundUnder(t, keys + {k}, pattern) == FoundUnder(t, keys, pattern) + Found(t.children[k], pattern)
  {
  }

  lemma ExtendedTwice(a: seq<RetainedMessage>, p: Messages, b: seq<RetainedMessage>, q: Messages,
                      c: seq<RetainedMessage>)
    requires Extended(a, p, b) && Extended(b, q, c)
    ensures Extended(a, p + q, c)
  {
  }

  method CollectAll(node: Node, ghost table: Table, result: seq<RetainedMessage>, visited: set<string>)
    returns (rs: seq<RetainedMessage>, vs: set<string>)
    requires Noted(table, result, visited) && Owned(node, table)
    ensures Noted(table, rs, vs) && Extended(result, All(node), rs)
    decreases node
  {
    rs, vs := Note(node, table, result, visited);
    ghost var own := rs;
    var keys := node.children.Keys;
    ghost var done: set<string> := {};
    assert FoundUnder(node, {}, ["#"]) == iset{};
    while keys != {}
      invariant keys <= node.children.Keys && done == node.children.Keys - keys
      invariant Noted(table, rs, vs) && Extended(own, FoundUnder(node, done, ["#"]), rs)
    {
      var k :| k in keys;
      ghost var before := rs;
      OwnedChild(node, table, k);
      rs, vs := CollectAll(node.children[k], table, rs, vs);
      FoundAll(node.children[k]);
      UnderMore(node, done, k, ["#"]);
      ExtendedTwice(own, FoundUnder(node, done, ["#"]), before, Found(node.children[k], ["#"]), rs);
      keys, done := keys - {k}, done + {k};
    }
    assert Extended(result, All(node), rs) by {
      forall m ensures m in rs <==> m in result || m in All(node) {
        AllSplits(node, m);
      }
    }
  }

  method MatchIndex(node: Node, ghost table: Table, parts: seq<string>, depth: nat, result: seq<RetainedMessage>,
                    visited: set<string>)
    returns (rs: seq<RetainedMessage>, vs: set<string>)
    requires depth <= |parts| && Noted(table, result, visited) && Owned(node, table)
    ensures Noted(table, rs, vs) && Extended(result, Found(node, parts[depth..]), rs)
    decreases |parts| - depth, 1
  {
    if depth == |parts| {
      FoundEnd(node);
      rs, vs := Note(node, table, result, visited);
      return;
    }
    var part := parts[depth];
    ghost var rest := parts[depth + 1..];
    assert parts[depth..] == [part] + rest;
    if part == "#" {
      FoundHash(node, parts[depth..]);
      rs, vs := CollectAll(node, table, result, visited);
      return;
    }
    if part == "+" {
      FoundPlus(node, rest);
      rs, vs := MatchChildren(node, table, parts, depth, result, visited);
      return;
    }
    FoundExact(node, part, rest);
    rs, vs := result, visited;
    if part in node.children {
      OwnedChild(node, table, part);
      rs, vs := MatchIndex(node.children[part], table, parts, depth + 1, result, visited);
    }
  }

  /** One level of '+': every child in turn. */
  method MatchChildren(node: Node, ghost table: Table, parts: seq<string>, depth: nat, result: seq<RetainedMessage>,
                       visited: set<string>)
    returns (rs: seq<RetainedMessage>, vs: set<string>)
    requires depth < |parts| && Noted(table, result, visited) && Owned(node, table)
    ensures Noted(table, rs, vs) && Extended(result, FoundUnder(node, node.children.Keys, parts[depth + 1..]), rs)
    decreases |parts| - depth, 0
  {
    rs, vs := result, visited;
    var keys := node.children.Keys;
    ghost var done, rest: seq<string> := {}, parts[depth + 1..];
    assert FoundUnder(node, {}, rest) == iset{};
    while keys != {}
      invariant keys <= node.children.Keys && done == node.children.Keys - keys
      invariant Noted(table, rs, vs) && Extended(result, FoundUnder(node, done, rest), rs)
    {
      var k :| k in keys;
      ghost var before := rs;
      OwnedChild(node, table, k);
      rs, vs := MatchIndex(node.children[k], table, parts, depth + 1, rs, vs);
      UnderMore(node, done, k, rest);
      ExtendedTwice(result, FoundUnder(node, done, rest), before, Found(node.children[k], rest), rs);
      keys, done := keys - {k}, done + {k};
    }
  }

  // ---------------------------------------------------------------- the store

  class RetainedStore {
    var messages: Table
    var index: Node

    ghost predicate Valid()
      reads this
    {
      NoDead(index, None) && Mirrors(index, messages)
    }

    constructor ()
      ensures Valid() && messages == map[]
    {
      messages, index := map[], Leaf(None);
      new;
      forall ls: seq<string> ensures At(index, ls) == None {
        GetLeaf<Option<RetainedMessage>>(ls, None);
      }
    }

    /** An empty payload deletes; anything else replaces, stamped if the caller did not stamp it. */
    method SaveRetained(msg: RetainedMessage, now: nat)
      requires Valid()
      modifies this
      ensures Valid()
      ensures messages == if msg.payload == [] then old(messages) - {msg.topic}
                          else old(messages)[msg.topic := if msg.timestamp == 0 then msg.(timestamp := now) else msg]
    {
      if |msg.payload| == 0 {
        DeleteRetained(msg.topic);
        return;
      }
      var stored := if msg.timestamp == 0 then msg.(timestamp := now) else msg;
      var parts := SplitTopic(msg.topic);
      var n := AddToIndex(index, parts, stored, 0);
      assert parts[0..] == parts;
      PutNotDead(index, parts, Some(stored), None);
      MirrorPut(index, messages, stored);
      messages, index := messages[msg.topic := stored], n;
    }

    method DeleteRetained(topic: string)
      requires Valid()
      modifies this
      ensures Valid() && messages == old(messages) - {topic}
    {
      var parts := SplitTopic(topic);
      var n, dead := Remove(index, parts, 0);
      assert parts[0..] == parts;
      CutNoDead(index, parts, None, None);
      MirrorCut(index, messages, topic);
      messages, index := messages - {topic}, n;
    }

    /** Exactly the stored messages whose topic matches the filter, each once. */
    method MatchRetained(pattern: string) returns (result: seq<RetainedMessage>)
      requires Valid()
      ensures forall m :: m in result <==> IsRow(messages, m) && Match(Split(pattern), Split(m.topic))
      ensures forall i, j :: 0 <= i < j < |result| ==> result[i].topic != result[j].topic
    {
      if |messages| == 0 {
        return [];
      }
      var parts := SplitTopic(pattern);
      var visited;
      MirrorOwned(index, messages);
      result, visited := MatchIndex(index, messages, parts, 0, [], {});
      assert parts[0..] == parts;
      forall m ensures m in result <==> IsRow(messages, m) && Match(parts, Split(m.topic)) {
        MirrorFound(index, messages, parts, m);
      }
    }
  }

  lemma MirrorOwned(t: Node, table: Table)
    requires Mirrors(t, table)
    ensures Owned(t, table)
  {
  }

  lemma MirrorFound(t: Node, table: Table, pattern: seq<string>, m: RetainedMessage)
    requires Mirrors(t, table)
    ensures m in Found(t, pattern) <==> IsRow(table, m) && Match(pattern, Split(m.topic))
  {
  }
}
