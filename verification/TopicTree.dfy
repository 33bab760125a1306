/** The broker's subscription index: plain subscriptions in a trie, shared ones in groups, one counter. */
module TopicTrees {
  import opened Basics
  import opened SharedGroups
  import opened SubscriptionTrie
  import opened Topics
  import opened Tries

  /** The plain subscriptions as a flat table. */
  type Table = map<(string, string), nat>
  /** Shared subscriptions as the index holds them: share name, filter, client. */
  type Groups = map<string, map<string, Subs>>
  type SharedTable = map<(string, string, string), nat>

  datatype SharedSubscriber = SharedSubscriber(clientID: string, qos: nat, shareName: string)

  // ---------------------------------------------------------------- the trie is the table

  /** The trie holds the rows of the table, each under the levels of its filter, and nothing else. */
  ghost predicate Mirrors(t: Node, table: Table) {
    && (forall f, c :: (f, c) in table ==> Has(At(t, Split(f)), (c, table[(f, c)])))
    && (forall ls, c :: c in At(t, ls) ==> |ls| > 0 && Split(Join(ls)) == ls && (Join(ls), c) in table)
  }

  lemma MirrorPut(t: Node, table: Table, filter: string, c: string, q: nat)
    requires Mirrors(t, table)
    ensures Mirrors(Put(t, Split(filter), At(t, Split(filter))[c := q], map[]), table[(filter, c) := q])
  {
    var parts := Split(filter);
    var subs := At(t, parts)[c := q];
    var t', table' := Put(t, parts, subs, map[]), table[(filter, c) := q];
    JoinSplit(filter);
    forall f, d | (f, d) in table' ensures Has(At(t', Split(f)), (d, table'[(f, d)])) {
      GetPut(t, parts, subs, map[], Split(f));
      if Split(f) == parts {
        SplitInjective(f, filter);
      } else {
        assert (f, d) in table;
      }
    }
    forall ls, d | d in At(t', ls) ensures |ls| > 0 && Split(Join(ls)) == ls && (Join(ls), d) in table' {
      GetPut(t, parts, subs, map[], ls);
      assert (ls == parts && d == c) || d in At(t, ls);
    }
  }

  lemma MirrorCut(t: Node, table: Table, filter: string, c: string)
    requires Mirrors(t, table)
    ensures Mirrors(Cut(t, Split(filter), At(t, Split(filter)) - {c}, map[]), table - {(filter, c)})
  {
    var parts := Split(filter);
    var subs := At(t, parts) - {c};
    var t', table' := Cut(t, parts, subs, map[]), table - {(filter, c)};
    JoinSplit(filter);
    if !HasPath(t, parts) {
      GetAbsent(t, parts, map[]);
      assert subs == map[];
    }
    forall f, d | (f, d) in table' ensures Has(At(t', Split(f)), (d, table'[(f, d)])) {
      GetCut(t, parts, subs, map[], Split(f));
      if Split(f) == parts {
        SplitInjective(f, filter);
      }
    }
    forall ls, d | d in At(t', ls) ensures |ls| > 0 && Split(Join(ls)) == ls && (Join(ls), d) in table' {
      GetCut(t, parts, subs, map[], ls);
      assert d in At(t, ls);
    }
  }

  lemma MirrorHas(t: Node, table: Table, filter: string, c: string)
    requires Mirrors(t, table)
    ensures (filter, c) in table <==> c in At(t, Split(filter))
  {
    JoinSplit(filter);
  }

  /** What the plain half of the index keeps. */
  ghost predicate Indexes(t: Node, table: Table) {
    NoDead(t, map[]) && Mirrors(t, table)
  }

  lemma IndexPut(t: Node, table: Table, filter: string, c: string, q: nat, t': Node)
    requires Indexes(t, table) && t' == Put(t, Split(filter), At(t, Split(filter))[c := q], map[])
    ensures Indexes(t', table[(filter, c) := q])
    ensures |table[(filter, c) := q]| == |table| + if c in At(t, Split(filter)) then 0 else 1
  {
    assert c in At(t, Split(filter))[c := q];
    PutNotDead(t, Split(filter), At(t, Split(filter))[c := q], map[]);
    MirrorPut(t, table, filter, c, q);
    MirrorHas(t, table, filter, c);
  }

  lemma IndexCut(t: Node, table: Table, filter: string, c: string, t': Node)
    requires Indexes(t, table) && t' == Cut(t, Split(filter), At(t, Split(filter)) - {c}, map[])
    ensures Indexes(t', table - {(filter, c)})
    ensures |table - {(filter, c)}| == |table| - if c in At(t, Split(filter)) then 1 else 0
  {
    CutNoDead(t, Split(filter), At(t, Split(filter)) - {c}, map[]);
    MirrorCut(t, table, filter, c);
    MirrorHas(t, table, filter, c);
    TableLess(table, (filter, c));
  }

  lemma TableLess<K, V>(table: map<K, V>, k: K)
    ensures |table - {k}| == |table| - if k in table then 1 else 0
  {
    assert (table - {k}).Keys == table.Keys - {k};
    assert |table| == |table.Keys| && |table - {k}| == |(table - {k}).Keys|;
  }

  /** Grow the trie, and say whether the row is new. */
  method Plant(t: Node, ghost table: Table, filter: string, c: string, q: nat) returns (t': Node, added: nat)
    requires Indexes(t, table)
    ensures Indexes(t', table[(filter, c) := q]) && |table[(filter, c) := q]| == |table| + added
  {
    var parts := SplitTopic(filter);
    var isNew;
    t', isNew := SubscribeNode(t, parts, c, q, 0);
    assert parts[0..] == parts;
    IndexPut(t, table, filter, c, q, t');
    added := if isNew then 1 else 0;
  }

  /** Prune the trie, and say whether there was a row. */
  method Uproot(t: Node, ghost table: Table, filter: string, c: string) returns (t': Node, removed: nat)
    requires Indexes(t, table)
    ensures Indexes(t', table - {(filter, c)}) && |table - {(filter, c)}| == |table| - removed
  {
    var parts := SplitTopic(filter);
    var was, dead;
    t', was, dead := UnsubscribeNode(t, parts, c, 0);
    assert parts[0..] == parts;
    IndexCut(t, table, filter, c, t');
    removed := if was then 1 else 0;
  }

  // ---------------------------------------------------------------- what a topic selects

  predicate FilterReaches(filter: string, topic: string) {
    Reaches(Split(filter), Split(topic), !Dollar(Split(topic)[0]))
  }

  ghost predicate IsSubscribed(table: Table, topic: string, h: (string, nat)) {
    exists f :: (f, h.0) in table && table[(f, h.0)] == h.1 && FilterReaches(f, topic)
  }

  /** The rows whose filter matches the topic or a topic it extends. */
  ghost function Subscribed(table: Table, topic: string): Hits {
    iset h: (string, nat) | IsSubscribed(table, topic, h)
  }

  lemma ReachedIsSubscribed(t: Node, table: Table, topic: string)
    requires Mirrors(t, table)
    ensures Reached(t, Split(topic), !Dollar(Split(topic)[0])) == Subscribed(table, topic)
  {
  }

  /** A client is selected exactly when one of its filters matches the topic or a topic it extends,
  so no subscription that matches is ever missed. */
  lemma SelectedClients(table: Table, topic: string, results: seq<Subscriber>, f: string, c: string)
    requires Selected(results, Subscribed(table, topic)) && (f, c) in table && FilterMatches(f, topic)
    ensures exists i :: 0 <= i < |results| && results[i].clientID == c && results[i].qos >= table[(f, c)]
  {
    MatchReaches(Split(f), Split(topic));
    assert IsSubscribed(table, topic, (c, table[(f, c)]));
    assert (c, table[(f, c)]) in Subscribed(table, topic);
  }

  // ---------------------------------------------------------------- the groups are the shared table

  function Members(groups: Groups, share: string, filter: string): Subs {
    if share in groups && filter in groups[share] then groups[share][filter] else map[]
  }

  predicate HasFilter(filters: map<string, Subs>, f: string) {
    f in filters
  }

  predicate HasGroup(groups: Groups, s: string) {
    s in groups
  }

  ghost predicate Peopled(filters: map<string, Subs>) {
    filters != map[] && forall f {:trigger HasFilter(filters, f)} :: HasFilter(filters, f) ==> filters[f] != map[]
  }

  /** No empty group, and no filter of a group without members. */
  ghost predicate Tidy(groups: Groups) {
    forall s {:trigger HasGroup(groups, s)} :: HasGroup(groups, s) ==> Peopled(groups[s])
  }

  ghost predicate MirrorsShared(groups: Groups, table: SharedTable) {
    forall s, f, c :: ((s, f, c) in table <==> c in Members(groups, s, f)) &&
                      ((s, f, c) in table ==> table[(s, f, c)] == Members(groups, s, f)[c])
  }

  function Enrol(groups: Groups, share: string, filter: string, c: string, q: nat): Groups {
    var filters := if share in groups then groups[share] else map[];
    groups[share := filters[filter := Members(groups, share, filter)[c := q]]]
  }

  /** Emptied filters and emptied groups disappear. */
  function Leave(groups: Groups, share: string, filter: string, c: string): Groups {
    if share !in groups || filter !in groups[share] then groups
    else
      var members := groups[share][filter] - {c};
      var filters := if members == map[] then groups[share] - {filter} else groups[share][filter := members];
      if filters == map[] then groups - {share} else groups[share := filters]
  }

  lemma EnrolMembers(groups: Groups, share: string, filter: string, c: string, q: nat, s: string, f: string)
    ensures Members(Enrol(groups, share, filter, c, q), s, f)
         == if s == share && f == filter then Members(groups, s, f)[c := q] else Members(groups, s, f)
  {
  }

  lemma LeaveMembers(groups: Groups, share: string, filter: string, c: string, s: string, f: string)
    ensures Members(Leave(groups, share, filter, c), s, f)
         == if s == share && f == filter then Members(groups, s, f) - {c} else Members(groups, s, f)
  {
    if share in groups && filter in groups[share] {
      var members := groups[share][filter] - {c};
      var filters := if members == map[] then groups[share] - {filter} else groups[share][filter := members];
      assert f in filters <==> f in groups[share] && (f == filter ==> members != map[]);
    }
  }

  lemma EnrolTidy(groups: Groups, share: string, filter: string, c: string, q: nat)
    requires Tidy(groups)
    ensures Tidy(Enrol(groups, share, filter, c, q))
  {
    var g := Enrol(groups, share, filter, c, q);
    forall s | HasGroup(g, s) ensures Peopled(g[s]) {
      assert s in groups ==> HasGroup(groups, s);
      if s == share {
        assert filter in g[s];
        forall f | HasFilter(g[s], f) ensures g[s][f] != map[] {
          assert f == filter ==> c in g[s][f];
          assert s in groups && f in groups[s] ==> HasFilter(groups[s], f);
        }
      }
    }
  }

  lemma LeaveTidy(groups: Groups, share: string, filter: string, c: string)
    requires Tidy(groups)
    ensures Tidy(Leave(groups, share, filter, c))
  {
    var g := Leave(groups, share, filter, c);
    forall s | HasGroup(g, s) ensures Peopled(g[s]) {
      assert HasGroup(groups, s);
      forall f | HasFilter(g[s], f) ensures g[s][f] != map[] {
        assert HasFilter(groups[s], f);
      }
    }
  }

  lemma EnrolMirrors(groups: Groups, table: SharedTable, share: string, filter: string, c: string, q: nat)
    requires MirrorsShared(groups, table)
    ensures MirrorsShared(Enrol(groups, share, filter, c, q), table[(share, filter, c) := q])
    ensures |table[(share, filter, c) := q]| == |table| + if c in Members(groups, share, filter) then 0 else 1
  {
    var g, t := Enrol(groups, share, filter, c, q), table[(share, filter, c) := q];
    forall s, f, d
      ensures ((s, f, d) in t <==> d in Members(g, s, f)) && ((s, f, d) in t ==> t[(s, f, d)] == Members(g, s, f)[d])
    {
      EnrolMembers(groups, share, filter, c, q, s, f);
    }
    assert c in Members(groups, share, filter) <==> (share, filter, c) in table;
  }

  lemma LeaveMirrors(groups: Groups, table: SharedTable, share: string, filter: string, c: string)
    requires MirrorsShared(groups, table)
    ensures MirrorsShared(Leave(groups, share, filter, c), table - {(share, filter, c)})
    ensures |table - {(share, filter, c)}| == |table| - if c in Members(groups, share, filter) then 1 else 0
  {
    var g, t := Leave(groups, share, filter, c), table - {(share, filter, c)};
    forall s, f, d
      ensures ((s, f, d) in t <==> d in Members(g, s, f)) && ((s, f, d) in t ==> t[(s, f, d)] == Members(g, s, f)[d])
    {
      LeaveMembers(groups, share, filter, c, s, f);
    }
    assert c in Members(groups, share, filter) <==> (share, filter, c) in table;
    TableLess(table, (share, filter, c));
  }

  lemma LeaveKeys(groups: Groups, share: string, filter: string, c: string)
    ensures groups.Keys - {share} <= Leave(groups, share, filter, c).Keys
  {
  }

  /** The groups hold the rows of the shared table, and neither an empty filter nor an empty group. */
  ghost predicate Enrols(groups: Groups, table: SharedTable) {
    MirrorsShared(groups, table) && Tidy(groups)
  }

  method JoinGroup(groups: Groups, ghost table: SharedTable, share: string, filter: string, c: string, q: nat)
    returns (groups': Groups, added: nat, ghost table': SharedTable)
    requires Enrols(groups, table)
    ensures groups' == Enrol(groups, share, filter, c, q) && groups.Keys <= groups'.Keys
    ensures table' == table[(share, filter, c) := q] && Enrols(groups', table') && |table'| == |table| + added
  {
    EnrolMirrors(groups, table, share, filter, c, q);
    EnrolTidy(groups, share, filter, c, q);
    groups' := Enrol(groups, share, filter, c, q);
    added, table' := if c in Members(groups, share, filter) then 0 else 1, table[(share, filter, c) := q];
  }

  method QuitGroup(groups: Groups, ghost table: SharedTable, last: map<string, string>, share: string, filter: string,
                   c: string)
    returns (groups': Groups, last': map<string, string>, removed: nat, ghost table': SharedTable)
    requires Enrols(groups, table) && last.Keys <= groups.Keys
    ensures groups' == Leave(groups, share, filter, c)
    ensures last' == (if share in groups' then last else last - {share}) && last'.Keys <= groups'.Keys
    ensures table' == table - {(share, filter, c)} && Enrols(groups', table') && |table'| == |table| - removed
  {
    LeaveMirrors(groups, table, share, filter, c);
    LeaveTidy(groups, share, filter, c);
    LeaveKeys(groups, share, filter, c);
    groups' := Leave(groups, share, filter, c);
    last' := if share in groups' then last else last - {share};
    removed, table' := if c in Members(groups, share, filter) then 1 else 0, table - {(share, filter, c)};
  }

  function LastOf(last: map<string, string>, share: string): string {
    if share in last then last[share] else ""
  }

  /** The member of a group that is served: the one whose turn it is, at its highest QoS. */
  ghost predicate Served(offered: Hits, last: string, roster: seq<string>, sel: SharedSubscriber) {
    && roster != []
    && sel.clientID == roster[Turn(roster, last)]
    && IsTop(Subscriber(sel.clientID, sel.qos), offered)
  }

  ghost predicate AreRosters(groups: Groups, topic: string, isOnline: string -> bool,
                             rosters: map<string, seq<string>>)
  {
    forall s :: s in rosters ==> s in groups && IsRoster(rosters[s], Offered(groups[s], topic), isOnline)
  }

  ghost predicate Answered(results: seq<SharedSubscriber>, share: string) {
    exists i :: 0 <= i < |results| && results[i].shareName == share
  }

  /** Exactly one member is served in every group with somebody on its roster. */
  ghost predicate ServedOnce(groups: Groups, topic: string, last: map<string, string>,
                             rosters: map<string, seq<string>>, results: seq<SharedSubscriber>)
  {
    && (forall i, j :: 0 <= i < j < |results| ==> results[i].shareName != results[j].shareName)
    && (forall r :: r in results ==> r.shareName in rosters && r.shareName in groups)
    && (forall r :: r in results ==>
        Served(Offered(groups[r.shareName], topic), LastOf(last, r.shareName), rosters[r.shareName], r))
    && (forall s :: s in rosters && rosters[s] != [] ==> Answered(results, s))
  }

  /** The turn passes to the member served; a group that served nobody keeps its turn. */
  ghost predicate Advanced(last: map<string, string>, rosters: map<string, seq<string>>, last': map<string, string>) {
    && last'.Keys <= last.Keys + rosters.Keys
    && (forall s :: s in rosters && rosters[s] != [] ==>
        LastOf(last', s) == rosters[s][Turn(rosters[s], LastOf(last, s))])
    && (forall s :: !(s in rosters && rosters[s] != []) ==> LastOf(last', s) == LastOf(last, s))
  }

  lemma NobodyServed(groups: Groups, topic: string, last: map<string, string>, rosters: map<string, seq<string>>,
                     results: seq<SharedSubscriber>, s: string)
    requires ServedOnce(groups, topic, last, rosters, results) && s !in rosters
    ensures ServedOnce(groups, topic, last, rosters[s := []], results)
  {
  }

  lemma OneServed(groups: Groups, topic: string, last: map<string, string>, rosters: map<string, seq<string>>,
                  results: seq<SharedSubscriber>, roster: seq<string>, sel: SharedSubscriber)
    requires ServedOnce(groups, topic, last, rosters, results) && sel.shareName in groups && sel.shareName !in rosters
    requires Served(Offered(groups[sel.shareName], topic), LastOf(last, sel.shareName), roster, sel)
    ensures ServedOnce(groups, topic, last, rosters[sel.shareName := roster], results + [sel])
  {
    var rs, rosters' := results + [sel], rosters[sel.shareName := roster];
    forall s | s in rosters' && rosters'[s] != [] ensures Answered(rs, s) {
      if s == sel.shareName {
        assert rs[|results|].shareName == s;
      } else {
        assert Answered(results, s);
        var i :| 0 <= i < |results| && results[i].shareName == s;
        assert rs[i].shareName == s;
      }
    }
    forall i, j | 0 <= i < j < |rs| ensures rs[i].shareName != rs[j].shareName {
      assert results[i] in results;
    }
  }

  lemma AdvanceOne(last: map<string, string>, rosters: map<string, seq<string>>, last': map<string, string>, s: string,
                   roster: seq<string>)
    requires Advanced(last, rosters, last') && s !in rosters && roster != []
    ensures Advanced(last, rosters[s := roster], last'[s := roster[Turn(roster, LastOf(last', s))]])
  {
  }

  lemma AdvanceNone(last: map<string, string>, rosters: map<string, seq<string>>, last': map<string, string>, s: string)
    requires Advanced(last, rosters, last') && s !in rosters
    ensures Advanced(last, rosters[s := []], last')
  {
  }

  lemma MoreRosters(groups: Groups, topic: string, isOnline: string -> bool, rosters: map<string, seq<string>>,
                    s: string, roster: seq<string>)
    requires AreRosters(groups, topic, isOnline, rosters) && s in groups &&
        IsRoster(roster, Offered(groups[s], topic), isOnline)
    ensures AreRosters(groups, topic, isOnline, rosters[s := roster])
  {
  }

  ghost predicate Round(groups: Groups, topic: string, isOnline: string -> bool, last: map<string, string>,
                        rosters: map<string, seq<string>>, results: seq<SharedSubscriber>, last': map<string, string>)
  {
    && AreRosters(groups, topic, isOnline, rosters)
    && ServedOnce(groups, topic, last, rosters, results)
    && Advanced(last, rosters, last')
  }

  // ---------------------------------------------------------------- round after round

  /** One call of MatchShared: what it was asked, the online members it found and what it answered. */
  datatype Call = Call(groups: Groups, topic: string, isOnline: string -> bool, rosters: map<string, seq<string>>,
                       results: seq<SharedSubscriber>)

  ghost predicate Replied(c: Call, last: map<string, string>, last': map<string, string>) {
    Round(c.groups, c.topic, c.isOnline, last, c.rosters, c.results, last')
  }

  /** Calls in a row, each finding the turns as the one before left them. */
  ghost predicate InARow(calls: seq<Call>, lasts: seq<map<string, string>>) {
    && |lasts| == |calls| + 1
    && forall i {:trigger calls[i]} :: 0 <= i < |calls| ==> Replied(calls[i], lasts[i], lasts[i + 1])
  }

  /** Each call finds somebody online in the group. */
  ghost predicate Attended(calls: seq<Call>, s: string) {
    forall i {:trigger calls[i]} :: 0 <= i < |calls| ==> s in calls[i].rosters && calls[i].rosters[s] != []
  }

  ghost function RostersOf(calls: seq<Call>, s: string): (rosters: seq<seq<string>>)
    requires Attended(calls, s)
    ensures |rosters| == |calls| && forall i :: 0 <= i < |calls| ==> rosters[i] == calls[i].rosters[s] != []
  {
    seq(|calls|, i requires 0 <= i < |calls| => calls[i].rosters[s])
  }

  ghost predicate Serves(c: Call, s: string, client: string) {
    exists r :: r in c.results && r.shareName == s && r.clientID == client
  }

  lemma CallServes(c: Call, last: map<string, string>, last': map<string, string>, s: string)
    requires Replied(c, last, last') && s in c.rosters && c.rosters[s] != []
    ensures var client := c.rosters[s][Turn(c.rosters[s], LastOf(last, s))];
            LastOf(last', s) == client && Serves(c, s, client)
  {
    assert Answered(c.results, s);
    var i :| 0 <= i < |c.results| && c.results[i].shareName == s;
    assert c.results[i] in c.results;
  }

  /** Whatever happens to groups, topics and connections in between, a group serves the members that take turns. */
  lemma {:induction false} CallsServePicks(calls: seq<Call>, lasts: seq<map<string, string>>, s: string, i: nat)
    requires InARow(calls, lasts) && Attended(calls, s) && i < |calls|
    ensures Serves(calls[i], s, Picks(RostersOf(calls, s), LastOf(lasts[0], s))[i])
    decreases i
  {
    CallServes(calls[0], lasts[0], lasts[1], s);
    if i > 0 {
      LaterCalls(calls, lasts, s);
      CallsServePicks(calls[1..], lasts[1..], s, i - 1);
      assert RostersOf(calls[1..], s) == RostersOf(calls, s)[1..];
    }
  }

  lemma LaterCalls(calls: seq<Call>, lasts: seq<map<string, string>>, s: string)
    requires InARow(calls, lasts) && Attended(calls, s) && calls != []
    ensures InARow(calls[1..], lasts[1..]) && Attended(calls[1..], s)
  {
    forall j | 0 <= j < |calls[1..]| ensures Replied(calls[1..][j], lasts[1..][j], lasts[1..][j + 1]) {
      assert calls[1..][j] == calls[j + 1];
    }
    forall j | 0 <= j < |calls[1..]| ensures s in calls[1..][j].rosters && calls[1..][j].rosters[s] != [] {
      assert calls[1..][j] == calls[j + 1];
    }
  }

  /** As long as nothing changes, as many calls as there are members online serve each of them once. */
  lemma CallsAreFair(calls: seq<Call>, lasts: seq<map<string, string>>, s: string, groups: Groups, topic: string,
                     isOnline: string -> bool) returns (sel: seq<string>)
    requires InARow(calls, lasts) && Attended(calls, s) && calls != []
    requires forall i :: 0 <= i < |calls| ==>
               calls[i].groups == groups && calls[i].topic == topic && calls[i].isOnline == isOnline
    requires var ids := calls[0].rosters[s]; |calls| == |ids| && "" !in ids
    ensures multiset(sel) == multiset(calls[0].rosters[s]) && |sel| == |calls|
    ensures forall i :: 0 <= i < |calls| ==> Serves(calls[i], s, sel[i])
  {
    var ids, rosters := calls[0].rosters[s], RostersOf(calls, s);
    forall i | 0 <= i < |calls| ensures rosters[i] == ids {
      assert Replied(calls[i], lasts[i], lasts[i + 1]) && Replied(calls[0], lasts[0], lasts[1]);
      RosterUnique(rosters[i], ids, Offered(groups[s], topic), isOnline);
    }
    sel := Picks(rosters, LastOf(lasts[0], s));
    SameRosterPicks(rosters, ids, LastOf(lasts[0], s));
    RoundRobin(ids, LastOf(lasts[0], s));
    forall i | 0 <= i < |calls| ensures Serves(calls[i], s, sel[i]) {
      CallsServePicks(calls, lasts, s, i);
    }
  }

  // ---------------------------------------------------------------- the groups of a tree

  method ServeGroup(groups: Groups, topic: string, isOnline: string -> bool, ghost last: map<string, string>,
                    ghost rosters: map<string, seq<string>>, results: seq<SharedSubscriber>, now: map<string, string>,
                    shareName: string)
    returns (rs: seq<SharedSubscriber>, now': map<string, string>, roster: seq<string>)
    requires Round(groups, topic, isOnline, last, rosters, results, now) && shareName in groups && shareName !in rosters
    ensures Round(groups, topic, isOnline, last, rosters[shareName := roster], rs, now')
  {
    var sel;
    sel, roster := MatchGroup(groups[shareName], topic, isOnline, LastOf(now, shareName));
    MoreRosters(groups, topic, isOnline, rosters, shareName, roster);
    if sel.Some? {
      var served := SharedSubscriber(sel.value.clientID, sel.value.qos, shareName);
      OneServed(groups, topic, last, rosters, results, roster, served);
      AdvanceOne(last, rosters, now, shareName, roster);
      return results + [served], now[shareName := sel.value.clientID], roster;
    }
    NobodyServed(groups, topic, last, rosters, results, shareName);
    AdvanceNone(last, rosters, now, shareName);
    return results, now, roster;
  }

  method ServeGroups(groups: Groups, topic: string, isOnline: string -> bool, last: map<string, string>)
    returns (results: seq<SharedSubscriber>, last': map<string, string>, rosters: map<string, seq<string>>)
    ensures rosters.Keys == groups.Keys && Round(groups, topic, isOnline, last, rosters, results, last')
  {
    results, last', rosters := [], last, map[];
    var shares := groups.Keys;
    while shares != {}
      invariant shares <= groups.Keys && rosters.Keys == groups.Keys - shares
      invariant Round(groups, topic, isOnline, last, rosters, results, last')
    {
      var shareName :| shareName in shares;
      var roster;
      results, last', roster := ServeGroup(groups, topic, isOnline, last, rosters, results, last', shareName);
      rosters := rosters[shareName := roster];
      shares := shares - {shareName};
    }
  }

  /** Two halves behind two locks, and one counter over both. A method needs and keeps the half it works on; what
  it does not modify it cannot break. */
  class TopicTree {
    var root: Node
    var totalSubs: int
    var sharedSubs: Groups
    var sharedLast: map<string, string>
    ghost var table: Table
    ghost var sharedTable: SharedTable

    ghost predicate PlainValid()
      reads `root, `table
    {
      Indexes(root, table)
    }

    ghost predicate SharedValid()
      reads `sharedSubs, `sharedTable
    {
      Enrols(sharedSubs, sharedTable)
    }

    /** Only a group that exists has a turn. */
    ghost predicate TurnsKnown()
      reads `sharedSubs, `sharedLast
    {
      sharedLast.Keys <= sharedSubs.Keys
    }

    ghost predicate Counted()
      reads `totalSubs, `table, `sharedTable
    {
      totalSubs == |table| + |sharedTable|
    }

    constructor ()
      ensures PlainValid() && SharedValid() && TurnsKnown() && Counted()
      ensures table == map[] && sharedTable == map[] && sharedLast == map[]
    {
      root, totalSubs, sharedSubs, sharedLast := Leaf(map[]), 0, map[], map[];
      table, sharedTable := map[], map[];
      new;
      forall ls: seq<string> ensures At(root, ls) == map[] {
        GetLeaf<Subs>(ls, map[]);
      }
    }

    method Subscribe(topic: string, clientID: string, qos: nat) returns (ok: bool)
      requires PlainValid() && Counted()
      modifies `root, `totalSubs, `table
      ensures PlainValid() && Counted() && (ok <==> ValidFilter(topic))
      ensures table == if ok then old(table)[(topic, clientID) := qos] else old(table)
    {
      ok := ValidateTopicFilter(topic);
      if !ok {
        return;
      }
      var n, added := Plant(root, table, topic, clientID, qos);
      root, table, totalSubs := n, table[(topic, clientID) := qos], totalSubs + added;
    }

    method Unsubscribe(topic: string, clientID: string)
      requires PlainValid() && Counted()
      modifies `root, `totalSubs, `table
      ensures PlainValid() && Counted() && table == old(table) - {(topic, clientID)}
    {
      var n, removed := Uproot(root, table, topic, clientID);
      root, table, totalSubs := n, table - {(topic, clientID)}, totalSubs - removed;
    }

    method SubscribeShared(shareName: string, topicFilter: string, clientID: string, qos: nat)
      requires SharedValid() && TurnsKnown() && Counted()
      modifies `sharedSubs, `totalSubs, `sharedTable
      ensures SharedValid() && TurnsKnown() && Counted()
      ensures sharedTable == old(sharedTable)[(shareName, topicFilter, clientID) := qos]
      ensures sharedSubs == Enrol(old(sharedSubs), shareName, topicFilter, clientID, qos)
    {
      var groups, added, rows := JoinGroup(sharedSubs, sharedTable, shareName, topicFilter, clientID, qos);
      sharedSubs, totalSubs, sharedTable := groups, totalSubs + added, rows;
    }

    /** The turn of a group is forgotten with its last member. */
    method UnsubscribeShared(shareName: string, topicFilter: string, clientID: string)
      requires SharedValid() && TurnsKnown() && Counted()
      modifies `sharedSubs, `totalSubs, `sharedTable, `sharedLast
      ensures SharedValid() && TurnsKnown() && Counted()
      ensures sharedTable == old(sharedTable) - {(shareName, topicFilter, clientID)}
      ensures sharedSubs == Leave(old(sharedSubs), shareName, topicFilter, clientID)
      ensures sharedLast == if shareName in sharedSubs then old(sharedLast) else old(sharedLast) - {shareName}
    {
      var groups, last, removed, rows :=
        QuitGroup(sharedSubs, sharedTable, sharedLast, shareName, topicFilter, clientID);
      sharedSubs, sharedLast, totalSubs, sharedTable := groups, last, totalSubs - removed, rows;
    }

    /** Exactly one member is served in every group that has an online member the topic reaches. */
    method MatchShared(topic: string, isOnline: string -> bool)
      returns (results: seq<SharedSubscriber>, ghost rosters: map<string, seq<string>>)
      requires TurnsKnown()
      modifies `sharedLast
      ensures TurnsKnown() && rosters.Keys == sharedSubs.Keys
      ensures Round(sharedSubs, topic, isOnline, old(sharedLast), rosters, results, sharedLast)
    {
      var last, groups := sharedLast, sharedSubs;
      results, last, rosters := ServeGroups(groups, topic, isOnline, last);
      sharedLast := last;
      assert sharedSubs == groups;
    }

    method MatchTopicTree(topic: string) returns (results: seq<Subscriber>)
      requires PlainValid()
      ensures Selected(results, Subscribed(table, topic))
    {
      var parts := SplitTopic(topic);
      var isSystemTopic := |parts| > 0 && |parts[0]| > 0 && parts[0][0] == '$';
      var visited;
      results, visited := MatchNodeWithSys(root, parts, 0, [], map[], isSystemTopic, !isSystemTopic);
      assert parts[0..] == parts;
      ReachedIsSubscribed(root, table, topic);
      JoinedSelects(results, visited, Subscribed(table, topic));
    }
  }
}
