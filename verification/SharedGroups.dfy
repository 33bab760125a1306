/** Shared subscriptions: the members of a group that a topic reaches, and whose turn it is. */
module SharedGroups {
  import opened Basics
  import opened Strings
  import opened SubscriptionTrie
  import opened Topics

  // ---------------------------------------------------------------- the members a topic reaches

  predicate FilterMatches(filter: string, topic: string) {
    MatchProtected(Split(filter), Split(topic))
  }

  ghost predicate IsOffered(filters: map<string, Subs>, topic: string, h: (string, nat)) {
    exists f :: f in filters && FilterMatches(f, topic) && Has(filters[f], h)
  }

  /** Every member of a matching filter, with each QoS it has there. */
  ghost function Offered(filters: map<string, Subs>, topic: string): Hits {
    iset h: (string, nat) | IsOffered(filters, topic, h)
  }

  lemma OfferedStep(filters: map<string, Subs>, topic: string, keys: set<string>, f: string)
    requires f in keys && keys <= filters.Keys
    ensures Offered(filters - (keys - {f}), topic)
         == Offered(filters - keys, topic) + (if FilterMatches(f, topic) then Pairs(filters[f]) else iset{})
  {
  }

  method GatherMembers(filters: map<string, Subs>, topic: string) returns (members: seq<Subscriber>, seen: Subs)
    ensures Sync(members, seen) && Joined(map[], Offered(filters, topic), seen)
  {
    members, seen := [], map[];
    var keys := filters.Keys;
    assert Offered(filters - keys, topic) == iset{};
    while keys != {}
      invariant keys <= filters.Keys && Sync(members, seen)
      invariant Joined(map[], Offered(filters - keys, topic), seen)
    {
      var f :| f in keys;
      ghost var s0 := seen;
      var matches := MatchSysProtected(f, topic);
      OfferedStep(filters, topic, keys, f);
      if matches {
        members, seen := AddAll(filters[f], members, seen);
        JoinedTwice(map[], Offered(filters - keys, topic), s0, Pairs(filters[f]), seen);
      } else {
        JoinedNothing(map[], Offered(filters - keys, topic), seen);
      }
      keys := keys - {f};
    }
    assert filters - {} == filters;
  }

  // ---------------------------------------------------------------- the stable order

  function Ids(members: seq<Subscriber>): (ids: seq<string>)
    ensures |ids| == |members| && forall i :: 0 <= i < |ids| ==> ids[i] == members[i].clientID
  {
    seq(|members|, i requires 0 <= i < |members| => members[i].clientID)
  }

  ghost predicate Distinct(members: seq<Subscriber>) {
    forall i, j :: 0 <= i < j < |members| ==> members[i].clientID != members[j].clientID
  }

  method InsertMember(members: seq<Subscriber>, m: Subscriber) returns (sorted: seq<Subscriber>)
    requires Ascending(Ids(members)) && m.clientID !in Ids(members)
    ensures Ascending(Ids(sorted)) && forall x :: x in sorted <==> x in members || x == m
  {
    var k := 0;
    while k < |members| && Less(members[k].clientID, m.clientID)
      invariant 0 <= k <= |members| && forall i :: 0 <= i < k ==> Less(Ids(members)[i], m.clientID)
    {
      k := k + 1;
    }
    sorted := members[..k] + [m] + members[k..];
    AscendingInsert(Ids(members), k, m.clientID);
    assert Ids(sorted) == Ids(members)[..k] + [m.clientID] + Ids(members)[k..];
    assert members == members[..k] + members[k..];
  }

  /** The library sort by client identifier. */
  method SortMembers(members: seq<Subscriber>) returns (sorted: seq<Subscriber>)
    requires Distinct(members)
    ensures Ascending(Ids(sorted)) && forall x :: x in sorted <==> x in members
  {
    sorted := [];
    for n := 0 to |members|
      invariant Ascending(Ids(sorted)) && forall x :: x in sorted <==> x in members[..n]
    {
      assert members[n].clientID !in Ids(sorted) by {
        assert forall i :: 0 <= i < |sorted| ==> sorted[i] in members[..n];
      }
      assert members[..n + 1] == members[..n] + [members[n]];
      sorted := InsertMember(sorted, members[n]);
    }
    assert members[..|members|] == members;
  }

  method KeepOnline(members: seq<Subscriber>, isOnline: string -> bool) returns (online: seq<Subscriber>)
    requires Ascending(Ids(members))
    ensures Ascending(Ids(online)) && forall m :: m in online <==> m in members && isOnline(m.clientID)
  {
    online := [];
    for n := 0 to |members|
      invariant Ascending(Ids(online))
      invariant forall m :: m in online <==> m in members[..n] && isOnline(m.clientID)
    {
      assert members[..n + 1] == members[..n] + [members[n]];
      if isOnline(members[n].clientID) {
        forall i | 0 <= i < |online| ensures Less(Ids(online)[i], members[n].clientID) {
          assert online[i] in members[..n];
          var j :| 0 <= j < n && members[j] == online[i];
          assert Less(Ids(members)[j], Ids(members)[n]);
        }
        online := online + [members[n]];
      }
    }
    assert members[..|members|] == members;
  }

  // ---------------------------------------------------------------- whose turn it is

  /** The first index whose identifier is not below `last`, by bisection. */
  method Search(ids: seq<string>, last: string) returns (i: nat)
    requires Ascending(ids)
    ensures i <= |ids|
    ensures forall j :: 0 <= j < i ==> Less(ids[j], last)
    ensures forall j :: i <= j < |ids| ==> !Less(ids[j], last)
  {
    var hi;
    i, hi := 0, |ids|;
    while i < hi
      invariant 0 <= i <= hi <= |ids|
      invariant forall j :: 0 <= j < i ==> Less(ids[j], last)
      invariant forall j :: hi <= j < |ids| ==> !Less(ids[j], last)
    {
      var mid := (i + hi) / 2;
      if Less(ids[mid], last) {
        forall j | 0 <= j < mid ensures Less(ids[j], last) {
          LessTrans(ids[j], ids[mid], last);
        }
        i := mid + 1;
      } else {
        forall j | mid < j < |ids| ensures !Less(ids[j], last) {
          if Less(ids[j], last) {
            LessTrans(ids[mid], ids[j], last);
          }
        }
        hi := mid;
      }
    }
  }

  ghost function IndexOf(ids: seq<string>, c: string): (i: nat)
    ensures i <= |ids| && (i < |ids| ==> ids[i] == c) && (i == |ids| <==> c !in ids)
  {
    if ids == [] then 0 else if ids[0] == c then 0 else 1 + IndexOf(ids[1..], c)
  }

  /** The index served after `last`: the next one round the ring, or the first when `last` has gone. */
  ghost function Turn(ids: seq<string>, last: string): (i: nat)
    requires ids != []
    ensures i < |ids|
  {
    if last != "" && last in ids then After(IndexOf(ids, last), 1, |ids|) else 0
  }

  /** `k` steps round a ring of `n` places. */
  function After(i: nat, k: nat, n: nat): (j: nat)
    requires i < n && k <= n
    ensures j < n
  {
    if i + k < n then i + k else i + k - n
  }

  lemma SearchFinds(ids: seq<string>, last: string, k: nat)
    requires Ascending(ids) && last in ids && k <= |ids|
    requires forall j :: 0 <= j < k ==> Less(ids[j], last)
    requires forall j :: k <= j < |ids| ==> !Less(ids[j], last)
    ensures k == IndexOf(ids, last)
  {
    var j := IndexOf(ids, last);
    LessTotal(last, last);
    if k < j {
      AscendingAt(ids, k, j);
    }
  }

  lemma AfterIsMod(k: nat, n: nat)
    requires k < n
    ensures (k + 1) % n == After(k, 1, n)
  {
  }

  method NextTurn(ids: seq<string>, last: string) returns (i: nat)
    requires ids != [] && Ascending(ids)
    ensures i == Turn(ids, last)
  {
    i := 0;
    if last != "" {
      var k := Search(ids, last);
      if last in ids {
        SearchFinds(ids, last, k);
      }
      if k < |ids| && ids[k] == last {
        AfterIsMod(k, |ids|);
        i := (k + 1) % |ids|;
      }
    }
  }

  // ---------------------------------------------------------------- fairness

  /** `n` selections in a row over an unchanged member list. */
  ghost function Turns(ids: seq<string>, last: string, n: nat): (sel: seq<string>)
    requires ids != []
    ensures |sel| == n
    decreases n
  {
    if n == 0 then [] else var c := ids[Turn(ids, last)]; [c] + Turns(ids, c, n - 1)
  }

  lemma {:induction false} TurnsRotate(ids: seq<string>, last: string, n: nat, k: nat)
    requires ids != [] && Ascending(ids) && "" !in ids && k < n <= |ids|
    ensures Turns(ids, last, n)[k] == ids[After(Turn(ids, last), k, |ids|)]
    decreases n
  {
    var s := Turn(ids, last);
    var c := ids[s];
    if k > 0 {
      TurnsRotate(ids, c, n - 1, k - 1);
      AscendingDistinct(ids, s, IndexOf(ids, c));
    }
  }

  /** From any starting point, as many selections as there are members serve every member exactly once. */
  lemma RoundRobin(ids: seq<string>, last: string)
    requires ids != [] && Ascending(ids) && "" !in ids
    ensures multiset(Turns(ids, last, |ids|)) == multiset(ids)
  {
    var n, s := |ids|, Turn(ids, last);
    var sel := Turns(ids, last, n);
    forall k | 0 <= k < n ensures sel[k] == (ids[s..] + ids[..s])[k] {
      TurnsRotate(ids, last, n, k);
    }
    assert sel == ids[s..] + ids[..s];
    assert ids == ids[..s] + ids[s..];
  }

  lemma {:induction false} EmptyNameSticks(ids: seq<string>, n: nat)
    requires ids != [] && ids[0] == ""
    ensures forall k :: 0 <= k < n ==> Turns(ids, "", n)[k] == ""
    decreases n
  {
    if n > 0 {
      EmptyNameSticks(ids, n - 1);
    }
  }

  /** The empty name doubles as "nobody was served yet", so a group of several members is served fairly
  from every starting point exactly when no member carries it. */
  lemma FairIffNoEmptyName(ids: seq<string>)
    requires |ids| > 1 && Ascending(ids)
    ensures (forall last :: multiset(Turns(ids, last, |ids|)) == multiset(ids)) <==> "" !in ids
  {
    if "" in ids {
      var i :| 0 <= i < |ids| && ids[i] == "";
      assert i > 0 ==> Less(ids[0], ids[i]);
      EmptyNameSticks(ids, |ids|);
      assert Less(ids[0], ids[1]);
      LessTotal(ids[0], ids[1]);
      assert ids[1] in multiset(ids);
      assert ids[1] !in multiset(Turns(ids, "", |ids|));
      assert multiset(Turns(ids, "", |ids|)) != multiset(ids);
    } else {
      forall last ensures multiset(Turns(ids, last, |ids|)) == multiset(ids) {
        RoundRobin(ids, last);
      }
    }
  }

  // ---------------------------------------------------------------- a changing membership

  /** The place that comes next after `last` round the ring of names, whether `last` still has one or not. */
  ghost predicate IsNext(ids: seq<string>, last: string, k: nat)
    requires k < |ids|
  {
    if exists j :: 0 <= j < |ids| && Less(last, ids[j])
    then Less(last, ids[k]) && forall j :: 0 <= j < k ==> !Less(last, ids[j])
    else k == 0
  }

  lemma PresentIsNext(ids: seq<string>, last: string)
    requires Ascending(ids) && last in ids && last != ""
    ensures IsNext(ids, last, Turn(ids, last))
  {
    var i := IndexOf(ids, last);
    forall j | 0 <= j <= i ensures !Less(last, ids[j]) {
      LessTotal(last, ids[j]);
    }
    if i + 1 < |ids| {
      AscendingAt(ids, i, i + 1);
    }
  }

  /** When the one served last has gone, the first is served: its successor only if it stood before or behind all
  those who are left. */
  lemma AbsentIsNextIff(ids: seq<string>, last: string)
    requires ids != [] && Ascending(ids) && last !in ids
    ensures IsNext(ids, last, 0) <==> !(Less(ids[0], last) && Less(last, ids[|ids| - 1]))
  {
    HeadIsIn(ids);
    LessTotal(ids[0], last);
    forall j | 0 <= j < |ids| && Less(last, ids[j]) ensures Less(last, ids[|ids| - 1]) {
      if j < |ids| - 1 {
        LessTrans(last, ids[j], ids[|ids| - 1]);
      }
    }
  }

  /** A change of membership is to cost nobody a turn. The next in turn is served exactly when the one served last is
  still there, or was the first or the last of the ring. */
  lemma NextInTurnIff(ids: seq<string>, last: string)
    requires ids != [] && Ascending(ids) && "" !in ids
    ensures IsNext(ids, last, Turn(ids, last)) <==>
            last == "" || last in ids || !(Less(ids[0], last) && Less(last, ids[|ids| - 1]))
  {
    if last != "" && last in ids {
      PresentIsNext(ids, last);
    } else {
      HeadIsIn(ids);
      AbsentIsNextIff(ids, last);
    }
  }

  /** Whom a group serves, one online member list after the other. */
  ghost function Picks(rosters: seq<seq<string>>, last: string): (sel: seq<string>)
    requires forall i :: 0 <= i < |rosters| ==> rosters[i] != []
    ensures |sel| == |rosters|
  {
    if rosters == [] then []
    else var c := rosters[0][Turn(rosters[0], last)]; [c] + Picks(rosters[1..], c)
  }

  lemma {:induction false} SameRosterPicks(rosters: seq<seq<string>>, ids: seq<string>, last: string)
    requires ids != [] && forall i :: 0 <= i < |rosters| ==> rosters[i] == ids
    ensures Picks(rosters, last) == Turns(ids, last, |rosters|)
  {
    if rosters != [] {
      SameRosterPicks(rosters[1..], ids, ids[Turn(ids, last)]);
    }
  }

  lemma TurnOf(ids: seq<string>, i: nat, last: string)
    requires Ascending(ids) && i < |ids| && ids[i] == last && last != ""
    ensures Turn(ids, last) == After(i, 1, |ids|)
  {
    AscendingDistinct(ids, i, IndexOf(ids, last));
  }

  /** A member who comes and goes after its own turns starves the one behind it. */
  lemma {:induction false} FlappingStarves(rosters: seq<seq<string>>, a: string, b: string, c: string)
    requires a != "" && Less(a, b) && Less(b, c)
    requires forall i :: 0 <= i < |rosters| ==> rosters[i] == if i % 2 == 0 then [a, b, c] else [a, c]
    ensures c !in Picks(rosters, a)
    decreases |rosters|
  {
    LessTrans(a, b, c);
    LessTotal(a, b);
    LessTotal(b, c);
    if rosters != [] {
      TurnOf([a, b, c], 0, a);
      assert Picks(rosters, a) == [b] + Picks(rosters[1..], b);
      if |rosters| > 1 {
        assert rosters[1..][0] == [a, c] && b !in [a, c];
        assert rosters[1..][1..] == rosters[2..];
        assert Picks(rosters[1..], b) == [a] + Picks(rosters[2..], a);
        FlappingStarves(rosters[2..], a, b, c);
      }
    }
  }

  /** A group has one turn for all its filters: topics that take turns starve a member of one of them. */
  lemma {:induction false} OtherTopicStarves(rosters: seq<seq<string>>, a: string, b: string, c: string, last: string)
    requires Less(a, b) && Less(b, c) && last != a && last != b
    requires forall i :: 0 <= i < |rosters| ==> rosters[i] == if i % 2 == 0 then [a, b] else [c]
    ensures b !in Picks(rosters, last)
    decreases |rosters|
  {
    LessTrans(a, b, c);
    LessTotal(a, b);
    LessTotal(b, c);
    LessTotal(a, c);
    if rosters != [] {
      assert last !in [a, b];
      assert Picks(rosters, last) == [a] + Picks(rosters[1..], a);
      if |rosters| > 1 {
        assert rosters[1..][0] == [c] && a !in [c];
        assert rosters[1..][1..] == rosters[2..];
        assert Picks(rosters[1..], a) == [c] + Picks(rosters[2..], c);
        OtherTopicStarves(rosters[2..], a, b, c, c);
      }
    }
  }

  // ---------------------------------------------------------------- one group, one topic

  /** The online members a topic reaches, in the order in which they take turns. */
  ghost predicate IsRoster(ids: seq<string>, hits: Hits, isOnline: string -> bool) {
    && Ascending(ids)
    && (forall c :: c in ids ==> isOnline(c) && exists q :: (c, q) in hits)
    && (forall h :: h in hits && isOnline(h.0) ==> h.0 in ids)
  }

  lemma RosterUnique(a: seq<string>, b: seq<string>, hits: Hits, isOnline: string -> bool)
    requires IsRoster(a, hits, isOnline) && IsRoster(b, hits, isOnline)
    ensures a == b
  {
    forall x ensures x in a <==> x in b {
      if x in a {
        var q :| (x, q) in hits;
      }
      if x in b {
        var q :| (x, q) in hits;
      }
    }
    AscendingUnique(a, b);
  }

  /** The client holds this QoS, and no higher one, among the hits. */
  ghost predicate IsTop(m: Subscriber, hits: Hits) {
    (m.clientID, m.qos) in hits && forall h :: h in hits && h.0 == m.clientID ==> h.1 <= m.qos
  }

  lemma SyncTop(members: seq<Subscriber>, seen: Subs, hits: Hits, m: Subscriber)
    requires Sync(members, seen) && Joined(map[], hits, seen) && m in members
    ensures IsTop(m, hits)
  {
  }

  lemma MembersAreRoster(members: seq<Subscriber>, seen: Subs, hits: Hits, isOnline: string -> bool,
                         online: seq<Subscriber>)
    requires Sync(members, seen) && Joined(map[], hits, seen)
    requires Ascending(Ids(online)) && forall m :: m in online <==> m in members && isOnline(m.clientID)
    ensures IsRoster(Ids(online), hits, isOnline)
  {
  }

  /** At most one member is served, and it is the one whose turn it is. */
  method MatchGroup(filters: map<string, Subs>, topic: string, isOnline: string -> bool, last: string)
    returns (sel: Option<Subscriber>, roster: seq<string>)
    ensures IsRoster(roster, Offered(filters, topic), isOnline)
    ensures sel.None? <==> roster == []
    ensures sel.Some? ==> IsTop(sel.value, Offered(filters, topic)) && sel.value.clientID == roster[Turn(roster, last)]
  {
    var members, seen := GatherMembers(filters, topic);
    var sorted := SortMembers(members);
    var online := KeepOnline(sorted, isOnline);
    roster := Ids(online);
    MembersAreRoster(members, seen, Offered(filters, topic), isOnline, online);
    if |online| == 0 {
      return None, roster;
    }
    var k := NextTurn(Ids(online), last);
    SyncTop(members, seen, Offered(filters, topic), online[k]);
    sel := Some(online[k]);
  }
}
