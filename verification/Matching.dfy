/** What one session makes of a topic. */
module Matching {
  import opened Basics
  import opened SharedGroups
  import opened Strings
  import opened Topics

  datatype SubOptions = SubOptions(noLocal: bool, retainAsPublished: bool, retainHandling: nat, identifier: Option<nat>)

  datatype Session = Session(subscriptions: map<string, nat>, subOptions: map<string, SubOptions>)

  /** What a session answers for a topic: matched, QoS, options of the winning filter, identifiers of all matches. */
  datatype Outcome = Outcome(matched: bool, qos: nat, opts: SubOptions, ids: seq<nat>)

  const NO_OPTIONS := SubOptions(false, false, 0, None)

  function OptionsOf(s: Session, pattern: string): SubOptions {
    if pattern in s.subOptions then s.subOptions[pattern] else NO_OPTIONS
  }

  // ---------------------------------------------------------------- shared filters

  const SHARE_PREFIX := "$share/"

  predicate IsShared(filter: string) {
    |filter| > |SHARE_PREFIX| && filter[..|SHARE_PREFIX|] == SHARE_PREFIX
  }

  /** The index of the first '/', or the length. */
  function SlashIndex(s: string): (i: nat)
    ensures i <= |s| && '/' !in s[..i] && (i < |s| ==> s[i] == '/')
  {
    if s == "" || s[0] == '/' then 0 else 1 + SlashIndex(s[1..])
  }

  /** The filter a pattern matches with: itself, or what follows the share name. */
  function RealPattern(pattern: string): Option<string> {
    if !IsShared(pattern) then Some(pattern)
    else
      var rest := pattern[|SHARE_PREFIX|..];
      var i := SlashIndex(rest);
      if i == 0 || i >= |rest| - 1 then None else Some(rest[i + 1..])
  }

  function ShareName(pattern: string): string
    requires IsShared(pattern)
  {
    var rest := pattern[|SHARE_PREFIX|..];
    rest[..SlashIndex(rest)]
  }

  /** A shared filter is its prefix, its share name and its real filter, so no two are parsed alike. */
  lemma SharedForm(pattern: string)
    requires IsShared(pattern) && RealPattern(pattern).Some?
    ensures pattern == SHARE_PREFIX + ShareName(pattern) + "/" + RealPattern(pattern).value
  {
    var rest := pattern[|SHARE_PREFIX|..];
    var i := SlashIndex(rest);
    assert rest == rest[..i] + [rest[i]] + rest[i + 1..];
  }

  lemma {:induction false} SlashAfter(name: string, rest: string)
    requires forall i :: 0 <= i < |name| ==> name[i] != '/'
    ensures SlashIndex(name + "/" + rest) == |name|
  {
    var s := name + "/" + rest;
    if name != "" {
      SlashAfter(name[1..], rest);
      assert s[1..] == name[1..] + "/" + rest;
    }
  }

  lemma SharedParts(name: string, filter: string)
    requires name != "" && filter != "" && forall i :: 0 <= i < |name| ==> name[i] != '/'
    ensures var pattern := SHARE_PREFIX + name + "/" + filter;
            IsShared(pattern) && ShareName(pattern) == name && RealPattern(pattern) == Some(filter)
  {
    var pattern := SHARE_PREFIX + name + "/" + filter;
    var rest := pattern[|SHARE_PREFIX|..];
    SlashAfter(name, filter);
    assert rest == name + "/" + filter && rest[..|name|] == name && rest[|name| + 1..] == filter;
  }

  // ---------------------------------------------------------------- the session filter

  predicate IsHit(pattern: string, topic: string, sysProtect: bool) {
    var filter := RealPattern(pattern);
    filter.Some? && Match(Split(filter.value), Split(topic)) && (sysProtect ==> FilterMatches(filter.value, topic))
  }

  ghost function HitsOf(s: Session, topic: string, sysProtect: bool): set<string> {
    set p | p in s.subscriptions && IsHit(p, topic, sysProtect)
  }

  /** Higher QoS wins, and among equals the filter that comes first. */
  predicate Beats(s: Session, p: string, r: string)
    requires p in s.subscriptions && r in s.subscriptions
  {
    s.subscriptions[r] < s.subscriptions[p] || (s.subscriptions[r] == s.subscriptions[p] && Less(p, r))
  }

  ghost predicate IsBest(s: Session, hits: set<string>, p: string)
    requires hits <= s.subscriptions.Keys
  {
    p in hits && forall r :: r in hits && r != p ==> Beats(s, p, r)
  }

  ghost predicate Carries(s: Session, hits: set<string>, id: nat) {
    exists p :: p in hits && OptionsOf(s, p).identifier == Some(id)
  }

  ghost predicate Increasing(ids: seq<nat>) {
    forall i, j :: 0 <= i < j < |ids| ==> ids[i] < ids[j]
  }

  /** The answer, said without reference to the order in which filters are visited. */
  ghost predicate Answers(s: Session, hits: set<string>, o: Outcome)
    requires hits <= s.subscriptions.Keys
  {
    && (o.matched <==> hits != {})
    && (if o.matched then exists p :: IsBest(s, hits, p) && o.qos == s.subscriptions[p] && o.opts == OptionsOf(s, p)
        else o.qos == 0 && o.opts == NO_OPTIONS)
    && Increasing(o.ids)
    && (forall id :: id in o.ids <==> Carries(s, hits, id))
  }

  lemma BestUnique(s: Session, hits: set<string>, p: string, r: string)
    requires hits <= s.subscriptions.Keys && IsBest(s, hits, p) && IsBest(s, hits, r)
    ensures p == r
  {
    LessTotal(p, r);
  }

  lemma FrontOfIncreasing(a: seq<nat>, x: nat)
    requires Increasing(a) && a != []
    ensures x in a ==> x <= a[|a| - 1]
    ensures x in a[..|a| - 1] <==> x in a && x != a[|a| - 1]
  {
  }

  lemma {:induction false} IncreasingUnique(a: seq<nat>, b: seq<nat>)
    requires Increasing(a) && Increasing(b) && forall x: nat :: x in a <==> x in b
    ensures a == b
    decreases |a|
  {
    if a == [] {
      if b != [] {
        FrontOfIncreasing(b, b[0]);
      }
    } else if b == [] {
      FrontOfIncreasing(a, a[0]);
    } else {
      var n, m := |a| - 1, |b| - 1;
      assert a[n] in a && b[m] in b;
      FrontOfIncreasing(a, b[m]);
      FrontOfIncreasing(b, a[n]);
      forall x: nat ensures x in a[..n] <==> x in b[..m] {
        FrontOfIncreasing(a, x);
        FrontOfIncreasing(b, x);
      }
      IncreasingUnique(a[..n], b[..m]);
      assert a == a[..n] + [a[n]] && b == b[..m] + [b[m]];
    }
  }

  /** There is one right answer, so it cannot depend on map iteration order. */
  lemma AnswerUnique(s: Session, hits: set<string>, o: Outcome, o': Outcome)
    requires hits <= s.subscriptions.Keys && Answers(s, hits, o) && Answers(s, hits, o')
    ensures o == o'
  {
    if o.matched {
      var p :| IsBest(s, hits, p) && o.qos == s.subscriptions[p] && o.opts == OptionsOf(s, p);
      var r :| IsBest(s, hits, r) && o'.qos == s.subscriptions[r] && o'.opts == OptionsOf(s, r);
      BestUnique(s, hits, p, r);
    }
    IncreasingUnique(o.ids, o'.ids);
  }

  // ---------------------------------------------------------------- sorting the identifiers

  ghost predicate Ordered(ids: seq<nat>) {
    forall i, j :: 0 <= i < j < |ids| ==> ids[i] <= ids[j]
  }

  /** The library sort. */
  method SortIds(ids: seq<nat>) returns (sorted: seq<nat>)
    ensures Ordered(sorted) && forall x :: x in sorted <==> x in ids
  {
    sorted := [];
    for n := 0 to |ids|
      invariant Ordered(sorted) && forall x :: x in sorted <==> x in ids[..n]
    {
      var k := 0;
      while k < |sorted| && sorted[k] < ids[n]
        invariant 0 <= k <= |sorted| && forall i :: 0 <= i < k ==> sorted[i] < ids[n]
      {
        k := k + 1;
      }
      assert ids[..n + 1] == ids[..n] + [ids[n]] && sorted == sorted[..k] + sorted[k..];
      sorted := sorted[..k] + [ids[n]] + sorted[k..];
    }
    assert ids[..|ids|] == ids;
  }

  /** Drop adjacent repeats. */
  method Compact(sorted: seq<nat>) returns (ids: seq<nat>)
    requires Ordered(sorted)
    ensures Increasing(ids) && forall x :: x in ids <==> x in sorted
  {
    ids := [];
    for n := 0 to |sorted|
      invariant Increasing(ids) && forall x :: x in ids <==> x in sorted[..n]
      invariant if n == 0 then ids == [] else ids != [] && ids[|ids| - 1] == sorted[n - 1]
    {
      assert sorted[..n + 1] == sorted[..n] + [sorted[n]];
      if n == 0 || sorted[n] != sorted[n - 1] {
        assert forall i :: 0 <= i < |ids| ==> ids[i] <= ids[|ids| - 1];
        ids := ids + [sorted[n]];
      }
    }
    assert sorted[..|sorted|] == sorted;
  }

  // ---------------------------------------------------------------- the loop

  method Parse(pattern: string, topic: string, sysProtect: bool) returns (hit: bool)
    ensures hit == IsHit(pattern, topic, sysProtect)
  {
    var filter := RealPattern(pattern);
    if filter.None? {
      return false;
    }
    if sysProtect {
      var allowed := MatchSysProtected(filter.value, topic);
      if !allowed {
        return false;
      }
    }
    hit := MatchTopic(filter.value, topic);
  }

  lemma BestStep(s: Session, hits: set<string>, best: string, p: string)
    requires p !in hits && hits + {p} <= s.subscriptions.Keys && hits != {} && IsBest(s, hits, best)
    ensures IsBest(s, hits + {p}, if Beats(s, p, best) then p else best)
  {
    LessTotal(p, best);
    if Beats(s, p, best) {
      forall r | r in hits ensures Beats(s, p, r) {
        if r != best && s.subscriptions[r] == s.subscriptions[p] {
          LessTrans(p, best, r);
        }
      }
    }
  }

  method MatchSubscriptions(s: Session, topic: string, sysProtect: bool) returns (o: Outcome)
    ensures Answers(s, HitsOf(s, topic, sysProtect), o)
  {
    var matched, bestQoS, bestOpts, bestPattern, identifiers := false, 0, NO_OPTIONS, "", [];
    var keys := s.subscriptions.Keys;
    ghost var hits: set<string> := {};
    while keys != {}
      invariant keys <= s.subscriptions.Keys && hits == HitsOf(s, topic, sysProtect) - keys
      invariant matched <==> hits != {}
      invariant !matched ==> bestQoS == 0 && bestOpts == NO_OPTIONS
      invariant matched ==> IsBest(s, hits, bestPattern)
      invariant matched ==> bestQoS == s.subscriptions[bestPattern] && bestOpts == OptionsOf(s, bestPattern)
      invariant forall id :: id in identifiers <==> Carries(s, hits, id)
    {
      var pattern :| pattern in keys;
      keys := keys - {pattern};
      var hit := Parse(pattern, topic, sysProtect);
      if hit {
        var qos, opts := s.subscriptions[pattern], OptionsOf(s, pattern);
        if matched {
          BestStep(s, hits, bestPattern, pattern);
        }
        CarriesStep(s, hits, pattern);
        if !matched || qos > bestQoS || (qos == bestQoS && Less(pattern, bestPattern)) {
          bestQoS, bestOpts, bestPattern := qos, opts, pattern;
        }
        if opts.identifier.Some? {
          identifiers := identifiers + [opts.identifier.value];
        }
        matched := true;
        hits := hits + {pattern};
      }
    }
    if |identifiers| > 1 {
      identifiers := SortIds(identifiers);
      identifiers := Compact(identifiers);
    }
    o := Outcome(matched, bestQoS, bestOpts, identifiers);
  }

  lemma CarriesStep(s: Session, hits: set<string>, p: string)
    ensures forall id: nat :: Carries(s, hits + {p}, id) <==>
        Carries(s, hits, id) || OptionsOf(s, p).identifier == Some(id)
  {
  }

  // ---------------------------------------------------------------- the publisher's own copy

  ghost predicate LocalAllowed(s: Session, topic: string) {
    (exists p :: p in s.subscriptions && Match(Split(p), Split(topic))) ==>
      exists p :: p in s.subscriptions && Match(Split(p), Split(topic)) && !OptionsOf(s, p).noLocal
  }

  method AllowsLocalPublish(s: Session, topic: string) returns (ok: bool)
    ensures ok <==> LocalAllowed(s, topic)
  {
    var matched, keys := false, s.subscriptions.Keys;
    while keys != {}
      invariant keys <= s.subscriptions.Keys
      invariant matched <==> exists p :: p in s.subscriptions && p !in keys && Match(Split(p), Split(topic))
      invariant forall p :: p in s.subscriptions && p !in keys && Match(Split(p), Split(topic)) ==>
          OptionsOf(s, p).noLocal
    {
      var pattern :| pattern in keys;
      keys := keys - {pattern};
      var hit := MatchTopic(pattern, topic);
      if hit {
        matched := true;
        if pattern !in s.subOptions || !s.subOptions[pattern].noLocal {
          return true;
        }
      }
    }
    return !matched;
  }
}
