/** Live routing of one publish: the trie proposes clients, each session decides. */
module Routing {
  import opened Basics
  import opened Matching
  import opened SharedGroups
  import opened Subscribing
  import opened Strings
  import opened SubscriptionTrie
  import opened Topics
  import opened TopicTrees

  datatype Publish = Publish(source: string, topic: string, qos: nat)

  datatype Effect =
    | Deliver(client: string, qos: nat, opts: SubOptions, ids: seq<nat>)
    | QueueOffline(client: string)

  function Min(a: nat, b: nat): nat {
    if a < b then a else b
  }

  /** The session lets the publish through: a filter matches, and the publisher's own copy is wanted. */
  ghost predicate Admits(s: Session, client: string, p: Publish) {
    HitsOf(s, p.topic, false) != {} && (p.source != "" && client == p.source ==> LocalAllowed(s, p.topic))
  }

  ghost predicate IsDelivery(s: Session, client: string, p: Publish, e: Effect) {
    exists o :: Answers(s, HitsOf(s, p.topic, false), o) && o.matched &&
        e == Deliver(client, Min(p.qos, o.qos), o.opts, o.ids)
  }

  /** What a proposed client comes to. */
  ghost predicate IsEffect(sessions: Sessions, client: string, p: Publish, e: Option<Effect>) {
    if client !in sessions then e == Some(QueueOffline(client))
    else if Admits(sessions[client], client, p) then e.Some? && IsDelivery(sessions[client], client, p, e.value)
    else e == None
  }

  method DeliverToClient(sessions: Sessions, clientID: string, p: Publish) returns (e: Option<Effect>)
    ensures IsEffect(sessions, clientID, p, e)
  {
    if clientID !in sessions {
      return Some(QueueOffline(clientID));
    }
    var s := sessions[clientID];
    if p.source != "" && clientID == p.source {
      var local := AllowsLocalPublish(s, p.topic);
      if !local {
        return None;
      }
    }
    var o := MatchSubscriptions(s, p.topic, false);
    if !o.matched {
      return None;
    }
    e := Some(Deliver(clientID, Min(p.qos, o.qos), o.opts, o.ids));
  }

  ghost predicate Proposed(results: seq<Subscriber>, client: string) {
    exists i :: 0 <= i < |results| && results[i].clientID == client
  }

  /** One effect per proposed client that comes to something, and no other. */
  ghost predicate Routed(sessions: Sessions, p: Publish, results: seq<Subscriber>, log: seq<Effect>) {
    && (forall i, j :: 0 <= i < j < |log| ==> log[i].client != log[j].client)
    && (forall e :: e in log ==> Proposed(results, e.client) && IsEffect(sessions, e.client, p, Some(e)))
    && (forall c :: Proposed(results, c) ==> IsEffect(sessions, c, p, None) || Logged(log, c))
  }

  ghost predicate Logged(log: seq<Effect>, client: string) {
    exists e :: e in log && e.client == client
  }

  lemma RoutedStep(sessions: Sessions, p: Publish, results: seq<Subscriber>, log: seq<Effect>, r: Subscriber,
                   e: Option<Effect>)
    requires Routed(sessions, p, results, log) && !Proposed(results, r.clientID) && IsEffect(sessions, r.clientID, p, e)
    ensures Routed(sessions, p, results + [r], if e.Some? then log + [e.value] else log)
  {
    var rs, log' := results + [r], if e.Some? then log + [e.value] else log;
    assert rs[|results|].clientID == r.clientID;
    forall c | Proposed(results, c) ensures Proposed(rs, c) {
      var i :| 0 <= i < |results| && results[i].clientID == c;
      assert rs[i].clientID == c;
    }
    forall c | Proposed(rs, c) ensures c == r.clientID || Proposed(results, c) {
      var i :| 0 <= i < |rs| && rs[i].clientID == c;
      assert i < |results| ==> results[i].clientID == c;
    }
    forall c | Proposed(rs, c) ensures IsEffect(sessions, c, p, None) || Logged(log', c) {
      if c == r.clientID {
        assert e.Some? ==> e.value in log';
      } else if Logged(log, c) {
        var x :| x in log && x.client == c;
        assert x in log';
      }
    }
    forall i, j | 0 <= i < j < |log'| ensures log'[i].client != log'[j].client {
      assert log[i] in log;
    }
  }

  lemma NotYetProposed(subscribers: seq<Subscriber>, n: nat)
    requires Distinct(subscribers) && n < |subscribers|
    ensures !Proposed(subscribers[..n], subscribers[n].clientID)
  {
  }

  lemma RoutedNext(sessions: Sessions, p: Publish, subscribers: seq<Subscriber>, n: nat, log: seq<Effect>,
                   e: Option<Effect>)
    requires Distinct(subscribers) && n < |subscribers| && Routed(sessions, p, subscribers[..n], log)
    requires IsEffect(sessions, subscribers[n].clientID, p, e)
    ensures Routed(sessions, p, subscribers[..n + 1], if e.Some? then log + [e.value] else log)
  {
    NotYetProposed(subscribers, n);
    OneMore(subscribers, n);
    RoutedStep(sessions, p, subscribers[..n], log, subscribers[n], e);
  }

  lemma OneMore(subscribers: seq<Subscriber>, n: nat)
    requires n < |subscribers|
    ensures subscribers[..n + 1] == subscribers[..n] + [subscribers[n]]
  {
  }

  lemma RoutedNone(sessions: Sessions, p: Publish)
    ensures Routed(sessions, p, [], [])
  {
  }

  method DeliverAll(sessions: Sessions, p: Publish, subscribers: seq<Subscriber>) returns (log: seq<Effect>)
    requires Distinct(subscribers)
    ensures Routed(sessions, p, subscribers, log)
  {
    log := [];
    assert subscribers[..0] == [];
    RoutedNone(sessions, p);
    for n := 0 to |subscribers|
      invariant Routed(sessions, p, subscribers[..n], log)
    {
      var e := DeliverToClient(sessions, subscribers[n].clientID, p);
      RoutedNext(sessions, p, subscribers, n, log, e);
      log := if e.Some? then log + [e.value] else log;
    }
    assert subscribers[..|subscribers|] == subscribers;
  }

  /** A publish is routed over the rows of the tree. */
  ghost predicate Routes(table: Table, sessions: Sessions, p: Publish, log: seq<Effect>) {
    exists results :: Selected(results, Subscribed(table, p.topic)) && Routed(sessions, p, results, log)
  }

  method RoutePublish(topics: TopicTree, sessions: Sessions, p: Publish) returns (log: seq<Effect>)
    requires topics.PlainValid()
    ensures Routes(topics.table, sessions, p, log)
  {
    var subscribers := topics.MatchTopicTree(p.topic);
    log := DeliverAll(sessions, p, subscribers);
  }

  // ---------------------------------------------------------------- whom a publish reaches

  /** The client has a filter in the trie that the topic reaches, at its end or on the way. */
  ghost predicate SomeRow(table: Table, c: string, topic: string) {
    exists f :: (f, c) in table && FilterReaches(f, topic)
  }

  lemma ProposedIff(table: Table, topic: string, results: seq<Subscriber>, c: string)
    requires Selected(results, Subscribed(table, topic))
    ensures Proposed(results, c) <==> SomeRow(table, c, topic)
  {
    if Proposed(results, c) {
      var i :| 0 <= i < |results| && results[i].clientID == c;
      assert IsSubscribed(table, topic, (c, results[i].qos));
    }
    if SomeRow(table, c, topic) {
      var f :| (f, c) in table && FilterReaches(f, topic);
      assert IsSubscribed(table, topic, (c, table[(f, c)]));
      assert (c, table[(f, c)]) in Subscribed(table, topic);
    }
  }

  /** For every topic and every client: one that is away is queued for, one that is here decides by its session. */
  lemma DeliveredIff(table: Table, sessions: Sessions, p: Publish, log: seq<Effect>, c: string)
    requires Routes(table, sessions, p, log)
    ensures c in sessions ==> (Logged(log, c) <==> SomeRow(table, c, p.topic) && Admits(sessions[c], c, p))
    ensures c !in sessions ==> (Logged(log, c) <==> SomeRow(table, c, p.topic))
    ensures QueueOffline(c) in log <==> c !in sessions && SomeRow(table, c, p.topic)
  {
    var results :| Selected(results, Subscribed(table, p.topic)) && Routed(sessions, p, results, log);
    ProposedIff(table, p.topic, results, c);
    if Logged(log, c) {
      var e :| e in log && e.client == c;
      assert c !in sessions ==> e == QueueOffline(c);
    }
    assert QueueOffline(c) in log ==> IsEffect(sessions, c, p, Some(QueueOffline(c)));
  }

  lemma NoRow(rows: Rows, c: string, topic: string)
    requires PlainKeys(rows.plain) && forall f :: RowOf(rows, c, f) == None
    ensures !SomeRow(rows.plain, c, topic)
  {
    forall f ensures (f, c) !in rows.plain {
      assert RowOf(rows, c, f) == None;
    }
  }

  /** The publishes a client is queued for after it has gone: those its session would have had a row for. */
  lemma QueuedAfterClose(v: View, v': View, c: string, expiry: nat, storeUp: bool, p: Publish, log: seq<Effect>)
    requires c in v.sessions && Closed(v, v', c, expiry, storeUp) && Routes(v'.rows.plain, v'.sessions, p, log)
    requires PlainKeys(v'.rows.plain) && InStep(v.rows, c, v.sessions[c])
    ensures QueueOffline(c) in log <==> expiry > 0 && SomeRow(v.rows.plain, c, p.topic)
  {
    DeliveredIff(v'.rows.plain, v'.sessions, p, log, c);
    if expiry == 0 {
      NoRow(v'.rows, c, p.topic);
    }
  }

  // ---------------------------------------------------------------- what a session is due

  ghost predicate PlainOnly(s: Session) {
    forall f :: f in s.subscriptions ==> !IsShared(f)
  }

  ghost predicate Holds(s: Session, f: string, topic: string) {
    f in s.subscriptions && !IsShared(f) && Match(Split(f), Split(topic))
  }

  ghost predicate SomeMatch(s: Session, topic: string) {
    exists f :: Holds(s, f, topic)
  }

  /** The real filter of a shared subscription matches. */
  ghost predicate SomeShared(s: Session, topic: string) {
    exists f :: f in s.subscriptions && IsShared(f) && IsHit(f, topic, false)
  }

  /** The publisher's own copy is wanted when some matching filter leaves No Local clear. */
  ghost predicate Wanted(s: Session, client: string, p: Publish) {
    p.source != "" && client == p.source ==> exists f :: Holds(s, f, p.topic) && !OptionsOf(s, f).noLocal
  }

  lemma HitsExist(s: Session, topic: string)
    ensures HitsOf(s, topic, false) != {} <==> SomeMatch(s, topic) || SomeShared(s, topic)
  {
    if HitsOf(s, topic, false) != {} {
      var f :| f in HitsOf(s, topic, false);
      assert !IsShared(f) ==> Holds(s, f, topic);
    }
    if SomeMatch(s, topic) {
      var f :| Holds(s, f, topic);
      assert f in HitsOf(s, topic, false);
    }
    if SomeShared(s, topic) {
      var f :| f in s.subscriptions && IsShared(f) && IsHit(f, topic, false);
      assert f in HitsOf(s, topic, false);
    }
  }

  lemma SharedStart(f: string)
    requires IsShared(f)
    ensures Split(f)[0] == "$share"
  {
    var rest := f[|SHARE_PREFIX|..];
    assert f == SHARE_PREFIX + rest && SHARE_PREFIX + rest == "$share" + "/" + rest;
    SplitFirst("$share", rest);
  }

  /** The No Local test compares filters as written; as written, a shared filter matches only topics below "$share". */
  lemma LocalIff(s: Session, client: string, p: Publish)
    requires Split(p.topic)[0] != "$share"
    ensures (p.source != "" && client == p.source ==> LocalAllowed(s, p.topic)) <==>
            (SomeMatch(s, p.topic) ==> Wanted(s, client, p))
  {
    forall f | f in s.subscriptions && Match(Split(f), Split(p.topic)) ensures Holds(s, f, p.topic) {
      if IsShared(f) {
        SharedStart(f);
      }
    }
    if SomeMatch(s, p.topic) {
      var f :| Holds(s, f, p.topic);
      assert f in s.subscriptions && Match(Split(f), Split(p.topic));
    }
    if g :| Holds(s, g, p.topic) && !OptionsOf(s, g).noLocal {
      assert g in s.subscriptions && Match(Split(g), Split(p.topic)) && !OptionsOf(s, g).noLocal;
    }
  }

  lemma MatchHasRow(rows: Rows, c: string, s: Session, topic: string)
    requires Covers(rows, c, s) && !Dollar(Split(topic)[0]) && SomeMatch(s, topic)
    ensures SomeRow(rows.plain, c, topic)
  {
    var f :| Holds(s, f, topic);
    MatchReaches(Split(f), Split(topic));
    assert RowOf(rows, c, f).Some?;
    assert (f, c) in rows.plain && FilterReaches(f, topic);
  }

  /** The QoS delivered: the publish's own, capped by the highest granted to a matching filter, shared or not. */
  ghost predicate CappedQoS(s: Session, p: Publish, qos: nat) {
    exists f :: && f in s.subscriptions && IsHit(f, p.topic, false)
                && qos <= p.qos && qos <= s.subscriptions[f] && (qos == p.qos || qos == s.subscriptions[f])
                && forall g :: g in s.subscriptions && IsHit(g, p.topic, false) ==>
                    s.subscriptions[g] <= s.subscriptions[f]
  }

  /** Of the filters that match, this one has the highest QoS, and among equals comes first in byte order. */
  ghost predicate Wins(s: Session, topic: string, f: string) {
    && f in s.subscriptions && IsHit(f, topic, false)
    && forall g :: g in s.subscriptions && IsHit(g, topic, false) && g != f ==>
        s.subscriptions[g] < s.subscriptions[f] || (s.subscriptions[g] == s.subscriptions[f] && Less(f, g))
  }

  /** The options are those of the winning filter; the identifiers those of every filter that matches, each once. */
  ghost predicate Labelled(s: Session, topic: string, opts: SubOptions, ids: seq<nat>) {
    && (exists f :: Wins(s, topic, f) && opts == if f in s.subOptions then s.subOptions[f] else NO_OPTIONS)
    && (forall i, j :: 0 <= i < j < |ids| ==> ids[i] < ids[j])
    && (forall id: nat :: id in ids <==> Identified(s, topic, id))
  }

  ghost predicate Identified(s: Session, topic: string, id: nat) {
    exists f :: && f in s.subscriptions && IsHit(f, topic, false)
                && f in s.subOptions && s.subOptions[f].identifier == Some(id)
  }

  lemma BestWins(s: Session, topic: string, f: string)
    requires IsBest(s, HitsOf(s, topic, false), f)
    ensures Wins(s, topic, f)
  {
    var hits := HitsOf(s, topic, false);
    forall g | g in s.subscriptions && IsHit(g, topic, false) && g != f
      ensures s.subscriptions[g] < s.subscriptions[f] || (s.subscriptions[g] == s.subscriptions[f] && Less(f, g))
    {
      assert g in hits && Beats(s, f, g);
    }
  }

  lemma CarriedIffIdentified(s: Session, topic: string, id: nat)
    ensures Carries(s, HitsOf(s, topic, false), id) <==> Identified(s, topic, id)
  {
    if Identified(s, topic, id) {
      var f :| && f in s.subscriptions && IsHit(f, topic, false)
               && f in s.subOptions && s.subOptions[f].identifier == Some(id);
      assert f in HitsOf(s, topic, false) && OptionsOf(s, f).identifier == Some(id);
    }
  }

  lemma DeliveryLabelled(s: Session, client: string, p: Publish, e: Effect)
    requires IsDelivery(s, client, p, e)
    ensures e.Deliver? && e.client == client && Labelled(s, p.topic, e.opts, e.ids)
  {
    var hits := HitsOf(s, p.topic, false);
    var o :| Answers(s, hits, o) && o.matched && e == Deliver(client, Min(p.qos, o.qos), o.opts, o.ids);
    var f :| IsBest(s, hits, f) && o.qos == s.subscriptions[f] && o.opts == OptionsOf(s, f);
    BestWins(s, p.topic, f);
    forall id: nat ensures id in e.ids <==> Identified(s, p.topic, id) {
      CarriedIffIdentified(s, p.topic, id);
    }
  }

  lemma DeliveryQoS(s: Session, client: string, p: Publish, e: Effect)
    requires IsDelivery(s, client, p, e)
    ensures e.Deliver? && CappedQoS(s, p, e.qos)
  {
    var hits := HitsOf(s, p.topic, false);
    var o :| Answers(s, hits, o) && o.matched && e == Deliver(client, Min(p.qos, o.qos), o.opts, o.ids);
    var f :| IsBest(s, hits, f) && o.qos == s.subscriptions[f] && o.opts == OptionsOf(s, f);
    forall g | g in s.subscriptions && IsHit(g, p.topic, false) ensures s.subscriptions[g] <= s.subscriptions[f] {
      assert g in hits;
    }
  }

  /** A client is due a plain copy when one of its plain filters matches, the publisher only if one of these wants it.
  For an ordinary topic this is who gets one, except a client no plain filter of which matches, with a shared filter
  that does and a row of the trie on the way to the topic. */
  lemma DeliveryExactIff(rows: Rows, sessions: Sessions, p: Publish, log: seq<Effect>, c: string)
    requires AllCovered(rows, sessions) && Routes(rows.plain, sessions, p, log) && c in sessions
    requires !Dollar(Split(p.topic)[0])
    ensures (Logged(log, c) <==> SomeMatch(sessions[c], p.topic) && Wanted(sessions[c], c, p)) <==>
            !(!SomeMatch(sessions[c], p.topic) && SomeShared(sessions[c], p.topic) && SomeRow(rows.plain, c, p.topic))
  {
    DeliveredIff(rows.plain, sessions, p, log, c);
    HitsExist(sessions[c], p.topic);
    LocalIff(sessions[c], c, p);
    if SomeMatch(sessions[c], p.topic) {
      MatchHasRow(rows, c, sessions[c], p.topic);
    }
  }

  /** So for an ordinary topic a client with plain filters gets exactly what it is due, whatever other clients hold;
  nobody gets two copies; and every copy goes out at the capped QoS, with the options and identifiers it is due. */
  lemma DeliveryExact(rows: Rows, sessions: Sessions, p: Publish, log: seq<Effect>)
    requires AllCovered(rows, sessions) && Routes(rows.plain, sessions, p, log) && !Dollar(Split(p.topic)[0])
    ensures forall c :: c in sessions && PlainOnly(sessions[c]) ==>
              (Logged(log, c) <==> SomeMatch(sessions[c], p.topic) && Wanted(sessions[c], c, p))
    ensures forall c :: QueueOffline(c) in log <==> c !in sessions && SomeRow(rows.plain, c, p.topic)
    ensures forall i, j :: 0 <= i < j < |log| ==> log[i].client != log[j].client
    ensures forall e :: e in log && e.client in sessions ==> e.Deliver? && CappedQoS(sessions[e.client], p, e.qos)
    ensures forall e :: e in log && e.client in sessions ==>
              e.Deliver? && Labelled(sessions[e.client], p.topic, e.opts, e.ids)
  {
    forall c ensures QueueOffline(c) in log <==> c !in sessions && SomeRow(rows.plain, c, p.topic) {
      DeliveredIff(rows.plain, sessions, p, log, c);
    }
    forall c | c in sessions && PlainOnly(sessions[c])
      ensures Logged(log, c) <==> SomeMatch(sessions[c], p.topic) && Wanted(sessions[c], c, p)
    {
      DeliveryExactIff(rows, sessions, p, log, c);
    }
    forall e | e in log && e.client in sessions
      ensures e.Deliver? && Labelled(sessions[e.client], p.topic, e.opts, e.ids)
    {
      DeliveryLabelled(sessions[e.client], e.client, p, e);
    }
    forall e | e in log && e.client in sessions ensures e.Deliver? && CappedQoS(sessions[e.client], p, e.qos) {
      DeliveryQoS(sessions[e.client], e.client, p, e);
    }
  }

  // ---------------------------------------------------------------- a copy too many

  /** A level that may stand in a topic of two levels. */
  ghost predicate IsLevel(a: string) {
    SlashFree(a) && a != "" && a != "+" && a != "#"
  }

  lemma TwoLevels(a: string, b: string)
    requires IsLevel(a) && SlashFree(b)
    ensures Split(a) == [a] && Split(a + "/" + b) == [a, b]
    ensures Reaches(Split(a), Split(a + "/" + b), !Dollar(a)) && !Match(Split(a), Split(a + "/" + b))
  {
    SplitSlashFree(a);
    SplitAppendLevel(a, b);
    assert [a, b][1..] == [b] && [a][1..] == [];
  }

  lemma MatchSelf(levels: seq<string>)
    ensures Match(levels, levels)
  {
  }

  lemma SharedCase(s: Session, a: string, b: string, g: string)
    requires IsLevel(a) && !Dollar(a) && SlashFree(b) && SlashFree(g) && g != ""
    requires s.subscriptions.Keys == {a, SHARE_PREFIX + g + "/" + (a + "/" + b)}
    ensures SomeShared(s, a + "/" + b) && !SomeMatch(s, a + "/" + b)
  {
    var topic, pattern := a + "/" + b, SHARE_PREFIX + g + "/" + (a + "/" + b);
    SharedParts(g, topic);
    TwoLevels(a, b);
    MatchSelf([a, b]);
    assert pattern in s.subscriptions.Keys && IsHit(pattern, topic, false);
  }

  /** A session with "a" and "$share/g/a/b" gets a plain copy of "a/b", which no plain filter of it matches. */
  lemma SharedCopied(rows: Rows, sessions: Sessions, p: Publish, log: seq<Effect>, c: string, a: string, b: string,
                     g: string)
    requires AllCovered(rows, sessions) && Routes(rows.plain, sessions, p, log) && c in sessions
    requires IsLevel(a) && !Dollar(a) && SlashFree(b) && SlashFree(g) && g != "" && p.topic == a + "/" + b
    requires sessions[c].subscriptions.Keys == {a, SHARE_PREFIX + g + "/" + p.topic}
    ensures Logged(log, c) && !SomeMatch(sessions[c], p.topic)
  {
    SharedCase(sessions[c], a, b, g);
    TwoLevels(a, b);
    assert a in sessions[c].subscriptions.Keys && !IsShared(a) && RowOf(rows, c, a).Some?;
    assert (a, c) in rows.plain && FilterReaches(a, p.topic);
    DeliveryExactIff(rows, sessions, p, log, c);
  }

  lemma AloneOnRoster(filters: map<string, Subs>, topic: string, isOnline: string -> bool, ids: seq<string>, f: string,
                      c: string, last: string)
    requires IsRoster(ids, Offered(filters, topic), isOnline) && isOnline(c)
    requires f in filters && c in filters[f] && FilterMatches(f, topic)
    requires forall g, d :: g in filters && d in filters[g] ==> d == c
    ensures ids != [] && ids[Turn(ids, last)] == c
  {
    assert Has(filters[f], (c, filters[f][c]));
    assert IsOffered(filters, topic, (c, filters[f][c]));
    assert (c, filters[f][c]) in Offered(filters, topic);
    assert c in ids;
    var d := ids[Turn(ids, last)];
    assert d in ids;
    var q: nat :| (d, q) in Offered(filters, topic);
    assert IsOffered(filters, topic, (d, q));
  }

  lemma AloneServed(groups: Groups, table: SharedTable, topic: string, isOnline: string -> bool, g: string, c: string,
                    last: map<string, string>, rosters: map<string, seq<string>>, served: seq<SharedSubscriber>,
                    last': map<string, string>)
    requires MirrorsShared(groups, table) && (g, topic, c) in table && forall f, d :: (g, f, d) in table ==> d == c
    requires rosters.Keys == groups.Keys && Round(groups, topic, isOnline, last, rosters, served, last')
    requires isOnline(c) && FilterMatches(topic, topic)
    ensures exists r :: r in served && r.clientID == c && r.shareName == g
  {
    assert c in Members(groups, g, topic);
    forall f, d | f in groups[g] && d in groups[g][f] ensures d == c {
      assert d in Members(groups, g, f);
      assert (g, f, d) in table;
    }
    AloneOnRoster(groups[g], topic, isOnline, rosters[g], topic, c, LastOf(last, g));
    assert Answered(served, g);
    var i :| 0 <= i < |served| && served[i].shareName == g;
    assert served[i] in served;
  }

  /** And if it is the only member of the group, its share of the publish is a second copy. */
  lemma SharedTwice(rows: Rows, sessions: Sessions, groups: Groups, p: Publish, log: seq<Effect>, c: string, a: string,
                    b: string, g: string, last: map<string, string>, rosters: map<string, seq<string>>,
                    served: seq<SharedSubscriber>, last': map<string, string>)
    requires AllCovered(rows, sessions) && Routes(rows.plain, sessions, p, log) && c in sessions
    requires IsLevel(a) && !Dollar(a) && SlashFree(b) && SlashFree(g) && g != "" && p.topic == a + "/" + b
    requires sessions[c].subscriptions.Keys == {a, SHARE_PREFIX + g + "/" + p.topic}
    requires MirrorsShared(groups, rows.shared) && forall f, d :: (g, f, d) in rows.shared ==> d == c
    requires rosters.Keys == groups.Keys && Round(groups, p.topic, d => d in sessions, last, rosters, served, last')
    ensures Logged(log, c) && exists r :: r in served && r.clientID == c && r.shareName == g
  {
    SharedCopied(rows, sessions, p, log, c, a, b, g);
    SharedParts(g, p.topic);
    var pattern := SHARE_PREFIX + g + "/" + p.topic;
    assert pattern in sessions[c].subscriptions.Keys && RowOf(rows, c, pattern).Some?;
    TwoLevels(a, b);
    MatchSelf([a, b]);
    AloneServed(groups, rows.shared, p.topic, d => d in sessions, g, c, last, rosters, served, last');
  }

  // ---------------------------------------------------------------- topics that start with '$'

  ghost predicate SomeProtected(s: Session, topic: string) {
    exists f :: f in s.subscriptions && !IsShared(f) && FilterMatches(f, topic)
  }

  /** A filter with a wildcard in its first level matches the topic, were it not for the protection. */
  ghost predicate SomeWild(s: Session, topic: string) {
    exists f :: Holds(s, f, topic) && (Split(f)[0] == "+" || Split(f)[0] == "#")
  }

  lemma ProtectedHasRow(rows: Rows, c: string, s: Session, topic: string)
    requires Covers(rows, c, s) && SomeProtected(s, topic)
    ensures SomeRow(rows.plain, c, topic)
  {
    var f :| f in s.subscriptions && !IsShared(f) && FilterMatches(f, topic);
    MatchReaches(Split(f), Split(topic));
    assert RowOf(rows, c, f).Some?;
    assert (f, c) in rows.plain && FilterReaches(f, topic);
  }

  lemma ProtectedOrWild(s: Session, topic: string)
    ensures SomeMatch(s, topic) <==> SomeProtected(s, topic) || SomeWild(s, topic)
  {
    if SomeProtected(s, topic) {
      var f :| f in s.subscriptions && !IsShared(f) && FilterMatches(f, topic);
      assert Holds(s, f, topic);
    }
    if SomeMatch(s, topic) {
      var f :| Holds(s, f, topic);
      assert FilterMatches(f, topic) || (Split(f)[0] == "+" || Split(f)[0] == "#");
    }
  }

  /** No filter of the client may match the '$' topic, yet a row lies on the way to it and the session filter finds one
  that matches: a wildcard in the first level, or the real filter of a shared subscription. */
  ghost predicate Slips(rows: Rows, c: string, s: Session, p: Publish) {
    && !SomeProtected(s, p.topic) && SomeRow(rows.plain, c, p.topic)
    && if SomeWild(s, p.topic) then Wanted(s, c, p) else SomeShared(s, p.topic)
  }

  /** For a '$' topic the session filter does not repeat the protection: a client gets what its filters with an
  unwildcarded first level ask for exactly when nothing slips through. */
  lemma ProtectionKeptIff(rows: Rows, sessions: Sessions, p: Publish, log: seq<Effect>, c: string)
    requires AllCovered(rows, sessions) && Routes(rows.plain, sessions, p, log) && c in sessions
    requires Dollar(Split(p.topic)[0]) && Split(p.topic)[0] != "$share"
    ensures (Logged(log, c) <==> SomeProtected(sessions[c], p.topic) && Wanted(sessions[c], c, p)) <==>
            !Slips(rows, c, sessions[c], p)
  {
    DeliveredIff(rows.plain, sessions, p, log, c);
    HitsExist(sessions[c], p.topic);
    LocalIff(sessions[c], c, p);
    ProtectedOrWild(sessions[c], p.topic);
    if SomeProtected(sessions[c], p.topic) {
      ProtectedHasRow(rows, c, sessions[c], p.topic);
    }
  }

  lemma PlainLevel(a: string)
    requires SlashFree(a)
    ensures !IsShared(a)
  {
    assert SHARE_PREFIX[6] == '/';
  }

  lemma ProtectionCase(s: Session, a: string, b: string)
    requires IsLevel(a) && Dollar(a) && SlashFree(b) && s.subscriptions.Keys == {a, "#"}
    ensures SomeWild(s, a + "/" + b) && !SomeProtected(s, a + "/" + b)
  {
    TwoLevels(a, b);
    SplitSlashFree("#");
    assert "#" in s.subscriptions.Keys && Holds(s, "#", a + "/" + b);
  }

  /** A session with "$a" and "#" gets "$a/b" from anyone else. */
  lemma ProtectionMissed(rows: Rows, sessions: Sessions, p: Publish, log: seq<Effect>, c: string, a: string, b: string)
    requires AllCovered(rows, sessions) && Routes(rows.plain, sessions, p, log) && c in sessions && c != p.source
    requires IsLevel(a) && Dollar(a) && a != "$share" && SlashFree(b) && p.topic == a + "/" + b
    requires sessions[c].subscriptions.Keys == {a, "#"}
    ensures Logged(log, c) && !SomeProtected(sessions[c], p.topic)
  {
    ProtectionCase(sessions[c], a, b);
    TwoLevels(a, b);
    PlainLevel(a);
    assert a in sessions[c].subscriptions.Keys && RowOf(rows, c, a).Some?;
    assert (a, c) in rows.plain && FilterReaches(a, p.topic);
    ProtectionKeptIff(rows, sessions, p, log, c);
  }
}
