/** What connecting, subscribing, disconnecting and expiry make of the topic tree, the sessions and the store. */
module Subscribing {
  import opened Basics
  import opened Matching
  import opened Topics
  import opened TopicTrees

  type Sessions = map<string, Session>

  /** Both halves of the topic tree. */
  datatype Rows = Rows(plain: Table, shared: SharedTable)

  const NEW_SESSION := Session(map[], map[])

  /** The QoS the topic tree holds for a filter of a client. */
  ghost function RowOf(rows: Rows, c: string, f: string): Option<nat> {
    if RealPattern(f).None? then None
    else if IsShared(f) then
      var key := (ShareName(f), RealPattern(f).value, c);
      if key in rows.shared then Some(rows.shared[key]) else None
    else if (f, c) in rows.plain then Some(rows.plain[(f, c)]) else None
  }

  ghost function Put(rows: Rows, c: string, f: string, q: nat): Rows
    requires RealPattern(f).Some?
  {
    if IsShared(f) then rows.(shared := rows.shared[(ShareName(f), RealPattern(f).value, c) := q])
    else rows.(plain := rows.plain[(f, c) := q])
  }

  ghost function Take(rows: Rows, c: string, f: string): Rows
    requires RealPattern(f).Some?
  {
    if IsShared(f) then rows.(shared := rows.shared - {(ShareName(f), RealPattern(f).value, c)})
    else rows.(plain := rows.plain - {(f, c)})
  }

  lemma RowPut(rows: Rows, c: string, f: string, q: nat, d: string, g: string)
    requires RealPattern(f).Some?
    ensures RowOf(Put(rows, c, f, q), d, g) == if d == c && g == f then Some(q) else RowOf(rows, d, g)
  {
    if IsShared(f) && IsShared(g) && RealPattern(g).Some? {
      SharedForm(f);
      SharedForm(g);
    }
  }

  lemma RowTake(rows: Rows, c: string, f: string, d: string, g: string)
    requires RealPattern(f).Some?
    ensures RowOf(Take(rows, c, f), d, g) == if d == c && g == f then None else RowOf(rows, d, g)
  {
    if IsShared(f) && IsShared(g) && RealPattern(g).Some? {
      SharedForm(f);
      SharedForm(g);
    }
  }

  /** The rows of one client for the filters of `m` are set as `m` says; every other row is left alone. */
  ghost predicate Sown(r0: Rows, r1: Rows, c: string, m: map<string, nat>) {
    SownFor(r0, r1, c, m, m.Keys)
  }

  ghost predicate SownFor(r0: Rows, r1: Rows, c: string, m: map<string, nat>, filters: set<string>) {
    forall d, f :: RowOf(r1, d, f) == if d == c && f in m && f in filters then Some(m[f]) else RowOf(r0, d, f)
  }

  /** The rows of one client for the filters are gone; every other row is left alone. */
  ghost predicate Pulled(r0: Rows, r1: Rows, c: string, filters: set<string>) {
    forall d, f :: RowOf(r1, d, f) == if d == c && f in filters then None else RowOf(r0, d, f)
  }

  // ---------------------------------------------------------------- sessions and their rows

  /** A filter SUBSCRIBE lets in. */
  ghost predicate Proper(f: string) {
    RealPattern(f).Some? && ValidFilter(RealPattern(f).value)
  }

  ghost predicate AllProper(sessions: Sessions) {
    forall c, f :: c in sessions && f in sessions[c].subscriptions ==> Proper(f)
  }

  /** Every filter of the session has its row. */
  ghost predicate Covers(rows: Rows, c: string, s: Session) {
    forall f :: f in s.subscriptions ==> RowOf(rows, c, f) == Some(s.subscriptions[f])
  }

  /** And the client has no other row. */
  ghost predicate InStep(rows: Rows, c: string, s: Session) {
    forall f :: RowOf(rows, c, f) == if f in s.subscriptions then Some(s.subscriptions[f]) else None
  }

  ghost predicate AllCovered(rows: Rows, sessions: Sessions) {
    forall c :: c in sessions ==> Covers(rows, c, sessions[c])
  }

  /** A shared filter never stands in the trie. */
  ghost predicate PlainKeys(table: Table) {
    forall f, c :: (f, c) in table ==> !IsShared(f)
  }

  function Added(s: Session, filter: string, qos: nat, opts: SubOptions): Session {
    Session(s.subscriptions[filter := qos], s.subOptions[filter := opts])
  }

  function Removed(s: Session, filter: string): Session {
    Session(s.subscriptions - {filter}, s.subOptions - {filter})
  }

  /** What the store keeps of a session. */
  function Saved(s: Session): Session {
    Session(s.subscriptions, map f | f in s.subscriptions :: OptionsOf(s, f))
  }

  /** Subscribing sets the QoS and the options of one filter and leaves every other alone; unsubscribing undoes it, and
  leaves nothing of the filter behind. */
  lemma AddedRemoved(s: Session, filter: string, qos: nat, opts: SubOptions)
    ensures var t := Added(s, filter, qos, opts);
            && filter in t.subscriptions && t.subscriptions[filter] == qos && OptionsOf(t, filter) == opts
            && t.subscriptions.Keys == s.subscriptions.Keys + {filter}
            && (forall f :: f in s.subscriptions && f != filter ==>
                  t.subscriptions[f] == s.subscriptions[f] && OptionsOf(t, f) == OptionsOf(s, f))
            && Removed(t, filter) == Removed(s, filter)
    ensures var r := Removed(s, filter);
            && r.subscriptions.Keys == s.subscriptions.Keys - {filter} && OptionsOf(r, filter) == NO_OPTIONS
            && (forall f :: f in s.subscriptions && f != filter ==>
                  r.subscriptions[f] == s.subscriptions[f] && OptionsOf(r, f) == OptionsOf(s, f))
  {
    assert s.subscriptions[filter := qos] - {filter} == s.subscriptions - {filter};
    assert s.subOptions[filter := opts] - {filter} == s.subOptions - {filter};
  }

  lemma CoveredAdd(rows: Rows, sessions: Sessions, c: string, f: string, q: nat, opts: SubOptions)
    requires AllCovered(rows, sessions) && c in sessions && RealPattern(f).Some?
    ensures AllCovered(Put(rows, c, f, q), sessions[c := Added(sessions[c], f, q, opts)])
    ensures InStep(rows, c, sessions[c]) ==> InStep(Put(rows, c, f, q), c, Added(sessions[c], f, q, opts))
  {
    forall d, g ensures RowOf(Put(rows, c, f, q), d, g) == if d == c && g == f then Some(q) else RowOf(rows, d, g) {
      RowPut(rows, c, f, q, d, g);
    }
  }

  lemma CoveredRemove(rows: Rows, sessions: Sessions, c: string, f: string)
    requires AllCovered(rows, sessions) && c in sessions && RealPattern(f).Some?
    ensures AllCovered(Take(rows, c, f), sessions[c := Removed(sessions[c], f)])
    ensures InStep(rows, c, sessions[c]) ==> InStep(Take(rows, c, f), c, Removed(sessions[c], f))
  {
    forall d, g ensures RowOf(Take(rows, c, f), d, g) == if d == c && g == f then None else RowOf(rows, d, g) {
      RowTake(rows, c, f, d, g);
    }
  }

  // ---------------------------------------------------------------- the steps, on values

  datatype View = View(rows: Rows, sessions: Sessions, stored: Sessions)

  /** The filters a connect goes by: those of the session it resumes, or those of the stored record it can read. */
  ghost function Known(v: View, c: string, clean: bool, storeUp: bool): map<string, nat> {
    if !clean && c in v.sessions then v.sessions[c].subscriptions
    else if storeUp && c in v.stored then v.stored[c].subscriptions
    else map[]
  }

  /** A connect resumes the session in memory, restores the stored one, or starts anew; a clean one discards the stored
  record and its rows. */
  ghost predicate Opened(v: View, v': View, c: string, clean: bool, storeUp: bool, resumed: bool) {
    && (resumed <==> !clean && (c in v.sessions || (storeUp && c in v.stored)))
    && v'.sessions == v.sessions[c := if !resumed then NEW_SESSION
                                      else if c in v.sessions then v.sessions[c] else v.stored[c]]
    && v'.stored == (if clean && storeUp then v.stored - {c} else v.stored)
    && (if clean then Pulled(v.rows, v'.rows, c, Known(v, c, clean, storeUp).Keys)
        else if resumed && c !in v.sessions then Sown(v.rows, v'.rows, c, v.stored[c].subscriptions)
        else v'.rows == v.rows)
  }

  /** A disconnect: a session that outlives it is saved and keeps its rows, another loses both. */
  ghost predicate Closed(v: View, v': View, c: string, expiry: nat, storeUp: bool) {
    && v'.sessions == v.sessions - {c}
    && v'.stored == (if c !in v.sessions || !storeUp then v.stored
                     else if expiry > 0 then v.stored[c := Saved(v.sessions[c])] else v.stored - {c})
    && (if c in v.sessions && expiry == 0 then Pulled(v.rows, v'.rows, c, v.sessions[c].subscriptions.Keys)
        else v'.rows == v.rows)
  }

  /** A stored session past its time goes with its rows. */
  ghost predicate Expired(v: View, v': View, c: string) {
    && v'.sessions == v.sessions && v'.stored == v.stored - {c}
    && Pulled(v.rows, v'.rows, c, if c in v.stored then v.stored[c].subscriptions.Keys else {})
  }

  lemma SownStep(r0: Rows, r: Rows, c: string, m: map<string, nat>, keys: set<string>, f: string)
    requires SownFor(r0, r, c, m, m.Keys - keys) && f in keys && keys <= m.Keys && RealPattern(f).Some?
    ensures SownFor(r0, Put(r, c, f, m[f]), c, m, m.Keys - (keys - {f}))
  {
    var r' := Put(r, c, f, m[f]);
    forall d, g
      ensures RowOf(r', d, g) == if d == c && g in m && g in m.Keys - (keys - {f}) then Some(m[g]) else RowOf(r0, d, g)
    {
      RowPut(r, c, f, m[f], d, g);
    }
  }

  lemma PulledStep(r0: Rows, r: Rows, c: string, filters: set<string>, keys: set<string>, f: string)
    requires Pulled(r0, r, c, filters - keys) && f in keys && keys <= filters
    ensures Pulled(r0, if RealPattern(f).Some? then Take(r, c, f) else r, c, filters - (keys - {f}))
  {
    var r' := if RealPattern(f).Some? then Take(r, c, f) else r;
    forall d, g ensures RowOf(r', d, g) == if d == c && g in filters - (keys - {f}) then None else RowOf(r0, d, g) {
      if RealPattern(f).Some? {
        RowTake(r, c, f, d, g);
      }
    }
  }

  lemma OpenedKeeps(v: View, v': View, c: string, clean: bool, storeUp: bool, resumed: bool)
    requires AllCovered(v.rows, v.sessions) && Opened(v, v', c, clean, storeUp, resumed)
    ensures AllCovered(v'.rows, v'.sessions)
  {
  }

  // ---------------------------------------------------------------- what a connect and a disconnect promise

  /** After a connect the client has the rows of its session and no other exactly when no row it had before falls
  outside the filters the connect goes by. */
  lemma InStepAfterOpenIff(v: View, v': View, c: string, clean: bool, storeUp: bool, resumed: bool)
    requires AllCovered(v.rows, v.sessions) && Opened(v, v', c, clean, storeUp, resumed)
    ensures InStep(v'.rows, c, v'.sessions[c]) <==>
            forall f :: RowOf(v.rows, c, f).Some? ==> f in Known(v, c, clean, storeUp)
  {
    if f :| RowOf(v.rows, c, f).Some? && f !in Known(v, c, clean, storeUp) {
      assert RowOf(v'.rows, c, f) == RowOf(v.rows, c, f);
    }
  }

  /** A clean start is to leave the client without a row. Taking over from a live session it does so exactly when the
  stored record names every filter of that session: the live session itself has been replaced before its filters are
  looked up. */
  lemma CleanStartReleasesIff(v: View, v': View, c: string, storeUp: bool, resumed: bool)
    requires AllCovered(v.rows, v.sessions) && Opened(v, v', c, true, storeUp, resumed)
    requires c in v.sessions && InStep(v.rows, c, v.sessions[c])
    ensures (forall f :: RowOf(v'.rows, c, f) == None) <==>
            v.sessions[c].subscriptions.Keys <= if storeUp && c in v.stored then v.stored[c].subscriptions.Keys else {}
  {
    InStepAfterOpenIff(v, v', c, true, storeUp, resumed);
    assert (forall f :: RowOf(v'.rows, c, f) == None) <==> InStep(v'.rows, c, v'.sessions[c]);
    forall f ensures f in v.sessions[c].subscriptions <==> RowOf(v.rows, c, f).Some? {
    }
  }

  ghost predicate InUseAgain(v: View, c: string) {
    c in v.sessions && c in v.stored && exists f :: f in v.sessions[c].subscriptions && f in v.stored[c].subscriptions
  }

  /** The sweep asks for a connection, and a client that is just connecting has its session before it has one: the
  sweep then leaves the sessions their rows exactly when no filter of the stored record is in use again. */
  lemma ExpiryKeepsIff(v: View, v': View, c: string)
    requires AllCovered(v.rows, v.sessions) && Expired(v, v', c)
    ensures AllCovered(v'.rows, v'.sessions) <==> !InUseAgain(v, c)
  {
    if InUseAgain(v, c) {
      var f :| f in v.sessions[c].subscriptions && f in v.stored[c].subscriptions;
      assert RowOf(v'.rows, c, f) == None;
    } else {
      forall d | d in v'.sessions ensures Covers(v'.rows, d, v'.sessions[d]) {
        assert Covers(v.rows, d, v.sessions[d]);
      }
    }
  }

  /** Nothing that belongs to another client changed. */
  ghost predicate OthersKept(v: View, v': View, c: string) {
    && (forall d :: d != c ==> (d in v'.sessions <==> d in v.sessions) && (d in v'.stored <==> d in v.stored))
    && (forall d :: d != c && d in v.sessions ==> v'.sessions[d] == v.sessions[d])
    && (forall d :: d != c && d in v.stored ==> v'.stored[d] == v.stored[d])
    && (forall d, f :: d != c ==> RowOf(v'.rows, d, f) == RowOf(v.rows, d, f))
  }

  /** A clean start begins with an empty session and leaves no record in a store that answers; no other client's state
  changes. */
  lemma CleanStartForgets(v: View, v': View, c: string, resumed: bool)
    requires Opened(v, v', c, true, true, resumed)
    ensures !resumed && c in v'.sessions && v'.sessions[c] == NEW_SESSION && c !in v'.stored && OthersKept(v, v', c)
  {
  }

  /** A session that ends with its connection is not there for the next one: no record, no row, nothing to resume. */
  lemma EndedIsGone(v: View, v': View, v'': View, c: string, resumed: bool)
    requires c in v.sessions && InStep(v.rows, c, v.sessions[c])
    requires Closed(v, v', c, 0, true) && Opened(v', v'', c, false, true, resumed)
    ensures !resumed && v''.sessions[c] == NEW_SESSION && c !in v''.stored && OthersKept(v, v'', c)
    ensures forall f :: RowOf(v''.rows, c, f) == None
  {
  }

  /** Nor is one that expired: its record and its rows are gone, and the next connect starts anew. */
  lemma ExpiredIsGone(v: View, v': View, v'': View, c: string, resumed: bool)
    requires c !in v.sessions && c in v.stored && Covers(v.rows, c, v.stored[c])
    requires Expired(v, v', c) && Opened(v', v'', c, false, true, resumed)
    ensures !resumed && v''.sessions[c] == NEW_SESSION && c !in v''.stored && OthersKept(v, v'', c)
    ensures forall f :: f in v.stored[c].subscriptions ==> RowOf(v''.rows, c, f) == None
  {
  }

  /** A session that outlives its connection comes back whole: its filters, its options and every row of the tree. */
  lemma CloseThenOpen(v: View, v': View, v'': View, c: string, expiry: nat, resumed: bool)
    requires AllCovered(v.rows, v.sessions) && c in v.sessions && expiry > 0
    requires Closed(v, v', c, expiry, true) && Opened(v', v'', c, false, true, resumed)
    ensures resumed && v''.sessions == v.sessions[c := Saved(v.sessions[c])]
    ensures forall f :: f in v.sessions[c].subscriptions ==>
              OptionsOf(Saved(v.sessions[c]), f) == OptionsOf(v.sessions[c], f)
    ensures forall d, f :: RowOf(v''.rows, d, f) == RowOf(v.rows, d, f)
  {
  }

  // ---------------------------------------------------------------- the broker's side

  class Desk {
    const topics: TopicTree
    var sessions: Sessions
    var stored: Sessions

    ghost predicate TreeValid()
      reads this, topics
    {
      topics.PlainValid() && topics.SharedValid() && topics.TurnsKnown() && topics.Counted() && PlainKeys(topics.table)
    }

    ghost predicate Valid()
      reads this, topics
    {
      TreeValid() && AllProper(sessions) && AllProper(stored) && AllCovered(RowsNow(), sessions)
    }

    ghost function RowsNow(): Rows
      reads topics
    {
      Rows(topics.table, topics.sharedTable)
    }

    ghost function Now(): View
      reads this, topics
    {
      View(RowsNow(), sessions, stored)
    }

    /** A broker starts with an empty tree, and with what an earlier one left in the store. */
    constructor (tree: TopicTree, store: Sessions)
      requires tree.PlainValid() && tree.SharedValid() && tree.TurnsKnown() && tree.Counted()
      requires tree.table == map[] && AllProper(store)
      ensures Valid() && topics == tree && sessions == map[] && stored == store
    {
      topics, sessions, stored := tree, map[], store;
    }

    method Enter(clientID: string, filter: string, qos: nat)
      requires TreeValid() && Proper(filter)
      modifies topics
      ensures TreeValid() && RowsNow() == Put(old(RowsNow()), clientID, filter, qos)
    {
      if IsShared(filter) {
        topics.SubscribeShared(ShareName(filter), RealPattern(filter).value, clientID, qos);
      } else {
        var ok := topics.Subscribe(filter, clientID, qos);
      }
    }

    method Strike(clientID: string, filter: string)
      requires TreeValid() && RealPattern(filter).Some?
      modifies topics
      ensures TreeValid() && RowsNow() == Take(old(RowsNow()), clientID, filter)
    {
      if IsShared(filter) {
        topics.UnsubscribeShared(ShareName(filter), RealPattern(filter).value, clientID);
      } else {
        topics.Unsubscribe(filter, clientID);
      }
    }

    /** One filter of a SUBSCRIBE; `allowed` is the verdict of the authorizer. A malformed filter changes nothing. */
    method SubscribeFilter(clientID: string, filter: string, qos: nat, opts: SubOptions, allowed: bool)
      returns (granted: bool)
      requires Valid() && clientID in sessions
      modifies `sessions, topics
      ensures Valid()
      ensures granted <==> Proper(filter) && !(IsShared(filter) && opts.noLocal) && allowed
      ensures sessions == if !granted then old(sessions)
                          else old(sessions)[clientID := Added(old(sessions)[clientID], filter, qos, opts)]
      ensures RowsNow() == if granted then Put(old(RowsNow()), clientID, filter, qos) else old(RowsNow())
      ensures old(InStep(RowsNow(), clientID, sessions[clientID])) ==> InStep(RowsNow(), clientID, sessions[clientID])
    {
      granted := false;
      var target := RealPattern(filter);
      if target.None? {
        return;
      }
      var wellFormed := ValidateTopicFilter(target.value);
      if !wellFormed || (IsShared(filter) && opts.noLocal) || !allowed {
        return;
      }
      granted := true;
      CoveredAdd(RowsNow(), sessions, clientID, filter, qos, opts);
      Enter(clientID, filter, qos);
      sessions := sessions[clientID := Added(sessions[clientID], filter, qos, opts)];
    }

    /** One filter of an UNSUBSCRIBE. */
    method UnsubscribeFilter(clientID: string, filter: string) returns (wellFormed: bool)
      requires Valid() && clientID in sessions
      modifies `sessions, topics
      ensures Valid()
      ensures wellFormed <==> Proper(filter)
      ensures sessions == if !wellFormed then old(sessions)
                          else old(sessions)[clientID := Removed(old(sessions)[clientID], filter)]
      ensures RowsNow() == if wellFormed then Take(old(RowsNow()), clientID, filter) else old(RowsNow())
      ensures old(InStep(RowsNow(), clientID, sessions[clientID])) ==> InStep(RowsNow(), clientID, sessions[clientID])
    {
      var target := RealPattern(filter);
      if target.None? {
        return false;
      }
      wellFormed := ValidateTopicFilter(target.value);
      if !wellFormed {
        return;
      }
      CoveredRemove(RowsNow(), sessions, clientID, filter);
      Strike(clientID, filter);
      sessions := sessions[clientID := Removed(sessions[clientID], filter)];
    }

    /** The filters of a restored session go back into the tree. */
    method Resubscribe(clientID: string, filters: map<string, nat>)
      requires TreeValid() && forall f :: f in filters ==> Proper(f)
      modifies topics
      ensures TreeValid() && Sown(old(RowsNow()), RowsNow(), clientID, filters)
    {
      var keys := filters.Keys;
      ghost var before := RowsNow();
      while keys != {}
        invariant TreeValid() && keys <= filters.Keys
        invariant SownFor(before, RowsNow(), clientID, filters, filters.Keys - keys)
      {
        var f :| f in keys;
        SownStep(before, RowsNow(), clientID, filters, keys, f);
        Enter(clientID, f, filters[f]);
        keys := keys - {f};
      }
      assert filters.Keys - {} == filters.Keys;
    }

    /** A malformed shared filter has no row to strike. */
    method UnsubscribeTopics(clientID: string, filters: set<string>)
      requires TreeValid()
      modifies topics
      ensures TreeValid() && Pulled(old(RowsNow()), RowsNow(), clientID, filters)
    {
      var keys := filters;
      ghost var before := RowsNow();
      while keys != {}
        invariant TreeValid() && keys <= filters
        invariant Pulled(before, RowsNow(), clientID, filters - keys)
      {
        var f :| f in keys;
        PulledStep(before, RowsNow(), clientID, filters, keys, f);
        if RealPattern(f).Some? {
          Strike(clientID, f);
        }
        keys := keys - {f};
      }
      assert filters - {} == filters;
    }

    /** The clean part of a connect: the filters of the session now in memory, then those of the stored record. */
    method Discard(clientID: string, storeUp: bool)
      requires TreeValid() && clientID in sessions
      modifies `stored, topics
      ensures TreeValid() && stored == if storeUp then old(stored) - {clientID} else old(stored)
      ensures Pulled(old(RowsNow()), RowsNow(), clientID, sessions[clientID].subscriptions.Keys +
                     if storeUp && clientID in old(stored) then old(stored)[clientID].subscriptions.Keys else {})
    {
      UnsubscribeTopics(clientID, sessions[clientID].subscriptions.Keys);
      if storeUp {
        if clientID in stored {
          UnsubscribeTopics(clientID, stored[clientID].subscriptions.Keys);
        }
        stored := stored - {clientID};
      }
    }

    /** A CONNECT; `storeUp` says whether there is a session store and it answers. */
    method Open(clientID: string, clean: bool, storeUp: bool) returns (resumed: bool)
      requires Valid()
      modifies this, topics
      ensures Valid() && Opened(old(Now()), Now(), clientID, clean, storeUp, resumed)
    {
      ghost var v := Now();
      resumed := !clean && clientID in sessions;
      if !resumed && !clean && storeUp && clientID in stored {
        sessions, resumed := sessions[clientID := stored[clientID]], true;
        Resubscribe(clientID, stored[clientID].subscriptions);
      }
      if !resumed {
        sessions := sessions[clientID := NEW_SESSION];
      }
      if clean {
        Discard(clientID, storeUp);
      }
      OpenedKeeps(v, Now(), clientID, clean, storeUp, resumed);
    }

    /** The connection of the session ends; `expiry` is the interval negotiated for the session. */
    method Close(clientID: string, expiry: nat, storeUp: bool)
      requires Valid()
      modifies this, topics
      ensures Valid() && Closed(old(Now()), Now(), clientID, expiry, storeUp)
    {
      if clientID in sessions {
        if storeUp {
          stored := if expiry > 0 then stored[clientID := Saved(sessions[clientID])] else stored - {clientID};
        }
        if expiry == 0 {
          UnsubscribeTopics(clientID, sessions[clientID].subscriptions.Keys);
        }
      }
      sessions := sessions - {clientID};
    }

    /** The sweep finds a stored session whose time is up and whose client has no connection. */
    method Expire(clientID: string)
      requires Valid()
      modifies this, topics
      ensures TreeValid() && AllProper(sessions) && AllProper(stored) && Expired(old(Now()), Now(), clientID)
      ensures clientID !in sessions ==> Valid()
    {
      if clientID in stored {
        UnsubscribeTopics(clientID, stored[clientID].subscriptions.Keys);
      }
      stored := stored - {clientID};
    }
  }

  lemma TakeoverKeeps(v: View, v': View, c: string, resumed: bool, f: string)
    requires c in v.sessions && c !in v.stored && Opened(v, v', c, true, true, resumed)
    ensures v'.sessions == v.sessions[c := NEW_SESSION] && RowOf(v'.rows, c, f) == RowOf(v.rows, c, f)
  {
  }

  method FirstConnect(c: string) returns (d: Desk)
    ensures d.Valid() && fresh(d) && fresh(d.topics) && d.sessions.Keys == {c} && d.stored == map[]
  {
    var tree := new TopicTree();
    d := new Desk(tree, map[]);
    var resumed := d.Open(c, true, true);
  }

  method FirstSubscription(c: string, filter: string, qos: nat) returns (d: Desk)
    requires Proper(filter)
    ensures d.Valid() && fresh(d) && fresh(d.topics) && d.sessions.Keys == {c} && d.stored == map[]
    ensures filter in d.sessions[c].subscriptions && RowOf(d.RowsNow(), c, filter) == Some(qos)
  {
    d := FirstConnect(c);
    ghost var rows := d.RowsNow();
    var granted := d.SubscribeFilter(c, filter, qos, NO_OPTIONS, true);
    RowPut(rows, c, filter, qos, c, filter);
  }

  /** Such a takeover: a client subscribes, connects again with a clean start while it is still connected, and its new
  session has no filter but still a row. */
  method CleanTakeover(c: string, filter: string, qos: nat) returns (d: Desk)
    requires Proper(filter)
    ensures d.Valid() && d.sessions == map[c := NEW_SESSION] && RowOf(d.RowsNow(), c, filter) == Some(qos)
  {
    d := FirstSubscription(c, filter, qos);
    ghost var v := d.Now();
    var resumed := d.Open(c, true, true);
    TakeoverKeeps(v, d.Now(), c, resumed, filter);
  }

  /** Such an expiry: a client comes back to its stored session, and the sweep takes the record and with it the row of a
  filter that the session holds. */
  method ExpiryTakesRow(c: string, filter: string, qos: nat) returns (d: Desk)
    requires Proper(filter)
    ensures c in d.sessions && filter in d.sessions[c].subscriptions && RowOf(d.RowsNow(), c, filter) == None
  {
    d := FirstSubscription(c, filter, qos);
    d.Close(c, 1, true);
    var resumed := d.Open(c, false, true);
    d.Expire(c);
  }
}
