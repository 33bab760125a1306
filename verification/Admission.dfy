/** Connection slots: handlers that reserve, fail, register, take over and disconnect, in any interleaving. */
module Admission {

  /** A handler holds a reservation, or is registered for a client (and may since have been displaced). */
  datatype Phase = Reserved | Live(client: string)

  /** `connections` maps a client to the handler registered for it. */
  datatype State = State(connections: map<string, nat>, pending: int, handlers: map<nat, Phase>)

  datatype Action =
    | Arrive(h: nat)
    | Fail(h: nat)
    | Register(h: nat, client: string)
    | Leave(h: nat)

  const INIT := State(map[], 0, map[])

  predicate Enabled(s: State, a: Action) {
    match a
    case Arrive(h) => h !in s.handlers
    case Fail(h) => h in s.handlers && s.handlers[h].Reserved?
    case Register(h, _) => h in s.handlers && s.handlers[h].Reserved?
    case Leave(h) => h in s.handlers && s.handlers[h].Live?
  }

  // ---------------------------------------------------------------- the steps

  /** A limit of zero or less means no limit, and then nothing is reserved. */
  predicate Admits(max: int, s: State) {
    max <= 0 || |s.connections| + s.pending < max
  }

  function DoArrive(max: int, s: State, h: nat): State {
    if !Admits(max, s) then s
    else s.(pending := if max <= 0 then s.pending else s.pending + 1, handlers := s.handlers[h := Reserved])
  }

  /** A reservation is given back; the counter does not go below zero. */
  function Dec(n: int): int {
    if n > 0 then n - 1 else n
  }

  function DoFail(max: int, s: State, h: nat): State {
    s.(pending := if max <= 0 then s.pending else Dec(s.pending), handlers := s.handlers - {h})
  }

  /** Registering displaces whoever was registered for the client and spends the reservation. */
  function DoRegister(s: State, h: nat, c: string): State {
    s.(connections := s.connections[c := h], pending := Dec(s.pending), handlers := s.handlers[h := Live(c)])
  }

  /** Only the handler that is still the registered one clears the entry. */
  function DoLeave(s: State, h: nat): State
    requires h in s.handlers && s.handlers[h].Live?
  {
    var c := s.handlers[h].client;
    s.(connections := if c in s.connections && s.connections[c] == h then s.connections - {c} else s.connections,
       handlers := s.handlers - {h})
  }

  function Next(max: int, s: State, a: Action): State
    requires Enabled(s, a)
  {
    match a
    case Arrive(h) => DoArrive(max, s, h)
    case Fail(h) => DoFail(max, s, h)
    case Register(h, c) => DoRegister(s, h, c)
    case Leave(h) => DoLeave(s, h)
  }

  ghost predicate IsRun(max: int, trace: seq<State>, acts: seq<Action>) {
    && |trace| == |acts| + 1
    && trace[0] == INIT
    && (forall i {:trigger acts[i]} :: 0 <= i < |acts| ==>
        Enabled(trace[i], acts[i]) && trace[i + 1] == Next(max, trace[i], acts[i]))
  }

  // ---------------------------------------------------------------- the invariant

  /** The handlers between reservation and registration or release. */
  function Waiting(s: State): set<nat> {
    set h | h in s.handlers && s.handlers[h].Reserved?
  }

  ghost predicate Inv(max: int, s: State) {
    && s.pending == (if max <= 0 then 0 else |Waiting(s)|)
    && (max > 0 ==> |s.connections| + s.pending <= max)
    && (forall c :: c in s.connections ==> s.connections[c] in s.handlers && s.handlers[s.connections[c]] == Live(c))
  }

  lemma ArriveInv(max: int, s: State, h: nat)
    requires Inv(max, s) && h !in s.handlers
    ensures Inv(max, DoArrive(max, s, h))
  {
    if Admits(max, s) {
      OneMoreWaits(s, DoArrive(max, s, h), h);
    }
  }

  lemma OneMoreWaits(s: State, s': State, h: nat)
    requires h !in s.handlers && s'.handlers == s.handlers[h := Reserved]
    ensures |Waiting(s')| == |Waiting(s)| + 1
  {
    assert Waiting(s') == Waiting(s) + {h} && h !in Waiting(s);
  }

  lemma FailInv(max: int, s: State, h: nat)
    requires Inv(max, s) && h in s.handlers && s.handlers[h].Reserved?
    ensures Inv(max, DoFail(max, s, h))
  {
    assert Waiting(DoFail(max, s, h)) == Waiting(s) - {h} && h in Waiting(s);
  }

  lemma RegisterInv(max: int, s: State, h: nat, c: string)
    requires Inv(max, s) && h in s.handlers && s.handlers[h].Reserved?
    ensures Inv(max, DoRegister(s, h, c))
  {
    var s' := DoRegister(s, h, c);
    assert Waiting(s') == Waiting(s) - {h} && h in Waiting(s);
    assert |s'.connections| <= |s.connections| + 1;
  }

  lemma LeaveInv(max: int, s: State, h: nat)
    requires Inv(max, s) && h in s.handlers && s.handlers[h].Live?
    ensures Inv(max, DoLeave(s, h))
  {
    var s', c := DoLeave(s, h), s.handlers[h].client;
    assert Waiting(s') == Waiting(s);
    if c in s.connections && s.connections[c] == h {
      assert s'.connections.Keys == s.connections.Keys - {c};
      assert |s'.connections| == |s'.connections.Keys| && |s.connections| == |s.connections.Keys|;
    }
  }

  lemma NextInv(max: int, s: State, a: Action)
    requires Inv(max, s) && Enabled(s, a)
    ensures Inv(max, Next(max, s, a))
  {
    match a
    case Arrive(h) => ArriveInv(max, s, h);
    case Fail(h) => FailInv(max, s, h);
    case Register(h, c) => RegisterInv(max, s, h, c);
    case Leave(h) => LeaveInv(max, s, h);
  }

  lemma {:induction false} RunInv(max: int, trace: seq<State>, acts: seq<Action>, i: nat)
    requires IsRun(max, trace, acts) && i < |trace|
    ensures Inv(max, trace[i])
    decreases i
  {
    if i == 0 {
      assert Waiting(INIT) == {};
    } else {
      RunInv(max, trace, acts, i - 1);
      NextInv(max, trace[i - 1], acts[i - 1]);
    }
  }

  // ---------------------------------------------------------------- every run

  /** Registered and pending together never exceed the limit, and pending is the number of handlers that hold a
  reservation. */
  lemma LimitHolds(max: int, trace: seq<State>, acts: seq<Action>, i: nat)
    requires IsRun(max, trace, acts) && i < |trace| && max > 0
    ensures var s := trace[i]; |s.connections| + s.pending <= max && s.pending == |Waiting(s)|
  {
    RunInv(max, trace, acts, i);
  }

  /** No slot leaks: once every handler has ended, every slot is free again. */
  lemma NoSlotLeaks(max: int, trace: seq<State>, acts: seq<Action>, i: nat)
    requires IsRun(max, trace, acts) && i < |trace| && trace[i].handlers == map[]
    ensures trace[i].connections == map[] && trace[i].pending == 0
  {
    RunInv(max, trace, acts, i);
    var s := trace[i];
    assert Waiting(s) == {};
    assert s.connections == map[] by {
      assert forall c :: c !in s.connections;
    }
  }

  /** A newcomer is turned away exactly when the registered connections and the reservations held fill the limit. */
  lemma RefusedIffFull(max: int, trace: seq<State>, acts: seq<Action>, i: nat)
    requires IsRun(max, trace, acts) && i < |trace|
    ensures !Admits(max, trace[i]) <==> max > 0 && |trace[i].connections| + |Waiting(trace[i])| == max
  {
    RunInv(max, trace, acts, i);
  }

  // ---------------------------------------------------------------- who is registered

  /** Action j registered the handler for the client, and up to action i nobody else registered for it nor did the
  handler leave. */
  ghost predicate StandsSince(acts: seq<Action>, j: nat, i: nat, c: string, h: nat) {
    && j < i <= |acts| && acts[j] == Register(h, c)
    && forall k :: j < k < i ==> acts[k] != Leave(h) && !(acts[k].Register? && acts[k].client == c)
  }

  ghost predicate Stands(acts: seq<Action>, i: nat, c: string, h: nat) {
    exists j :: StandsSince(acts, j, i, c, h)
  }

  predicate Owns(s: State, c: string, h: nat) {
    c in s.connections && s.connections[c] == h
  }

  lemma StandsStep(acts: seq<Action>, i: nat, c: string, h: nat)
    requires i < |acts|
    ensures Stands(acts, i + 1, c, h) <==>
            || acts[i] == Register(h, c)
            || (Stands(acts, i, c, h) && acts[i] != Leave(h) && !(acts[i].Register? && acts[i].client == c))
  {
    if acts[i] == Register(h, c) {
      assert StandsSince(acts, i, i + 1, c, h);
    } else if Stands(acts, i, c, h) && acts[i] != Leave(h) && !(acts[i].Register? && acts[i].client == c) {
      var j :| StandsSince(acts, j, i, c, h);
      assert StandsSince(acts, j, i + 1, c, h);
    }
    if Stands(acts, i + 1, c, h) && acts[i] != Register(h, c) {
      var j :| StandsSince(acts, j, i + 1, c, h);
      assert StandsSince(acts, j, i, c, h);
    }
  }

  lemma OwnsStep(max: int, s: State, a: Action, c: string, h: nat)
    requires Inv(max, s) && Enabled(s, a)
    ensures Owns(Next(max, s, a), c, h) <==>
            a == Register(h, c) || (Owns(s, c, h) && a != Leave(h) && !(a.Register? && a.client == c))
  {
    match a
    case Arrive(k) => assert DoArrive(max, s, k).connections == s.connections;
    case Fail(k) => assert DoFail(max, s, k).connections == s.connections;
    case Register(k, d) => OwnsRegister(s, k, d, c, h);
    case Leave(k) => OwnsLeave(max, s, k, c, h);
  }

  lemma OwnsRegister(s: State, k: nat, d: string, c: string, h: nat)
    ensures Owns(DoRegister(s, k, d), c, h) <==> (k == h && d == c) || (Owns(s, c, h) && d != c)
  {
  }

  lemma OwnsLeave(max: int, s: State, k: nat, c: string, h: nat)
    requires Inv(max, s) && k in s.handlers && s.handlers[k].Live?
    ensures Owns(DoLeave(s, k), c, h) <==> Owns(s, c, h) && k != h
  {
  }

  /** In every run the handler registered for a client is the last one that registered for it, as long as it has not
  left: a displaced handler that leaves later takes nobody's entry. */
  lemma {:induction false} LastRegisteredOwns(max: int, trace: seq<State>, acts: seq<Action>, i: nat, c: string, h: nat)
    requires IsRun(max, trace, acts) && i < |trace|
    ensures Owns(trace[i], c, h) <==> Stands(acts, i, c, h)
  {
    if i > 0 {
      LastRegisteredOwns(max, trace, acts, i - 1, c, h);
      RunInv(max, trace, acts, i - 1);
      OwnsStep(max, trace[i - 1], acts[i - 1], c, h);
      StandsStep(acts, i - 1, c, h);
    }
  }

  // ---------------------------------------------------------------- the registry

  class Registry {
    const maxConnections: int
    var connections: map<string, nat>
    var pendingConns: int
    ghost var handlers: map<nat, Phase>

    ghost function Now(): State
      reads this
    {
      State(connections, pendingConns, handlers)
    }

    constructor (max: int)
      ensures Now() == INIT && maxConnections == max
    {
      maxConnections, connections, pendingConns, handlers := max, map[], 0, map[];
    }

    method ReserveConnectionSlot(ghost h: nat) returns (ok: bool)
      requires h !in handlers
      modifies this
      ensures Now() == Next(maxConnections, old(Now()), Arrive(h)) && ok == Admits(maxConnections, old(Now()))
    {
      if maxConnections <= 0 {
        handlers := handlers[h := Reserved];
        return true;
      }
      if |connections| + pendingConns >= maxConnections {
        return false;
      }
      pendingConns, handlers := pendingConns + 1, handlers[h := Reserved];
      return true;
    }

    method ReleaseConnectionSlot(ghost h: nat)
      requires h in handlers && handlers[h].Reserved?
      modifies this
      ensures Now() == Next(maxConnections, old(Now()), Fail(h))
    {
      handlers := handlers - {h};
      if maxConnections <= 0 {
        return;
      }
      if pendingConns > 0 {
        pendingConns := pendingConns - 1;
      }
    }

    method RegisterConnection(h: nat, clientID: string)
      requires h in handlers && handlers[h].Reserved?
      modifies this
      ensures Now() == Next(maxConnections, old(Now()), Register(h, clientID))
    {
      connections := connections[clientID := h];
      if pendingConns > 0 {
        pendingConns := pendingConns - 1;
      }
      handlers := handlers[h := Live(clientID)];
    }

    method Disconnect(h: nat, clientID: string)
      requires h in handlers && handlers[h] == Live(clientID)
      modifies this
      ensures Now() == Next(maxConnections, old(Now()), Leave(h))
    {
      handlers := handlers - {h};
      if clientID !in connections || connections[clientID] != h {
        return;
      }
      connections := connections - {clientID};
    }
  }
}
