/** Last wills: registration, triggering, delay timers and withdrawal, as interleaved steps. */
module Wills {
  import opened Basics

  /** One registration. `serial` is its identity, `conn` the connection that made it. */
  datatype Will = Will(serial: nat, conn: Option<nat>, delay: nat)

  /** A goroutine waiting out a delay: for which client and registration, on whose trigger, and whether its context is
  cancelled. A cancelled one may still see its timer first. */
  datatype Timer = Timer(client: string, will: Will, cause: Option<nat>, cancelled: bool)

  /** A publication, and the connection whose disconnect set it off. */
  datatype Sending = Sending(will: Will, cause: Option<nat>)

  /** `armed` names the timer of each client that has one; `sending` holds, by serial, what left the lock and is not
  sent yet. `serials` counts registrations and `clock` timers. `published` and `withdrawn` are history. */
  datatype State = State(wills: map<string, Will>, armed: map<string, nat>, timers: map<nat, Timer>,
                         sending: map<nat, Sending>, serials: nat, clock: nat, published: seq<Sending>,
                         withdrawn: set<nat>)

  datatype Action =
    | Register(client: string, conn: Option<nat>, delay: nat)
    | Trigger(client: string, conn: Option<nat>)
    | Expire(timer: nat)
    | Abandon(timer: nat)
    | Fire(client: string)
    | Cancel(client: string)
    | Remove(client: string)
    | Stop
    | Publish(serial: nat)

  const INIT := State(map[], map[], map[], map[], 0, 0, [], {})

  predicate Enabled(s: State, a: Action) {
    match a
    case Expire(t) => t in s.timers
    case Abandon(t) => t in s.timers && s.timers[t].cancelled
    case Publish(n) => n in s.sending
    case _ => true
  }

  // ---------------------------------------------------------------- the steps

  /** The cancel function of the client's timer, if it has one, is called and forgotten. */
  function StopTimer(s: State, c: string): State {
    if c !in s.armed then s
    else
      var t := s.armed[c];
      s.(armed := s.armed - {c},
         timers := if t in s.timers then s.timers[t := s.timers[t].(cancelled := true)] else s.timers)
  }

  /** The registration is dropped unpublished. */
  function Withdraw(s: State, c: string): State {
    if c !in s.wills then s else s.(wills := s.wills - {c}, withdrawn := s.withdrawn + {s.wills[c].serial})
  }

  /** The registration is taken out to be published. */
  function Take(s: State, c: string, cause: Option<nat>): State
    requires c in s.wills
  {
    s.(wills := s.wills - {c}, sending := s.sending[s.wills[c].serial := Sending(s.wills[c], cause)])
  }

  /** Both connections are known and they are not the same. */
  predicate Mismatch(conn: Option<nat>, owner: Option<nat>) {
    conn.Some? && owner.Some? && conn != owner
  }

  function Drop(s: State, c: string): State {
    Withdraw(StopTimer(s, c), c)
  }

  function DoRegister(s: State, c: string, conn: Option<nat>, delay: nat): State {
    var s' := Drop(s, c);
    s'.(wills := s'.wills[c := Will(s'.serials, conn, delay)], serials := s'.serials + 1)
  }

  function Arm(s: State, c: string, conn: Option<nat>): State
    requires c in s.wills
  {
    s.(armed := s.armed[c := s.clock], timers := s.timers[s.clock := Timer(c, s.wills[c], conn, false)],
      clock := s.clock + 1)
  }

  function DoTrigger(s: State, c: string, conn: Option<nat>): State {
    if c !in s.wills || Mismatch(conn, s.wills[c].conn) || c in s.armed then s
    else if s.wills[c].delay == 0 then Take(s, c, conn)
    else Arm(s, c, conn)
  }

  /** The timer went off: publish only what is still the same registration. */
  function DoExpire(s: State, t: nat): State
    requires t in s.timers
  {
    var timer := s.timers[t];
    var s' := s.(timers := s.timers - {t});
    if timer.client in s.wills && s.wills[timer.client] == timer.will
    then Take(s'.(armed := s'.armed - {timer.client}), timer.client, timer.cause)
    else s'
  }

  function CauseOf(s: State, c: string): Option<nat> {
    if c in s.armed && s.armed[c] in s.timers then s.timers[s.armed[c]].cause else None
  }

  function DoFire(s: State, c: string): State {
    if c in s.wills && c in s.armed then Take(StopTimer(s, c), c, CauseOf(s, c)) else s
  }

  /** Every armed timer is cancelled and every registration withdrawn. */
  function DoStop(s: State): State {
    s.(wills := map[], armed := map[],
       timers := map t | t in s.timers :: if t in s.armed.Values then s.timers[t].(cancelled := true) else s.timers[t],
       withdrawn := s.withdrawn + set c | c in s.wills :: s.wills[c].serial)
  }

  function Next(s: State, a: Action): State
    requires Enabled(s, a)
  {
    match a
    case Register(c, conn, delay) => DoRegister(s, c, conn, delay)
    case Trigger(c, conn) => DoTrigger(s, c, conn)
    case Expire(t) => DoExpire(s, t)
    case Abandon(t) => s.(timers := s.timers - {t})
    case Fire(c) => DoFire(s, c)
    case Cancel(c) => Drop(s, c)
    case Remove(c) => Drop(s, c)
    case Stop => DoStop(s)
    case Publish(n) => s.(sending := s.sending - {n}, published := s.published + [s.sending[n]])
  }

  ghost predicate IsRun(trace: seq<State>, acts: seq<Action>) {
    && |trace| == |acts| + 1
    && trace[0] == INIT
    && (forall i {:trigger acts[i]} :: 0 <= i < |acts| ==>
        Enabled(trace[i], acts[i]) && trace[i + 1] == Next(trace[i], acts[i]))
  }

  // ---------------------------------------------------------------- one place for every registration

  ghost predicate IsRegistered(s: State, n: nat) {
    exists c :: c in s.wills && s.wills[c].serial == n
  }

  ghost predicate IsPublished(s: State, n: nat) {
    exists i :: 0 <= i < |s.published| && s.published[i].will.serial == n
  }

  /** A registration is waiting, being sent, published or withdrawn, and never two of these. */
  ghost predicate Placed(s: State) {
    && (forall c, d :: c in s.wills && d in s.wills && c != d ==> s.wills[c].serial != s.wills[d].serial)
    && (forall n :: n in s.sending ==> s.sending[n].will.serial == n)
    && (forall i, j :: 0 <= i < j < |s.published| ==> s.published[i].will.serial != s.published[j].will.serial)
    && (forall c :: c in s.wills ==>
        var n := s.wills[c].serial; n < s.serials && n !in s.sending && n !in s.withdrawn && !IsPublished(s, n))
    && (forall n :: n in s.sending ==> n < s.serials && n !in s.withdrawn && !IsPublished(s, n))
    && (forall n :: n in s.withdrawn ==> n < s.serials && !IsPublished(s, n))
    && (forall i :: 0 <= i < |s.published| ==> s.published[i].will.serial < s.serials)
  }

  lemma TakePlaced(s: State, c: string, cause: Option<nat>)
    requires Placed(s) && c in s.wills
    ensures Placed(Take(s, c, cause))
  {
    var s' := Take(s, c, cause);
    assert forall n :: IsPublished(s', n) <==> IsPublished(s, n);
  }

  lemma WithdrawPlaced(s: State, c: string)
    requires Placed(s)
    ensures Placed(Withdraw(s, c))
  {
    var s' := Withdraw(s, c);
    assert forall n :: IsPublished(s', n) <==> IsPublished(s, n);
  }

  /** Timers do not matter here. */
  lemma SamePlaces(s: State, s': State)
    requires Placed(s) && s'.wills == s.wills && s'.sending == s.sending && s'.serials == s.serials
    requires s'.published == s.published && s'.withdrawn == s.withdrawn
    ensures Placed(s')
  {
  }

  lemma DropPlaced(s: State, c: string)
    requires Placed(s)
    ensures Placed(Drop(s, c))
  {
    SamePlaces(s, StopTimer(s, c));
    WithdrawPlaced(StopTimer(s, c), c);
  }

  lemma RegisterPlaced(s: State, c: string, conn: Option<nat>, delay: nat)
    requires Placed(s)
    ensures Placed(DoRegister(s, c, conn, delay))
  {
    DropPlaced(s, c);
    var d, s' := Drop(s, c), DoRegister(s, c, conn, delay);
    assert forall n :: IsPublished(s', n) <==> IsPublished(d, n);
  }

  lemma StopPlaced(s: State)
    requires Placed(s)
    ensures Placed(DoStop(s))
  {
  }

  lemma PublishPlaced(s: State, n: nat)
    requires Placed(s) && n in s.sending
    ensures Placed(Next(s, Publish(n)))
  {
    var s' := Next(s, Publish(n));
    forall m ensures IsPublished(s', m) <==> IsPublished(s, m) || m == n {
      if IsPublished(s, m) {
        var i :| 0 <= i < |s.published| && s.published[i].will.serial == m;
        assert s'.published[i].will.serial == m;
      }
      assert s'.published[|s.published|].will.serial == n;
    }
  }

  lemma TriggerPlaced(s: State, c: string, conn: Option<nat>)
    requires Placed(s)
    ensures Placed(DoTrigger(s, c, conn))
  {
    if c in s.wills {
      TakePlaced(s, c, conn);
      SamePlaces(s, Arm(s, c, conn));
    }
  }

  lemma ExpirePlaced(s: State, t: nat)
    requires Placed(s) && t in s.timers
    ensures Placed(DoExpire(s, t))
  {
    var timer := s.timers[t];
    var s' := s.(timers := s.timers - {t});
    SamePlaces(s, s');
    if timer.client in s.wills {
      SamePlaces(s, s'.(armed := s'.armed - {timer.client}));
      TakePlaced(s'.(armed := s'.armed - {timer.client}), timer.client, timer.cause);
    }
  }

  lemma FirePlaced(s: State, c: string)
    requires Placed(s)
    ensures Placed(DoFire(s, c))
  {
    SamePlaces(s, StopTimer(s, c));
    if c in s.wills {
      TakePlaced(StopTimer(s, c), c, CauseOf(s, c));
    }
  }

  lemma NextPlaced(s: State, a: Action)
    requires Placed(s) && Enabled(s, a)
    ensures Placed(Next(s, a))
  {
    match a
    case Register(c, conn, delay) => RegisterPlaced(s, c, conn, delay);
    case Trigger(c, conn) => TriggerPlaced(s, c, conn);
    case Expire(t) => ExpirePlaced(s, t);
    case Abandon(t) => SamePlaces(s, Next(s, a));
    case Fire(c) => FirePlaced(s, c);
    case Cancel(c) => DropPlaced(s, c);
    case Remove(c) => DropPlaced(s, c);
    case Stop => StopPlaced(s);
    case Publish(n) => PublishPlaced(s, n);
  }

  // ---------------------------------------------------------------- timers

  /** A timer entry belongs to the registered will; a timer whose will is still registered is that entry's. */
  ghost predicate Armed(s: State) {
    && (forall c :: c in s.armed ==> c in s.wills && s.armed[c] in s.timers)
    && (forall c :: c in s.armed ==>
        var t := s.timers[s.armed[c]]; t.client == c && t.will == s.wills[c] && !t.cancelled)
    && (forall t :: t in s.timers ==> t < s.clock)
    && (forall t ::
          t in s.timers && s.timers[t].client in s.wills && s.wills[s.timers[t].client] == s.timers[t].will ==>
            s.timers[t].client in s.armed && s.armed[s.timers[t].client] == t)
    && (forall t :: t in s.timers ==> s.timers[t].will.serial < s.serials)
    && (forall c :: c in s.wills ==> s.wills[c].serial < s.serials)
  }

  lemma DropArmed(s: State, c: string)
    requires Armed(s)
    ensures Armed(Drop(s, c))
  {
  }

  lemma RegisterArmed(s: State, c: string, conn: Option<nat>, delay: nat)
    requires Armed(s)
    ensures Armed(DoRegister(s, c, conn, delay))
  {
    DropArmed(s, c);
    assert c !in Drop(s, c).armed;
  }

  lemma NextArmed(s: State, a: Action)
    requires Armed(s) && Enabled(s, a)
    ensures Armed(Next(s, a))
  {
    match a
    case Register(c, conn, delay) => RegisterArmed(s, c, conn, delay);
    case Cancel(c) => DropArmed(s, c);
    case Remove(c) => DropArmed(s, c);
    case Trigger(c, conn) => TriggerArmed(s, c, conn);
    case Expire(t) => ExpireArmed(s, t);
    case Abandon(t) =>
    case Fire(c) => FireArmed(s, c);
    case Stop =>
    case Publish(n) =>
  }

  lemma TriggerArmed(s: State, c: string, conn: Option<nat>)
    requires Armed(s)
    ensures Armed(DoTrigger(s, c, conn))
  {
    if c in s.wills && c !in s.armed {
      TakeArmed(s, c, conn);
      ArmArmed(s, c, conn);
    }
  }

  lemma TakeArmed(s: State, c: string, cause: Option<nat>)
    requires Armed(s) && c in s.wills && c !in s.armed
    ensures Armed(Take(s, c, cause))
  {
  }

  lemma ArmArmed(s: State, c: string, conn: Option<nat>)
    requires Armed(s) && c in s.wills && c !in s.armed
    ensures Armed(Arm(s, c, conn))
  {
  }

  lemma ExpireArmed(s: State, t: nat)
    requires Armed(s) && t in s.timers
    ensures Armed(DoExpire(s, t))
  {
  }

  lemma FireArmed(s: State, c: string)
    requires Armed(s)
    ensures Armed(DoFire(s, c))
  {
  }

  // ---------------------------------------------------------------- who set it off

  /** Whatever is waiting to go out, or went out, was set off by the connection that registered it. */
  ghost predicate Owned(s: State) {
    && (forall t :: t in s.timers ==> !Mismatch(s.timers[t].cause, s.timers[t].will.conn))
    && (forall n :: n in s.sending ==> !Mismatch(s.sending[n].cause, s.sending[n].will.conn))
    && (forall i :: 0 <= i < |s.published| ==> !Mismatch(s.published[i].cause, s.published[i].will.conn))
  }

  lemma StopTimerOwned(s: State, c: string)
    requires Owned(s)
    ensures Owned(StopTimer(s, c)) && Owned(Drop(s, c))
  {
  }

  lemma ExpireOwned(s: State, t: nat)
    requires Owned(s) && t in s.timers
    ensures Owned(DoExpire(s, t))
  {
  }

  lemma FireOwned(s: State, c: string)
    requires Owned(s) && Armed(s)
    ensures Owned(DoFire(s, c))
  {
  }

  lemma TriggerOwned(s: State, c: string, conn: Option<nat>)
    requires Owned(s)
    ensures Owned(DoTrigger(s, c, conn))
  {
  }

  lemma NextOwned(s: State, a: Action)
    requires Owned(s) && Armed(s) && Enabled(s, a)
    ensures Owned(Next(s, a))
  {
    match a
    case Register(c, conn, delay) => StopTimerOwned(s, c);
    case Cancel(c) => StopTimerOwned(s, c);
    case Remove(c) => StopTimerOwned(s, c);
    case Trigger(c, conn) => TriggerOwned(s, c, conn);
    case Expire(t) => ExpireOwned(s, t);
    case Abandon(t) =>
    case Fire(c) => FireOwned(s, c);
    case Stop =>
    case Publish(n) =>
  }

  // ---------------------------------------------------------------- delays

  /** A timer runs only for a will with a delay, and one that is not cancelled is the one its client's entry names. */
  ghost predicate Delayed(s: State) {
    && (forall t :: t in s.timers ==> s.timers[t].will.delay > 0)
    && (forall t :: t in s.timers && !s.timers[t].cancelled ==>
          s.timers[t].client in s.armed && s.armed[s.timers[t].client] == t)
  }

  lemma TriggerDelayed(s: State, c: string, conn: Option<nat>)
    requires Delayed(s) && Armed(s)
    ensures Delayed(DoTrigger(s, c, conn))
  {
  }

  lemma ExpireDelayed(s: State, t: nat)
    requires Delayed(s) && Armed(s) && t in s.timers
    ensures Delayed(DoExpire(s, t))
  {
  }

  lemma StopTimerDelayed(s: State, c: string)
    requires Delayed(s) && Armed(s)
    ensures Delayed(StopTimer(s, c))
  {
  }

  lemma StopDelayed(s: State)
    requires Delayed(s) && Armed(s)
    ensures Delayed(DoStop(s))
  {
  }

  /** Wills do not matter here. */
  lemma SameTimers(s: State, s': State)
    requires Delayed(s) && s'.timers == s.timers && s'.armed == s.armed
    ensures Delayed(s')
  {
  }

  lemma NextDelayed(s: State, a: Action)
    requires Delayed(s) && Armed(s) && Enabled(s, a)
    ensures Delayed(Next(s, a))
  {
    match a
    case Register(c, _, _) =>
      StopTimerDelayed(s, c);
      SameTimers(StopTimer(s, c), Next(s, a));
    case Cancel(c) =>
      StopTimerDelayed(s, c);
      SameTimers(StopTimer(s, c), Next(s, a));
    case Remove(c) =>
      StopTimerDelayed(s, c);
      SameTimers(StopTimer(s, c), Next(s, a));
    case Trigger(c, conn) => TriggerDelayed(s, c, conn);
    case Expire(t) => ExpireDelayed(s, t);
    case Abandon(t) =>
    case Fire(c) =>
      StopTimerDelayed(s, c);
      SameTimers(if c in s.wills && c in s.armed then StopTimer(s, c) else s, Next(s, a));
    case Stop => StopDelayed(s);
    case Publish(n) => SameTimers(s, Next(s, a));
  }

  // ---------------------------------------------------------------- every run

  ghost predicate Inv(s: State) {
    Placed(s) && Armed(s) && Owned(s) && Delayed(s)
  }

  lemma {:induction false} RunInv(trace: seq<State>, acts: seq<Action>, i: nat)
    requires IsRun(trace, acts) && i < |trace|
    ensures Inv(trace[i])
    decreases i
  {
    if i > 0 {
      RunInv(trace, acts, i - 1);
      var s, a := trace[i - 1], acts[i - 1];
      NextPlaced(s, a);
      NextArmed(s, a);
      NextOwned(s, a);
      NextDelayed(s, a);
    }
  }

  /** In every run each registration is published at most once, and not at all once it was withdrawn: by removal,
  cancellation, replacement or the handler stopping. */
  lemma PublishedAtMostOnce(trace: seq<State>, acts: seq<Action>, i: nat)
    requires IsRun(trace, acts) && i < |trace|
    ensures var s := trace[i];
            forall j, k :: 0 <= j < k < |s.published| ==> s.published[j].will.serial != s.published[k].will.serial
    ensures var s := trace[i]; forall j :: 0 <= j < |s.published| ==> s.published[j].will.serial !in s.withdrawn
    ensures var s := trace[i]; forall j :: 0 <= j < |s.published| ==> !IsRegistered(s, s.published[j].will.serial)
  {
    RunInv(trace, acts, i);
    var s := trace[i];
    forall j | 0 <= j < |s.published|
      ensures s.published[j].will.serial !in s.withdrawn && !IsRegistered(s, s.published[j].will.serial)
    {
      assert IsPublished(s, s.published[j].will.serial);
    }
  }

  lemma {:induction false} WithdrawnGrows(trace: seq<State>, acts: seq<Action>, i: nat, j: nat)
    requires IsRun(trace, acts) && i <= j < |trace|
    ensures trace[i].withdrawn <= trace[j].withdrawn
    decreases j
  {
    if i < j {
      WithdrawnGrows(trace, acts, i, j - 1);
      var s, a := trace[j - 1], acts[j - 1];
      assert s.withdrawn <= Next(s, a).withdrawn;
    }
  }

  /** From the step that withdraws a registration on, no later step publishes it. */
  lemma NeverAfterWithdrawal(trace: seq<State>, acts: seq<Action>, i: nat, j: nat, n: nat)
    requires IsRun(trace, acts) && i <= j < |acts| && n in trace[i].withdrawn
    ensures !(acts[j].Publish? && acts[j].serial == n)
  {
    WithdrawnGrows(trace, acts, i, j);
    RunInv(trace, acts, j);
    assert Enabled(trace[j], acts[j]);
  }

  /** What is published was set off by the connection that registered it, as far as both are known. */
  lemma NeverByAnother(trace: seq<State>, acts: seq<Action>, i: nat, j: nat)
    requires IsRun(trace, acts) && i < |trace| && j < |trace[i].published|
    ensures !Mismatch(trace[i].published[j].cause, trace[i].published[j].will.conn)
  {
    RunInv(trace, acts, i);
  }

  /** Every timer entry has a registered will, and is that will's own. */
  lemma ArmedHasWill(trace: seq<State>, acts: seq<Action>, i: nat, c: string)
    requires IsRun(trace, acts) && i < |trace| && c in trace[i].armed
    ensures var s := trace[i]; c in s.wills && s.armed[c] in s.timers && s.timers[s.armed[c]].will == s.wills[c]
  {
    RunInv(trace, acts, i);
  }

  /** In every run a will with a delay leaves only when a timer of its own registration goes off, or when it is fired
  while its timer runs; a will without one leaves only at a trigger. */
  lemma LeavesByTimerIffDelayed(trace: seq<State>, acts: seq<Action>, i: nat, n: nat)
    requires IsRun(trace, acts) && i < |acts| && n in trace[i + 1].sending && n !in trace[i].sending
    ensures var (s, a, w) := (trace[i], acts[i], trace[i + 1].sending[n].will);
            if w.delay > 0 then
              || (a.Expire? && s.timers[a.timer].will == w)
              || (a.Fire? && a.client in s.wills && s.wills[a.client] == w && a.client in s.armed)
            else a.Trigger? && a.client in s.wills && s.wills[a.client] == w
  {
    RunInv(trace, acts, i);
    assert Enabled(trace[i], acts[i]) && trace[i + 1] == Next(trace[i], acts[i]);
  }

  /** In every run a trigger by the will's own connection, or by none that is known, takes a will without delay out to
  be published at once. A will with a delay stays registered, and from then on has one timer that is not cancelled, on
  the same registration. Any other trigger changes nothing. */
  lemma TriggerTakesOrArms(trace: seq<State>, acts: seq<Action>, i: nat, c: string, conn: Option<nat>)
    requires IsRun(trace, acts) && i < |acts| && acts[i] == Trigger(c, conn)
    ensures var (s, t) := (trace[i], trace[i + 1]);
            if c !in s.wills || (conn.Some? && s.wills[c].conn.Some? && conn != s.wills[c].conn) then t == s
            else if s.wills[c].delay == 0 then
              && t.wills == s.wills - {c} && t.armed == s.armed && t.timers == s.timers
              && t.sending == s.sending[s.wills[c].serial := Sending(s.wills[c], conn)]
            else
              && t.wills == s.wills && t.sending == s.sending && c in t.armed && t.armed[c] in t.timers
              && t.timers[t.armed[c]].client == c && t.timers[t.armed[c]].will == s.wills[c]
              && !t.timers[t.armed[c]].cancelled && (c !in s.armed ==> t.timers[t.armed[c]].cause == conn)
              && (forall k :: k in t.timers && t.timers[k].client == c && !t.timers[k].cancelled ==> k == t.armed[c])
  {
    RunInv(trace, acts, i);
    RunInv(trace, acts, i + 1);
    assert trace[i + 1] == Next(trace[i], acts[i]);
  }

  /** In every run a timer that goes off takes its will out if that very registration still stands, and otherwise takes
  nothing. */
  lemma ExpiryTakesItsOwn(trace: seq<State>, acts: seq<Action>, i: nat, k: nat)
    requires IsRun(trace, acts) && i < |acts| && acts[i] == Expire(k)
    ensures var (s, t) := (trace[i], trace[i + 1]);
            && k in s.timers
            && var (c, w) := (s.timers[k].client, s.timers[k].will);
               if c in s.wills && s.wills[c] == w then
                 t.wills == s.wills - {c} && t.sending == s.sending[w.serial := Sending(w, s.timers[k].cause)]
               else t.wills == s.wills && t.sending == s.sending
  {
    assert Enabled(trace[i], acts[i]) && trace[i + 1] == Next(trace[i], acts[i]);
  }

  /** In every run a fired will goes out if and only if its timer runs, on behalf of the connection that started it. */
  lemma FireTakesIffArmed(trace: seq<State>, acts: seq<Action>, i: nat, c: string)
    requires IsRun(trace, acts) && i < |acts| && acts[i] == Fire(c)
    ensures var (s, t) := (trace[i], trace[i + 1]);
            if c in s.armed then
              && c in s.wills && s.armed[c] in s.timers && t.wills == s.wills - {c} && c !in t.armed
              && t.sending == s.sending[s.wills[c].serial := Sending(s.wills[c], s.timers[s.armed[c]].cause)]
            else t == s
  {
    RunInv(trace, acts, i);
    assert trace[i + 1] == Next(trace[i], acts[i]);
  }

  // ---------------------------------------------------------------- what was registered

  /** The will is registered, timed, being sent or published. */
  ghost predicate Known(s: State, w: Will) {
    || (exists c :: c in s.wills && s.wills[c] == w)
    || (exists t :: t in s.timers && s.timers[t].will == w)
    || (exists n :: n in s.sending && s.sending[n].will == w)
    || (exists i :: 0 <= i < |s.published| && s.published[i].will == w)
  }

  lemma DropKnown(s: State, c: string, w: Will)
    requires Known(Drop(s, c), w)
    ensures Known(s, w)
  {
  }

  lemma TriggerKnown(s: State, c: string, conn: Option<nat>, w: Will)
    requires Known(DoTrigger(s, c, conn), w)
    ensures Known(s, w)
  {
  }

  lemma ExpireKnown(s: State, t: nat, w: Will)
    requires t in s.timers && Known(DoExpire(s, t), w)
    ensures Known(s, w)
  {
  }

  lemma FireKnown(s: State, c: string, w: Will)
    requires Known(DoFire(s, c), w)
    ensures Known(s, w)
  {
  }

  lemma PublishKnown(s: State, n: nat, w: Will)
    requires n in s.sending && Known(Next(s, Publish(n)), w)
    ensures Known(s, w)
  {
  }

  lemma RegisterKnown(s: State, c: string, conn: Option<nat>, delay: nat, w: Will)
    requires Known(DoRegister(s, c, conn, delay), w) && w != Will(s.serials, conn, delay)
    ensures Known(s, w)
  {
    var d, t := Drop(s, c), DoRegister(s, c, conn, delay);
    if exists k :: k in t.wills && t.wills[k] == w {
      var k :| k in t.wills && t.wills[k] == w;
      assert k in d.wills && d.wills[k] == w;
    }
    assert Known(d, w);
    DropKnown(s, c, w);
  }

  lemma KnownBefore(s: State, a: Action, w: Will)
    requires Enabled(s, a) && Known(Next(s, a), w)
    ensures Known(s, w) || (a.Register? && w == Will(s.serials, a.conn, a.delay))
  {
    match a
    case Register(c, conn, delay) =>
      if w != Will(s.serials, conn, delay) { RegisterKnown(s, c, conn, delay, w); }
    case Trigger(c, conn) => TriggerKnown(s, c, conn, w);
    case Expire(t) => ExpireKnown(s, t, w);
    case Abandon(t) =>
    case Fire(c) => FireKnown(s, c, w);
    case Cancel(c) => DropKnown(s, c, w);
    case Remove(c) => DropKnown(s, c, w);
    case Stop =>
    case Publish(n) => PublishKnown(s, n, w);
  }

  /** In every run every will, wherever it has got to, was registered by one action with this connection and delay. */
  lemma {:induction false} KnownWasRegistered(trace: seq<State>, acts: seq<Action>, n: nat, w: Will) returns (i: nat)
    requires IsRun(trace, acts) && n < |trace| && Known(trace[n], w)
    ensures i < n && acts[i].Register? && w == Will(trace[i].serials, acts[i].conn, acts[i].delay)
  {
    if n > 0 {
      assert Enabled(trace[n - 1], acts[n - 1]) && trace[n] == Next(trace[n - 1], acts[n - 1]);
      KnownBefore(trace[n - 1], acts[n - 1], w);
      if Known(trace[n - 1], w) {
        i := KnownWasRegistered(trace, acts, n - 1, w);
      } else {
        i := n - 1;
      }
    }
  }

  /** All of the client's timers are cancelled and no other client's timer is touched. */
  ghost predicate StoppedFor(s: State, t: State, c: string) {
    && (forall k :: k in t.timers && t.timers[k].client == c ==> t.timers[k].cancelled)
    && (forall k :: k in s.timers && s.timers[k].client != c ==> k in t.timers && t.timers[k] == s.timers[k])
    && t.sending == s.sending && t.published == s.published
  }

  lemma DropStops(s: State, c: string)
    requires Armed(s) && Delayed(s)
    ensures StoppedFor(s, Drop(s, c), c) && Drop(s, c).armed == s.armed - {c}
  {
  }

  lemma DropWithdraws(s: State, c: string)
    ensures Drop(s, c).wills == s.wills - {c} && Drop(s, c).serials == s.serials
    ensures Drop(s, c).withdrawn == s.withdrawn + (if c in s.wills then {s.wills[c].serial} else {})
  {
  }

  /** In every run a registration replaces the client's earlier one, stops that one's timer, and touches no other. */
  lemma RegisterReplaces(trace: seq<State>, acts: seq<Action>, i: nat, c: string, conn: Option<nat>, delay: nat)
    requires IsRun(trace, acts) && i < |acts| && acts[i] == Register(c, conn, delay)
    ensures var (s, t) := (trace[i], trace[i + 1]);
            && t.wills == s.wills[c := Will(s.serials, conn, delay)] && t.armed == s.armed - {c}
            && t.withdrawn == s.withdrawn + (if c in s.wills then {s.wills[c].serial} else {})
            && StoppedFor(s, t, c)
  {
    RunInv(trace, acts, i);
    DropStops(trace[i], c);
    DropWithdraws(trace[i], c);
    assert trace[i + 1] == Next(trace[i], acts[i]);
    var w := Will(trace[i].serials, conn, delay);
    assert (trace[i].wills - {c})[c := w] == trace[i].wills[c := w];
  }

  /** In every run cancelling or removing a client's will withdraws it and stops its timer, and touches no other. */
  lemma WithdrawnAlone(trace: seq<State>, acts: seq<Action>, i: nat, c: string)
    requires IsRun(trace, acts) && i < |acts| && (acts[i] == Cancel(c) || acts[i] == Remove(c))
    ensures var (s, t) := (trace[i], trace[i + 1]);
            && t.wills == s.wills - {c} && t.armed == s.armed - {c}
            && t.withdrawn == s.withdrawn + (if c in s.wills then {s.wills[c].serial} else {})
            && StoppedFor(s, t, c)
  {
    RunInv(trace, acts, i);
    DropStops(trace[i], c);
    DropWithdraws(trace[i], c);
    assert trace[i + 1] == Next(trace[i], acts[i]);
  }

  /** Stopping the handler withdraws every will and leaves no timer running. */
  lemma StopEndsAll(trace: seq<State>, acts: seq<Action>, i: nat)
    requires IsRun(trace, acts) && i < |acts| && acts[i] == Stop
    ensures var (s, t) := (trace[i], trace[i + 1]);
            && t.wills == map[] && t.armed == map[] && t.sending == s.sending && t.published == s.published
            && (forall c :: c in s.wills ==> s.wills[c].serial in t.withdrawn)
            && (forall k :: k in t.timers ==> t.timers[k].cancelled)
  {
    RunInv(trace, acts, i + 1);
    assert trace[i + 1] == Next(trace[i], acts[i]);
  }

  // ---------------------------------------------------------------- the handler

  /** The handler's maps and goroutines. Each method is one critical section, and does what its step says. */
  class WillHandler {
    var wills: map<string, Will>
    var armed: map<string, nat>
    var timers: map<nat, Timer>
    var sending: map<nat, Sending>
    var serials: nat
    var clock: nat
    ghost var published: seq<Sending>
    ghost var withdrawn: set<nat>

    ghost function Now(): State
      reads this
    {
      State(wills, armed, timers, sending, serials, clock, published, withdrawn)
    }

    constructor ()
      ensures Now() == INIT
    {
      wills, armed, timers, sending, serials, clock := map[], map[], map[], map[], 0, 0;
      published, withdrawn := [], {};
    }

    method StopTimerLocked(clientID: string)
      modifies this
      ensures Now() == StopTimer(old(Now()), clientID)
    {
      if clientID in armed {
        var t := armed[clientID];
        if t in timers {
          timers := timers[t := timers[t].(cancelled := true)];
        }
        armed := armed - {clientID};
      }
    }

    method RegisterWill(clientID: string, conn: Option<nat>, delay: nat)
      modifies this
      ensures Now() == Next(old(Now()), Register(clientID, conn, delay))
    {
      StopTimerLocked(clientID);
      if clientID in wills {
        withdrawn := withdrawn + {wills[clientID].serial};
      }
      wills := wills[clientID := Will(serials, conn, delay)];
      serials := serials + 1;
      assert old(wills)[clientID := wills[clientID]] == (old(wills) - {clientID})[clientID := wills[clientID]];
    }

    method TriggerWill(clientID: string, conn: Option<nat>)
      modifies this
      ensures Now() == Next(old(Now()), Trigger(clientID, conn))
    {
      if clientID !in wills {
        return;
      }
      var will := wills[clientID];
      if conn.Some? && will.conn.Some? && will.conn != conn {
        return;
      }
      if clientID in armed {
        return;
      }
      if will.delay == 0 {
        wills := wills - {clientID};
        sending := sending[will.serial := Sending(will, conn)];
        return;
      }
      armed := armed[clientID := clock];
      timers := timers[clock := Timer(clientID, will, conn, false)];
      clock := clock + 1;
    }

    method TimerExpired(t: nat)
      requires t in timers
      modifies this
      ensures Now() == Next(old(Now()), Expire(t))
    {
      var timer := timers[t];
      timers := timers - {t};
      var ours := timer.client in wills && wills[timer.client] == timer.will;
      if ours {
        wills := wills - {timer.client};
        armed := armed - {timer.client};
        sending := sending[timer.will.serial := Sending(timer.will, timer.cause)];
      }
    }

    method FireWill(clientID: string)
      modifies this
      ensures Now() == Next(old(Now()), Fire(clientID))
    {
      if clientID !in wills || clientID !in armed {
        return;
      }
      var will := wills[clientID];
      var cause := if armed[clientID] in timers then timers[armed[clientID]].cause else None;
      StopTimerLocked(clientID);
      wills := wills - {clientID};
      sending := sending[will.serial := Sending(will, cause)];
    }

    method CancelWill(clientID: string)
      modifies this
      ensures Now() == Next(old(Now()), Cancel(clientID))
    {
      StopTimerLocked(clientID);
      if clientID in wills {
        withdrawn := withdrawn + {wills[clientID].serial};
        wills := wills - {clientID};
      }
    }

    /** Cancel every armed timer, then forget everything. */
    method StopAll()
      modifies this
      ensures Now() == Next(old(Now()), Stop)
    {
      var keys := armed.Keys;
      ghost var done: set<string> := {};
      while keys != {}
        invariant keys <= armed.Keys && done == armed.Keys - keys
        invariant wills == old(wills) && armed == old(armed) && sending == old(sending) && serials == old(serials) &&
            clock == old(clock)
        invariant published == old(published) && withdrawn == old(withdrawn)
        invariant timers.Keys == old(timers).Keys
        invariant forall t :: t in timers ==>
          timers[t] == if exists c :: c in done && armed[c] == t then old(timers)[t].(cancelled := true)
                       else old(timers)[t]
      {
        var c :| c in keys;
        var t := armed[c];
        if t in timers {
          timers := timers[t := timers[t].(cancelled := true)];
        }
        keys, done := keys - {c}, done + {c};
      }
      assert timers == DoStop(old(Now())).timers;
      withdrawn := withdrawn + set c | c in wills :: wills[c].serial;
      wills, armed := map[], map[];
    }

    method RemoveWill(clientID: string)
      modifies this
      ensures Now() == Next(old(Now()), Remove(clientID))
    {
      if clientID in wills {
        withdrawn := withdrawn + {wills[clientID].serial};
        wills := wills - {clientID};
      }
      StopTimerLocked(clientID);
    }
  }
}
