/** The retained-topic counter: publishers on striped locks and the expiry sweep, as interleaved steps. */
module RetainedCount {
  import opened Basics

  const STRIPES: nat := 64

  /** `stripe` is whatever hash the topic goes through; `ttl` zero means the operator sets none. */
  datatype Config = Config(stripe: string -> nat, maxTopics: nat, ttl: nat)

  ghost predicate Hashes(cfg: Config) {
    forall t :: cfg.stripe(t) < STRIPES
  }

  /** A stored message: when it was stored, and its own deadline (zero for none). */
  datatype Message = Message(storedAt: nat, expiresAt: nat)

  /** The sooner of the message's own deadline and the operator's. */
  function Deadline(cfg: Config, m: Message): nat {
    if cfg.ttl > 0 && (m.expiresAt == 0 || m.storedAt + cfg.ttl < m.expiresAt) then m.storedAt + cfg.ttl
    else m.expiresAt
  }

  /** Where a publisher stands while it holds its stripe. `empty` asks for deletion. */
  datatype Phase =
    | Locked(topic: string, empty: bool, msg: Message)
    | Admitted(topic: string, empty: bool, msg: Message, existed: bool)
    | Written(topic: string, empty: bool, msg: Message, existed: bool)
    | Counted(topic: string, empty: bool, msg: Message)

  datatype Sweep =
    | Idle
    | Scanning(now: nat, todo: set<string>)
    | Holding(now: nat, todo: set<string>, topic: string)
    | Doomed(now: nat, todo: set<string>, topic: string)
    | Gone(now: nat, todo: set<string>, topic: string)
    | Uncounted(now: nat, todo: set<string>)

  datatype State = State(store: map<string, Message>, expires: map<string, nat>, count: int, procs: map<nat, Phase>,
                         sweep: Sweep)

  datatype Action =
    | Lock(p: nat, topic: string, empty: bool, msg: Message)
    | Check(p: nat)
    | Write(p: nat)
    | Count(p: nat)
    | Finish(p: nat)
    | SweepScan(now: nat)
    | SweepLock(topic: string)
    | SweepCheck
    | SweepDelete
    | SweepForget
    | SweepCount
    | SweepEnd

  predicate SweepHolds(w: Sweep) {
    w.Holding? || w.Doomed? || w.Gone?
  }

  ghost predicate Free(cfg: Config, s: State, i: nat) {
    && (forall p :: p in s.procs ==> cfg.stripe(s.procs[p].topic) != i)
    && (SweepHolds(s.sweep) ==> cfg.stripe(s.sweep.topic) != i)
  }

  /** A new topic past the limit is dropped. */
  predicate Refused(cfg: Config, s: State, ph: Phase) {
    !ph.empty && ph.topic !in s.store && cfg.maxTopics > 0 && s.count >= cfg.maxTopics
  }

  ghost predicate Enabled(cfg: Config, s: State, a: Action) {
    match a
    case Lock(p, topic, _, _) => p !in s.procs && Free(cfg, s, cfg.stripe(topic))
    case Check(p) => p in s.procs && s.procs[p].Locked?
    case Write(p) => p in s.procs && s.procs[p].Admitted?
    case Count(p) => p in s.procs && s.procs[p].Written?
    case Finish(p) => p in s.procs && s.procs[p].Counted?
    case SweepScan(_) => s.sweep.Idle?
    case SweepLock(topic) => s.sweep.Scanning? && topic in s.sweep.todo && Free(cfg, s, cfg.stripe(topic))
    case SweepCheck => s.sweep.Holding?
    case SweepDelete => s.sweep.Doomed?
    case SweepForget => s.sweep.Gone?
    case SweepCount => s.sweep.Uncounted?
    case SweepEnd => s.sweep.Scanning? && s.sweep.todo == {}
  }

  function Expired(expires: map<string, nat>, now: nat): set<string> {
    set t | t in expires && expires[t] < now
  }

  function Track(cfg: Config, expires: map<string, nat>, ph: Phase): map<string, nat> {
    if ph.empty || Deadline(cfg, ph.msg) == 0 then expires - {ph.topic} else expires[ph.topic := Deadline(cfg, ph.msg)]
  }

  ghost function Next(cfg: Config, s: State, a: Action): State
    requires Enabled(cfg, s, a)
  {
    match a
    case Lock(p, topic, empty, msg) => s.(procs := s.procs[p := Locked(topic, empty, msg)])
    case Check(p) =>
      var ph := s.procs[p];
      if Refused(cfg, s, ph) then s.(procs := s.procs - {p})
      else s.(procs := s.procs[p := Admitted(ph.topic, ph.empty, ph.msg, ph.topic in s.store)])
    case Write(p) =>
      var ph := s.procs[p];
      s.(store := if ph.empty then s.store - {ph.topic} else s.store[ph.topic := ph.msg],
         procs := s.procs[p := Written(ph.topic, ph.empty, ph.msg, ph.existed)])
    case Count(p) =>
      var ph := s.procs[p];
      s.(count := s.count + (if ph.empty then (if ph.existed then -1 else 0) else (if ph.existed then 0 else 1)),
         procs := s.procs[p := Counted(ph.topic, ph.empty, ph.msg)])
    case Finish(p) =>
      s.(expires := Track(cfg, s.expires, s.procs[p]), procs := s.procs - {p})
    case SweepScan(now) => s.(sweep := Scanning(now, Expired(s.expires, now)))
    case SweepLock(topic) => s.(sweep := Holding(s.sweep.now, s.sweep.todo - {topic}, topic))
    case SweepCheck =>
      var w := s.sweep;
      if w.topic in s.expires && s.expires[w.topic] < w.now then s.(sweep := Doomed(w.now, w.todo, w.topic))
      else s.(sweep := Scanning(w.now, w.todo))
    case SweepDelete => s.(store := s.store - {s.sweep.topic}, sweep := Gone(s.sweep.now, s.sweep.todo, s.sweep.topic))
    case SweepForget => s.(expires := s.expires - {s.sweep.topic}, sweep := Uncounted(s.sweep.now, s.sweep.todo))
    case SweepCount => s.(count := s.count - 1, sweep := Scanning(s.sweep.now, s.sweep.todo))
    case SweepEnd => s.(sweep := Idle)
  }

  /** The broker starts from whatever the store holds, and rebuilds the rest from it. */
  ghost function Init(cfg: Config, store: map<string, Message>): State {
    State(store, map t | t in store && Deadline(cfg, store[t]) != 0 :: Deadline(cfg, store[t]), |store|, map[], Idle)
  }

  ghost predicate Step(cfg: Config, s: State, a: Action, s': State) {
    Enabled(cfg, s, a) && s' == Next(cfg, s, a)
  }

  ghost predicate IsRun(cfg: Config, trace: seq<State>, acts: seq<Action>) {
    && |trace| == |acts| + 1
    && trace[0] == Init(cfg, trace[0].store)
    && (forall i {:trigger acts[i]} :: 0 <= i < |acts| ==> Step(cfg, trace[i], acts[i], trace[i + 1]))
  }

  // ---------------------------------------------------------------- the stripes

  ghost predicate Exclusive(cfg: Config, s: State) {
    && (forall p, q :: p in s.procs && q in s.procs && p != q ==>
        cfg.stripe(s.procs[p].topic) != cfg.stripe(s.procs[q].topic))
    && (SweepHolds(s.sweep) ==> forall p :: p in s.procs ==> cfg.stripe(s.procs[p].topic) != cfg.stripe(s.sweep.topic))
  }

  lemma ExclusiveStep(cfg: Config, s: State, a: Action)
    requires Exclusive(cfg, s) && Enabled(cfg, s, a)
    ensures Exclusive(cfg, Next(cfg, s, a))
  {
  }

  // ---------------------------------------------------------------- what a holder knows

  /** A publisher's view of its topic is still true, because nobody else may touch it. */
  ghost predicate Sees(s: State, ph: Phase) {
    match ph
    case Locked(_, _, _) => true
    case Admitted(t, _, _, existed) => existed <==> t in s.store
    case Written(t, empty, msg, _) => if empty then t !in s.store else t in s.store && s.store[t] == msg
    case Counted(t, empty, msg) => if empty then t !in s.store else t in s.store && s.store[t] == msg
  }

  ghost predicate AllSee(s: State) {
    forall p :: p in s.procs ==> Sees(s, s.procs[p])
  }

  lemma AllSeeStep(cfg: Config, s: State, a: Action)
    requires Exclusive(cfg, s) && AllSee(s) && Enabled(cfg, s, a)
    ensures AllSee(Next(cfg, s, a))
  {
    var s' := Next(cfg, s, a);
    forall p | p in s'.procs ensures Sees(s', s'.procs[p]) {
      if p in s.procs {
        assert Sees(s, s.procs[p]);
      }
    }
  }

  // ---------------------------------------------------------------- the expiry map

  /** Some holder has changed the store for the topic and not yet the expiry map. */
  ghost predicate InFlux(s: State, t: string) {
    || (exists p :: p in s.procs && (s.procs[p].Written? || s.procs[p].Counted?) && s.procs[p].topic == t)
    || (s.sweep.Gone? && s.sweep.topic == t)
  }

  ghost predicate TracksTopic(cfg: Config, s: State, t: string) {
    && (t in s.expires <==> t in s.store && Deadline(cfg, s.store[t]) != 0)
    && (t in s.expires ==> s.expires[t] == Deadline(cfg, s.store[t]))
  }

  /** Outside those moments the map holds exactly the deadlines of the stored messages. */
  ghost predicate Tracks(cfg: Config, s: State) {
    forall t :: InFlux(s, t) || TracksTopic(cfg, s, t)
  }

  /** What the sweep knows of the topic it holds: doomed means past the recorded deadline, gone means not stored. */
  ghost predicate SweepSees(s: State) {
    && (s.sweep.Doomed? ==> s.sweep.topic in s.expires && s.expires[s.sweep.topic] < s.sweep.now)
    && (s.sweep.Gone? ==> s.sweep.topic !in s.store)
  }

  lemma SweepSeesStep(cfg: Config, s: State, a: Action)
    requires Exclusive(cfg, s) && SweepSees(s) && Enabled(cfg, s, a)
    ensures SweepSees(Next(cfg, s, a))
  {
  }

  lemma FluxStays(cfg: Config, s: State, a: Action, t: string)
    requires Exclusive(cfg, s) && Enabled(cfg, s, a) && InFlux(s, t)
    ensures || InFlux(Next(cfg, s, a), t)
            || (a.Finish? && s.procs[a.p].topic == t)
            || (a.SweepForget? && s.sweep.topic == t)
  {
    var s' := Next(cfg, s, a);
    if p :| p in s.procs && (s.procs[p].Written? || s.procs[p].Counted?) && s.procs[p].topic == t {
      if !(a.Finish? && a.p == p) {
        assert p in s'.procs && (s'.procs[p].Written? || s'.procs[p].Counted?) && s'.procs[p].topic == t;
      }
    }
  }

  lemma TracksStep(cfg: Config, s: State, a: Action)
    requires Exclusive(cfg, s) && AllSee(s) && SweepSees(s) && Tracks(cfg, s) && Enabled(cfg, s, a)
    ensures Tracks(cfg, Next(cfg, s, a))
  {
    var s' := Next(cfg, s, a);
    forall t ensures InFlux(s', t) || TracksTopic(cfg, s', t) {
      if InFlux(s, t) {
        FluxStays(cfg, s, a, t);
        if a.Finish? && s.procs[a.p].topic == t {
          assert Sees(s, s.procs[a.p]);
        }
      } else if a.Write? && s.procs[a.p].topic == t {
        assert a.p in s'.procs && s'.procs[a.p].Written? && s'.procs[a.p].topic == t;
      }
    }
  }

  // ---------------------------------------------------------------- the balance

  /** Publishers that have added a topic to the store and not yet to the count. */
  function Ahead(s: State): set<nat> {
    set p | p in s.procs && s.procs[p].Written? && !s.procs[p].empty && !s.procs[p].existed
  }

  /** Publishers that have taken a topic out of the store and not yet off the count. */
  function Behind(s: State): set<nat> {
    set p | p in s.procs && s.procs[p].Written? && s.procs[p].empty && s.procs[p].existed
  }

  function SweepDebt(w: Sweep): nat {
    if w.Gone? || w.Uncounted? then 1 else 0
  }

  /** The counter differs from the store by exactly the changes not counted yet. */
  ghost predicate Balanced(s: State) {
    |s.store| == s.count + |Ahead(s)| - |Behind(s)| - SweepDebt(s.sweep)
  }

  lemma StoreSize(store: map<string, Message>, t: string, m: Message)
    ensures |store[t := m]| == |store| + if t in store then 0 else 1
    ensures |store - {t}| == |store| - if t in store then 1 else 0
  {
    assert (store - {t}).Keys == store.Keys - {t};
    assert |store - {t}| == |(store - {t}).Keys| && |store| == |store.Keys|;
  }

  lemma QuietSets(cfg: Config, s: State, a: Action)
    requires Enabled(cfg, s, a) && !a.Write? && !a.Count?
    ensures Ahead(Next(cfg, s, a)) == Ahead(s) && Behind(Next(cfg, s, a)) == Behind(s)
  {
  }

  lemma WriteSets(s: State, s': State, p: nat)
    requires p in s.procs && s.procs[p].Admitted?
    requires var ph := s.procs[p]; s'.procs == s.procs[p := Written(ph.topic, ph.empty, ph.msg, ph.existed)]
    ensures var ph := s.procs[p]; |Ahead(s')| == |Ahead(s)| + if !ph.empty && !ph.existed then 1 else 0
    ensures var ph := s.procs[p]; |Behind(s')| == |Behind(s)| + if ph.empty && ph.existed then 1 else 0
  {
    var ph := s.procs[p];
    assert Ahead(s') == if !ph.empty && !ph.existed then Ahead(s) + {p} else Ahead(s);
    assert Behind(s') == if ph.empty && ph.existed then Behind(s) + {p} else Behind(s);
  }

  lemma WriteBalanced(cfg: Config, s: State, p: nat)
    requires Balanced(s) && p in s.procs && s.procs[p].Admitted? && Sees(s, s.procs[p])
    ensures Balanced(Next(cfg, s, Write(p)))
  {
    StoreSize(s.store, s.procs[p].topic, s.procs[p].msg);
    WriteSets(s, Next(cfg, s, Write(p)), p);
  }

  lemma CountBalanced(cfg: Config, s: State, p: nat)
    requires Balanced(s) && Enabled(cfg, s, Count(p))
    ensures Balanced(Next(cfg, s, Count(p)))
  {
    CountSets(s, Next(cfg, s, Count(p)), p);
  }

  lemma CountSets(s: State, s': State, p: nat)
    requires p in s.procs && s.procs[p].Written?
    requires var ph := s.procs[p]; s'.procs == s.procs[p := Counted(ph.topic, ph.empty, ph.msg)]
    ensures var ph := s.procs[p]; |Ahead(s')| == |Ahead(s)| - if !ph.empty && !ph.existed then 1 else 0
    ensures var ph := s.procs[p]; |Behind(s')| == |Behind(s)| - if ph.empty && ph.existed then 1 else 0
  {
    assert Ahead(s') == Ahead(s) - {p} && Behind(s') == Behind(s) - {p};
  }

  /** The sweep takes out a topic that is there: the recorded deadline belongs to a stored message. */
  lemma DoomedIsStored(cfg: Config, s: State)
    requires Exclusive(cfg, s) && Tracks(cfg, s) && SweepSees(s) && s.sweep.Doomed?
    ensures s.sweep.topic in s.store && Deadline(cfg, s.store[s.sweep.topic]) < s.sweep.now
    ensures 0 < Deadline(cfg, s.store[s.sweep.topic])
  {
    assert !InFlux(s, s.sweep.topic);
  }

  lemma BalancedStep(cfg: Config, s: State, a: Action)
    requires Exclusive(cfg, s) && AllSee(s) && SweepSees(s) && Tracks(cfg, s) && Balanced(s) && Enabled(cfg, s, a)
    ensures Balanced(Next(cfg, s, a))
  {
    if a.Write? {
      WriteBalanced(cfg, s, a.p);
    } else if a.Count? {
      CountBalanced(cfg, s, a.p);
    } else {
      if a.SweepDelete? {
        DoomedIsStored(cfg, s);
      }
      QuietBalanced(cfg, s, a);
    }
  }

  lemma QuietBalanced(cfg: Config, s: State, a: Action)
    requires Balanced(s) && Enabled(cfg, s, a) && !a.Write? && !a.Count? &&
        (a.SweepDelete? ==> s.sweep.topic in s.store)
    ensures Balanced(Next(cfg, s, a))
  {
    QuietSets(cfg, s, a);
    if a.SweepDelete? {
      StoreSize(s.store, s.sweep.topic, s.store[s.sweep.topic]);
    }
  }

  // ---------------------------------------------------------------- the bound

  /** Publishers that passed the limit check with a new topic and are not counted yet. */
  function Entering(s: State): set<nat> {
    set p | p in s.procs && (s.procs[p].Admitted? || s.procs[p].Written?) && !s.procs[p].empty && !s.procs[p].existed
  }

  /** The limit may be passed by fewer than `n`. */
  ghost predicate Bounded(cfg: Config, s: State, n: nat) {
    cfg.maxTopics > 0 ==> s.count + |Entering(s)| < cfg.maxTopics + n
  }

  /** Only topics of U are being published. */
  ghost predicate Confined(s: State, U: iset<string>) {
    forall p :: p in s.procs ==> s.procs[p].topic in U
  }

  /** No more than `n` publishers of topics of U can hold their stripes at once. */
  ghost predicate Width(cfg: Config, U: iset<string>, n: nat) {
    forall s: State :: Exclusive(cfg, s) && Confined(s, U) ==> |s.procs.Keys| <= n
  }

  lemma {:induction false} Pigeonhole(f: map<nat, nat>, holes: set<nat>)
    requires forall p :: p in f ==> f[p] in holes
    requires forall p, q :: p in f && q in f && p != q ==> f[p] != f[q]
    ensures |f.Keys| <= |holes|
    decreases |holes|
  {
    if p :| p in f {
      Pigeonhole(f - {p}, holes - {f[p]});
      assert (f - {p}).Keys == f.Keys - {p};
    } else {
      assert f.Keys == {};
    }
  }

  /** The topics of U lie on these stripes. */
  ghost predicate LieOn(cfg: Config, U: iset<string>, stripes: set<nat>) {
    forall t :: t in U ==> cfg.stripe(t) in stripes
  }

  /** There are no more publishers between lock and unlock than stripes. */
  lemma HoldersFit(cfg: Config, U: iset<string>, stripes: set<nat>)
    requires LieOn(cfg, U, stripes)
    ensures Width(cfg, U, |stripes|)
  {
    forall s: State | Exclusive(cfg, s) && Confined(s, U) ensures |s.procs.Keys| <= |stripes| {
      var held := map p | p in s.procs :: cfg.stripe(s.procs[p].topic);
      Pigeonhole(held, stripes);
      assert held.Keys == s.procs.Keys;
    }
  }

  lemma SubsetLess(a: set<nat>, b: set<nat>, p: nat)
    requires a <= b - {p} && p in b
    ensures |a| < |b|
  {
    assert b == (b - {p}) + {p};
    SubsetSize(a, b - {p});
  }

  lemma BoundedStep(cfg: Config, U: iset<string>, s: State, a: Action, n: nat)
    requires Width(cfg, U, n) && Exclusive(cfg, s) && Confined(s, U) && Bounded(cfg, s, n) && Enabled(cfg, s, a)
    ensures Bounded(cfg, Next(cfg, s, a), n)
  {
    if a.Check? {
      CheckBounded(cfg, U, s, a.p, n);
    } else if a.Count? {
      CountBounded(cfg, s, a.p, n);
    } else {
      EnteringStays(cfg, s, a);
    }
  }

  lemma EnteringStays(cfg: Config, s: State, a: Action)
    requires Enabled(cfg, s, a) && !a.Check? && !a.Count?
    ensures Entering(Next(cfg, s, a)) == Entering(s)
  {
  }

  lemma CheckEntering(cfg: Config, s: State, p: nat)
    requires Enabled(cfg, s, Check(p))
    ensures var ph := s.procs[p];
      Entering(Next(cfg, s, Check(p)))
      == if Refused(cfg, s, ph) || ph.empty || ph.topic in s.store then Entering(s) else Entering(s) + {p}
  {
  }

  /** Passing the check means the count was below the limit, and all others who passed hold other stripes. */
  lemma CheckBounded(cfg: Config, U: iset<string>, s: State, p: nat, n: nat)
    requires Width(cfg, U, n) && Exclusive(cfg, s) && Confined(s, U) && Bounded(cfg, s, n) && Enabled(cfg, s, Check(p))
    ensures Bounded(cfg, Next(cfg, s, Check(p)), n)
  {
    assert Entering(s) <= s.procs.Keys - {p};
    assert |s.procs.Keys| <= n;
    SubsetLess(Entering(s), s.procs.Keys, p);
    CheckEntering(cfg, s, p);
  }

  lemma CountBounded(cfg: Config, s: State, p: nat, n: nat)
    requires Bounded(cfg, s, n) && Enabled(cfg, s, Count(p))
    ensures Bounded(cfg, Next(cfg, s, Count(p)), n)
  {
    var s', ph := Next(cfg, s, Count(p)), s.procs[p];
    assert Entering(s') == Entering(s) - {p};
    assert p in Entering(s) <==> !ph.empty && !ph.existed;
  }

  // ---------------------------------------------------------------- every run

  ghost predicate Inv(cfg: Config, s: State) {
    Exclusive(cfg, s) && AllSee(s) && SweepSees(s) && Tracks(cfg, s) && Balanced(s)
  }

  lemma InitInv(cfg: Config, store: map<string, Message>)
    ensures Inv(cfg, Init(cfg, store))
  {
  }

  lemma NextInv(cfg: Config, s: State, a: Action)
    requires Inv(cfg, s) && Enabled(cfg, s, a)
    ensures Inv(cfg, Next(cfg, s, a))
  {
    ExclusiveStep(cfg, s, a);
    AllSeeStep(cfg, s, a);
    SweepSeesStep(cfg, s, a);
    TracksStep(cfg, s, a);
    BalancedStep(cfg, s, a);
  }

  lemma {:induction false} RunInv(cfg: Config, trace: seq<State>, acts: seq<Action>, i: nat)
    requires IsRun(cfg, trace, acts) && i < |trace|
    ensures Inv(cfg, trace[i])
    decreases i
  {
    if i == 0 {
      InitInv(cfg, trace[0].store);
    } else {
      RunInv(cfg, trace, acts, i - 1);
      assert Step(cfg, trace[i - 1], acts[i - 1], trace[i]);
      NextInv(cfg, trace[i - 1], acts[i - 1]);
    }
  }

  /** No change is waiting to be counted. */
  predicate Settled(s: State) {
    s.procs == map[] && SweepDebt(s.sweep) == 0
  }

  /** Whenever nothing is pending the counter is the number of stored topics, and the expiry map their deadlines. */
  lemma CountIsExact(cfg: Config, trace: seq<State>, acts: seq<Action>, i: nat)
    requires IsRun(cfg, trace, acts) && i < |trace| && Settled(trace[i])
    ensures trace[i].count == |trace[i].store|
    ensures forall t :: TracksTopic(cfg, trace[i], t)
  {
    RunInv(cfg, trace, acts, i);
    var s := trace[i];
    assert Ahead(s) == {} && Behind(s) == {};
    forall t ensures TracksTopic(cfg, s, t) {
      assert !InFlux(s, t);
    }
  }

  /** Every publish of the run is to a topic of U. */
  ghost predicate Within(acts: seq<Action>, U: iset<string>) {
    forall i :: 0 <= i < |acts| && acts[i].Lock? ==> acts[i].topic in U
  }

  lemma ConfinedStep(cfg: Config, U: iset<string>, s: State, a: Action)
    requires Confined(s, U) && Enabled(cfg, s, a) && (a.Lock? ==> a.topic in U)
    ensures Confined(Next(cfg, s, a), U)
  {
  }

  lemma RunBounded(cfg: Config, U: iset<string>, n: nat, trace: seq<State>, acts: seq<Action>, i: nat)
    requires n > 0 && Width(cfg, U, n) && IsRun(cfg, trace, acts) && Within(acts, U)
    requires |trace[0].store| <= cfg.maxTopics && i < |trace|
    ensures Bounded(cfg, trace[i], n)
  {
    var p := (s: State) => Bounded(cfg, s, n) && Confined(s, U);
    assert Entering(trace[0]) == {};
    forall j | 0 <= j < |trace| - 1 && p(trace[j]) ensures p(trace[j + 1]) {
      RunInv(cfg, trace, acts, j);
      assert Step(cfg, trace[j], acts[j], trace[j + 1]);
      BoundedStep(cfg, U, trace[j], acts[j], n);
      ConfinedStep(cfg, U, trace[j], acts[j]);
    }
    Along(trace, p, i);
  }

  ghost function Below(n: nat): (r: set<nat>)
    ensures |r| == n && forall i: nat :: i in r <==> i < n
  {
    if n == 0 then {} else Below(n - 1) + {n - 1}
  }

  /** Started within the limit, the counter at no moment passes it by as much as the number of stripes. */
  lemma CountIsBounded(cfg: Config, trace: seq<State>, acts: seq<Action>, i: nat)
    requires Hashes(cfg) && IsRun(cfg, trace, acts) && i < |trace| && |trace[0].store| <= cfg.maxTopics &&
        cfg.maxTopics > 0
    ensures trace[i].count <= cfg.maxTopics + STRIPES - 1
  {
    var all := iset t | cfg.stripe(t) < STRIPES;
    HoldersFit(cfg, all, Below(STRIPES));
    RunBounded(cfg, all, STRIPES, trace, acts, i);
  }

  /** In every run that publishes to topics of U only, started within the limit, the count is at most `n`. */
  ghost predicate KeptBelow(cfg: Config, U: iset<string>, n: nat) {
    forall trace: seq<State>, acts: seq<Action>, i ::
      IsRun(cfg, trace, acts) && Within(acts, U) && |trace[0].store| <= cfg.maxTopics && 0 <= i < |trace| ==>
        trace[i].count <= n
  }

  /** So many topics, none as short as `len`. */
  lemma Filler(n: nat, len: nat) returns (store: map<string, Message>)
    ensures |store| == n && forall t :: t in store ==> len < |t| <= len + n
  {
    if n == 0 {
      store := map[];
    } else {
      var rest := Filler(n - 1, len);
      var t := seq(len + n, _ => 'a');
      store := rest[t := Message(0, 0)];
    }
  }

  /** Some run over topics of U leads from the one state to the other. */
  ghost predicate Leads(cfg: Config, U: iset<string>, s0: State, s: State) {
    exists trace: seq<State>, acts: seq<Action> ::
      IsRun(cfg, trace, acts) && Within(acts, U) && trace[0] == s0 && trace[|acts|] == s
  }

  lemma LeadsOn(cfg: Config, U: iset<string>, s0: State, s: State, a: Action, s': State)
    requires Leads(cfg, U, s0, s) && Step(cfg, s, a, s') && (a.Lock? ==> a.topic in U)
    ensures Leads(cfg, U, s0, s')
  {
    var trace: seq<State>, acts: seq<Action> :|
      IsRun(cfg, trace, acts) && Within(acts, U) && trace[0] == s0 && trace[|acts|] == s;
    var longer, more := trace + [s'], acts + [a];
    forall i {:trigger more[i]} | 0 <= i < |more| ensures Step(cfg, longer[i], more[i], longer[i + 1]) {
      if i < |acts| {
        assert acts[i] == more[i];
      }
    }
    assert IsRun(cfg, longer, more) && Within(more, U);
  }

  const MSG := Message(0, 0)

  /** A publisher of a new topic, by the number of steps it has taken since it got its lock. */
  function Standing(topic: string, steps: nat): Phase {
    if steps == 0 then Locked(topic, false, MSG)
    else if steps == 1 then Admitted(topic, false, MSG, false)
    else if steps == 2 then Written(topic, false, MSG, false)
    else Counted(topic, false, MSG)
  }

  /** One publisher to a topic: the first `k` are one step ahead of the others. */
  function Crowd(topics: seq<string>, steps: nat, k: nat): map<nat, Phase> {
    map p: nat | p < |topics| :: Standing(topics[p], if p < k then steps + 1 else steps)
  }

  lemma CrowdMoves(topics: seq<string>, steps: nat, k: nat)
    requires k < |topics|
    ensures Crowd(topics, steps, k)[k := Standing(topics[k], steps + 1)] == Crowd(topics, steps, k + 1)
  {
  }

  lemma CrowdTurns(topics: seq<string>, steps: nat)
    ensures Crowd(topics, steps, |topics|) == Crowd(topics, steps + 1, 0)
  {
  }

  ghost predicate Apart(cfg: Config, topics: seq<string>) {
    forall i, j :: 0 <= i < j < |topics| ==> cfg.stripe(topics[i]) != cfg.stripe(topics[j])
  }

  ghost predicate AllIn(topics: seq<string>, U: iset<string>) {
    forall i :: 0 <= i < |topics| ==> topics[i] in U
  }

  lemma {:induction false} AllLock(cfg: Config, U: iset<string>, s0: State, topics: seq<string>)
    requires s0 == Init(cfg, s0.store) && Apart(cfg, topics) && AllIn(topics, U)
    ensures Leads(cfg, U, s0, s0.(procs := Crowd(topics, 0, 0)))
    decreases |topics|
  {
    if topics == [] {
      var trace: seq<State>, acts: seq<Action> := [s0], [];
      assert IsRun(cfg, trace, acts) && Within(acts, U) && trace[|acts|] == s0 && Crowd(topics, 0, 0) == map[];
    } else {
      var n := |topics| - 1;
      var init, t := topics[..n], topics[n];
      AllLock(cfg, U, s0, init);
      var s, s' := s0.(procs := Crowd(init, 0, 0)), s0.(procs := Crowd(topics, 0, 0));
      assert Crowd(init, 0, 0)[n := Standing(t, 0)] == Crowd(topics, 0, 0);
      assert Step(cfg, s, Lock(n, t, false, MSG), s');
      LeadsOn(cfg, U, s0, s, Lock(n, t, false, MSG), s');
    }
  }

  lemma OnePasses(cfg: Config, s: State, topics: seq<string>, k: nat)
    requires k < |topics| && s.count < cfg.maxTopics && topics[k] !in s.store
    ensures Step(cfg, s.(procs := Crowd(topics, 0, k)), Check(k), s.(procs := Crowd(topics, 0, k + 1)))
  {
    CrowdMoves(topics, 0, k);
  }

  /** With a place left, all who hold a lock pass the check before any of them is counted. */
  lemma {:induction false} AllPass(cfg: Config, U: iset<string>, s0: State, s: State, topics: seq<string>, k: nat)
    requires k <= |topics| && s.count < cfg.maxTopics && forall i :: 0 <= i < |topics| ==> topics[i] !in s.store
    requires Leads(cfg, U, s0, s.(procs := Crowd(topics, 0, 0)))
    ensures Leads(cfg, U, s0, s.(procs := Crowd(topics, 0, k)))
  {
    if k > 0 {
      AllPass(cfg, U, s0, s, topics, k - 1);
      var a, b := s.(procs := Crowd(topics, 0, k - 1)), s.(procs := Crowd(topics, 0, k));
      OnePasses(cfg, s, topics, k - 1);
      LeadsOn(cfg, U, s0, a, Check(k - 1), b);
    }
  }

  function Stored(store: map<string, Message>, topics: seq<string>): map<string, Message> {
    if topics == [] then store else Stored(store, topics[..|topics| - 1])[topics[|topics| - 1] := MSG]
  }

  lemma {:induction false} AllWrite(cfg: Config, U: iset<string>, s0: State, s: State, topics: seq<string>, k: nat)
    requires k <= |topics| && Leads(cfg, U, s0, s.(procs := Crowd(topics, 1, 0)))
    ensures Leads(cfg, U, s0, s.(store := Stored(s.store, topics[..k]), procs := Crowd(topics, 1, k)))
  {
    if k > 0 {
      AllWrite(cfg, U, s0, s, topics, k - 1);
      var a := s.(store := Stored(s.store, topics[..k - 1]), procs := Crowd(topics, 1, k - 1));
      var b := s.(store := Stored(s.store, topics[..k]), procs := Crowd(topics, 1, k));
      CrowdMoves(topics, 1, k - 1);
      assert topics[..k][..k - 1] == topics[..k - 1];
      assert Step(cfg, a, Write(k - 1), b);
      LeadsOn(cfg, U, s0, a, Write(k - 1), b);
    }
  }

  lemma {:induction false} AllCount(cfg: Config, U: iset<string>, s0: State, s: State, topics: seq<string>, k: nat)
    requires k <= |topics| && Leads(cfg, U, s0, s.(procs := Crowd(topics, 2, 0)))
    ensures Leads(cfg, U, s0, s.(count := s.count + k, procs := Crowd(topics, 2, k)))
  {
    if k > 0 {
      AllCount(cfg, U, s0, s, topics, k - 1);
      var a := s.(count := s.count + k - 1, procs := Crowd(topics, 2, k - 1));
      var b := s.(count := s.count + k, procs := Crowd(topics, 2, k));
      CrowdMoves(topics, 2, k - 1);
      assert Step(cfg, a, Count(k - 1), b);
      LeadsOn(cfg, U, s0, a, Count(k - 1), b);
    }
  }

  lemma {:induction false} LongerThanAll(topics: seq<string>) returns (len: nat)
    ensures forall i :: 0 <= i < |topics| ==> |topics[i]| <= len
  {
    if topics == [] {
      len := 0;
    } else {
      len := LongerThanAll(topics[1..]);
      len := len + |topics[0]|;
      assert forall i :: 0 < i < |topics| ==> topics[i] == topics[1..][i - 1];
    }
  }

  /** Publishers of new topics on different stripes all pass the check with one place left. */
  lemma AllEnter(cfg: Config, U: iset<string>, topics: seq<string>)
    requires cfg.maxTopics > 0 && Apart(cfg, topics) && AllIn(topics, U)
    ensures exists s0: State, s: State ::
              Leads(cfg, U, s0, s) && |s0.store| <= cfg.maxTopics && s.count == cfg.maxTopics - 1 + |topics|
  {
    var n := |topics|;
    var len := LongerThanAll(topics);
    var store := Filler(cfg.maxTopics - 1, len);
    var s0 := Init(cfg, store);
    AllLock(cfg, U, s0, topics);
    AllPass(cfg, U, s0, s0, topics, n);
    CrowdTurns(topics, 0);
    AllWrite(cfg, U, s0, s0, topics, n);
    CrowdTurns(topics, 1);
    var s := s0.(store := Stored(s0.store, topics[..n]));
    AllCount(cfg, U, s0, s, topics, n);
  }

  lemma NotKept(cfg: Config, U: iset<string>, s0: State, s: State, n: nat)
    requires Leads(cfg, U, s0, s) && |s0.store| <= cfg.maxTopics && s.count > n
    ensures !KeptBelow(cfg, U, n)
  {
    var trace: seq<State>, acts: seq<Action> :|
      IsRun(cfg, trace, acts) && Within(acts, U) && trace[0] == s0 && trace[|acts|] == s;
    assert trace[|acts|].count > n;
  }

  /** With topics on `k` stripes in use, the limit can be passed by `k - 1` and by no more. */
  lemma OvershootIsExact(cfg: Config, U: iset<string>, topics: seq<string>, n: nat)
    requires cfg.maxTopics > 0 && topics != [] && Apart(cfg, topics) && AllIn(topics, U)
    requires LieOn(cfg, U, set i | 0 <= i < |topics| :: cfg.stripe(topics[i]))
    ensures KeptBelow(cfg, U, n) <==> cfg.maxTopics + |topics| - 1 <= n
  {
    if n < cfg.maxTopics + |topics| - 1 {
      AllEnter(cfg, U, topics);
      var s0: State, s: State :|
        Leads(cfg, U, s0, s) && |s0.store| <= cfg.maxTopics && s.count == cfg.maxTopics - 1 + |topics|;
      NotKept(cfg, U, s0, s, n);
    } else {
      var stripes := set i | 0 <= i < |topics| :: cfg.stripe(topics[i]);
      HoldersFit(cfg, U, stripes);
      ImageSize(cfg, topics);
      forall trace: seq<State>, acts: seq<Action>, i
        | IsRun(cfg, trace, acts) && Within(acts, U) && |trace[0].store| <= cfg.maxTopics && 0 <= i < |trace|
        ensures trace[i].count <= n
      {
        RunBounded(cfg, U, |topics|, trace, acts, i);
      }
    }
  }

  lemma {:induction false} ImageSize(cfg: Config, topics: seq<string>)
    ensures |set i | 0 <= i < |topics| :: cfg.stripe(topics[i])| <= |topics|
    decreases |topics|
  {
    var all := set i | 0 <= i < |topics| :: cfg.stripe(topics[i]);
    if topics == [] {
      assert all == {};
    } else {
      var n := |topics| - 1;
      ImageSize(cfg, topics[..n]);
      var front := set i | 0 <= i < |topics[..n]| :: cfg.stripe(topics[..n][i]);
      assert all == front + {cfg.stripe(topics[n])} by {
        forall x | x in all ensures x in front + {cfg.stripe(topics[n])} {
          var i :| 0 <= i < |topics| && x == cfg.stripe(topics[i]);
          assert i < n ==> topics[..n][i] == topics[i];
        }
        forall x | x in front ensures x in all {
          var i :| 0 <= i < n && x == cfg.stripe(topics[..n][i]);
          assert topics[i] == topics[..n][i];
        }
      }
    }
  }

  /** The limit itself is kept if and only if all the topics in use share one stripe. */
  lemma LimitKeptIffOneStripe(cfg: Config, U: iset<string>)
    requires cfg.maxTopics > 0
    ensures KeptBelow(cfg, U, cfg.maxTopics) <==> forall t, u :: t in U && u in U ==> cfg.stripe(t) == cfg.stripe(u)
  {
    if t, u :| t in U && u in U && cfg.stripe(t) != cfg.stripe(u) {
      AllEnter(cfg, U, [t, u]);
      var s0: State, s: State :| Leads(cfg, U, s0, s) && |s0.store| <= cfg.maxTopics && s.count == cfg.maxTopics + 1;
      NotKept(cfg, U, s0, s, cfg.maxTopics);
    } else {
      OneStripeKept(cfg, U);
    }
  }

  lemma OneStripeKept(cfg: Config, U: iset<string>)
    requires cfg.maxTopics > 0 && forall t, u :: t in U && u in U ==> cfg.stripe(t) == cfg.stripe(u)
    ensures KeptBelow(cfg, U, cfg.maxTopics)
  {
    var stripe := if exists t :: t in U then (var t :| t in U; cfg.stripe(t)) else 0;
    HoldersFit(cfg, U, {stripe});
    forall trace: seq<State>, acts: seq<Action>, i
      | IsRun(cfg, trace, acts) && Within(acts, U) && |trace[0].store| <= cfg.maxTopics && 0 <= i < |trace|
      ensures trace[i].count <= cfg.maxTopics
    {
      RunBounded(cfg, U, 1, trace, acts, i);
    }
  }

  // ---------------------------------------------------------------- expiry

  /** By this clock the message is past its own deadline, or has been stored longer than the operator allows. */
  predicate Stale(cfg: Config, m: Message, now: nat) {
    (m.expiresAt != 0 && m.expiresAt < now) || (cfg.ttl > 0 && m.storedAt + cfg.ttl < now)
  }

  lemma PastDeadlineIff(cfg: Config, m: Message, now: nat)
    ensures Deadline(cfg, m) != 0 && Deadline(cfg, m) < now <==> Stale(cfg, m, now)
  {
  }

  /** Every message the sweep deletes is, at that moment, stale by the sweep's clock: a message that was replaced or
  refreshed after the scan is left alone. */
  lemma SweepSparesRefreshed(cfg: Config, trace: seq<State>, acts: seq<Action>, i: nat)
    requires IsRun(cfg, trace, acts) && i < |acts| && acts[i].SweepDelete?
    ensures var s := trace[i]; s.sweep.topic in s.store && Stale(cfg, s.store[s.sweep.topic], s.sweep.now)
    ensures trace[i + 1].store == trace[i].store - {trace[i].sweep.topic}
  {
    RunInv(cfg, trace, acts, i);
    assert Step(cfg, trace[i], acts[i], trace[i + 1]);
    DoomedIsStored(cfg, trace[i]);
    PastDeadlineIff(cfg, trace[i].store[trace[i].sweep.topic], trace[i].sweep.now);
  }

  /** A sweep that starts while nothing is pending finds every stale message and no other. */
  lemma SweepFindsStale(cfg: Config, trace: seq<State>, acts: seq<Action>, i: nat)
    requires IsRun(cfg, trace, acts) && i < |acts| && acts[i].SweepScan? && Settled(trace[i])
    ensures trace[i + 1].sweep == Scanning(acts[i].now,
              set t | t in trace[i].store && Stale(cfg, trace[i].store[t], acts[i].now))
  {
    var s, now := trace[i], acts[i].now;
    CountIsExact(cfg, trace, acts, i);
    assert Step(cfg, s, acts[i], trace[i + 1]);
    forall t ensures t in Expired(s.expires, now) <==> t in s.store && Stale(cfg, s.store[t], now) {
      assert TracksTopic(cfg, s, t);
      if t in s.store {
        PastDeadlineIff(cfg, s.store[t], now);
      }
    }
  }

  // ---------------------------------------------------------------- what is stored

  /** The message is stored under the topic, or a publisher is on its way to store it. */
  ghost predicate Holds(s: State, t: string, m: Message) {
    || (t in s.store && s.store[t] == m)
    || (exists p :: p in s.procs && s.procs[p].topic == t && !s.procs[p].empty && s.procs[p].msg == m)
  }

  lemma HeldBefore(cfg: Config, s: State, a: Action, t: string, m: Message)
    requires Enabled(cfg, s, a) && Holds(Next(cfg, s, a), t, m)
    ensures Holds(s, t, m) || (a.Lock? && a.topic == t && !a.empty && a.msg == m)
  {
  }

  /** In every run every stored message is one that a publisher brought for that topic, or was there at the start. */
  lemma {:induction false} StoredWasPublished(cfg: Config, trace: seq<State>, acts: seq<Action>, n: nat, t: string,
                                              m: Message)
    requires IsRun(cfg, trace, acts) && n < |trace| && Holds(trace[n], t, m)
    ensures || (t in trace[0].store && trace[0].store[t] == m)
            || (exists i :: 0 <= i < n && acts[i].Lock? && acts[i].topic == t && !acts[i].empty && acts[i].msg == m)
  {
    if n > 0 {
      assert Step(cfg, trace[n - 1], acts[n - 1], trace[n]);
      HeldBefore(cfg, trace[n - 1], acts[n - 1], t, m);
      if Holds(trace[n - 1], t, m) {
        StoredWasPublished(cfg, trace, acts, n - 1, t, m);
      }
    }
  }

  /** In every run a publisher is turned away if and only if it brings a message for a topic that is not stored and the
  counter has reached the limit: whoever replaces or deletes a message always gets through. */
  lemma TurnedAwayIff(cfg: Config, trace: seq<State>, acts: seq<Action>, i: nat, p: nat)
    requires IsRun(cfg, trace, acts) && i < |acts| && acts[i] == Check(p)
    ensures p in trace[i].procs
    ensures var (s, ph) := (trace[i], trace[i].procs[p]);
            && (p !in trace[i + 1].procs <==>
                  !ph.empty && ph.topic !in s.store && cfg.maxTopics > 0 && s.count >= cfg.maxTopics)
            && trace[i + 1].store == s.store && trace[i + 1].count == s.count && trace[i + 1].expires == s.expires
  {
    assert Step(cfg, trace[i], acts[i], trace[i + 1]);
  }

  /** A publisher that gets past the limit stores its message, or deletes the topic if it brings none, and nobody else
  touches the topic until it is done. */
  lemma WriteTakesEffect(cfg: Config, trace: seq<State>, acts: seq<Action>, i: nat, p: nat)
    requires IsRun(cfg, trace, acts) && i < |acts| && acts[i] == Write(p)
    ensures p in trace[i].procs
    ensures var ph := trace[i].procs[p];
            && trace[i + 1].store == (if ph.empty then trace[i].store - {ph.topic}
                                      else trace[i].store[ph.topic := ph.msg])
            && (forall q :: q in trace[i].procs && q != p ==> trace[i].procs[q].topic != ph.topic)
  {
    RunInv(cfg, trace, acts, i);
    assert Step(cfg, trace[i], acts[i], trace[i + 1]);
  }
}
