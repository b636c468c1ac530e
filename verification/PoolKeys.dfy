/** Which data source a pool belongs to: runs of the connector with the history of who asked for what. */
module PoolKeys {
  import opened ConnectionPool
  import opened ConnectorMachine
  import opened Prelude

  /** The machine, the key that each thread's present call names, and the key that each pool was created for. */
  datatype Tracked = Tracked(state: State, wanted: map<Thread, Key>, keys: map<PoolId, Key>)

  /** Calls name a key when they start; a pool is created for the key its creator asked for. */
  function Track(limits: Limits, x: Tracked, t: Thread, a: Action): Tracked
    requires Enabled(limits, x.state, t, a) && (a.CreatePool? ==> t in x.wanted)
  {
    Tracked(
      Apply(limits, x.state, t, a),
      match a
      case StartGet(key) => x.wanted[t := key]
      case PopPool(key) => x.wanted[t := key]
      case _ => x.wanted,
      match a
      case CreatePool(p, _) => x.keys[p := x.wanted[t]]
      case _ => x.keys)
  }

  /** The key that a thread inside get_pool works for. */
  function KeyInHand(place: Place): Option<Key> {
    match place
    case InRegistry(key) => Some(key)
    case EvictionChecked(key, _, _) => Some(key)
    case EvictionReturning(key, _, _) => Some(key)
    case EvictionPopping(key, _) => Some(key)
    case _ => None
  }

  /** The pool a thread has got, waits for, borrows from or gives back to, or that it closes. */
  function PoolInHand(place: Place): Option<PoolId> {
    match place
    case Referencing(p) => Some(p)
    case LeavingRegistry(p) => Some(p)
    case Referenced(p) => Some(p)
    case AcquireFailed(p) => Some(p)
    case Using(p) => Some(p)
    case Destroying(p) => Some(p)
    case Closing(p) => Some(p)
    case _ => BorrowedPool(place)
  }

  /** What a thread has in hand belongs to the key its call names. */
  ghost predicate Serves(place: Place, t: Thread, wanted: map<Thread, Key>, keys: map<PoolId, Key>) {
    && (KeyInHand(place).Some? ==> t in wanted && wanted[t] == KeyInHand(place).value)
    && (PoolInHand(place).Some? ==>
          t in wanted && PoolInHand(place).value in keys && keys[PoolInHand(place).value] == wanted[t])
  }

  ghost predicate RegistryServesKeys(registry: map<Key, PoolId>, keys: map<PoolId, Key>) {
    forall k | k in registry :: registry[k] in keys && keys[registry[k]] == k
  }

  ghost predicate Keyed(x: Tracked) {
    && x.keys.Keys == x.state.pools.Keys
    && RegistryServesKeys(x.state.registry, x.keys)
    && forall t | t in x.state.threads :: Serves(x.state.threads[t], t, x.wanted, x.keys)
  }

  function NextPlace(limits: Limits, s: State, t: Thread, a: Action): Place
    requires Enabled(limits, s, t, a)
  {
    if RewritesPool(a) then PoolSection(limits, s, t, a).place else PlainSection(limits, s, t, a).place
  }

  lemma StepMovesThread(limits: Limits, s: State, t: Thread, a: Action)
    requires Enabled(limits, s, t, a)
    ensures Apply(limits, s, t, a).threads == s.threads[t := NextPlace(limits, s, t, a)]
    ensures Apply(limits, s, t, a).registry == RegistryAfter(s.registry, s.threads[t], a)
  {
  }

  lemma PoolSectionKeepsPools(limits: Limits, s: State, t: Thread, a: Action)
    requires Enabled(limits, s, t, a) && RewritesPool(a)
    ensures var pool := PoolSection(limits, s, t, a).pool;
            if a.CreatePool? then pool.Some? && pool.value.0 == a.pool else pool.Some? ==> pool.value.0 in s.pools
  {
  }

  function Rewritten(pools: map<PoolId, Pool>, section: Section): map<PoolId, Pool> {
    if section.pool.Some? then pools[section.pool.value.0 := section.pool.value.1] else pools
  }

  lemma PoolStepRewrites(limits: Limits, s: State, t: Thread, a: Action)
    requires Enabled(limits, s, t, a) && RewritesPool(a)
    ensures Apply(limits, s, t, a).pools == Rewritten(s.pools, PoolSection(limits, s, t, a))
  {
  }

  lemma PlainStepKeepsPools(limits: Limits, s: State, t: Thread, a: Action)
    requires Enabled(limits, s, t, a) && !RewritesPool(a)
    ensures Apply(limits, s, t, a).pools == s.pools
  {
    if !ChangesRegistry(a) {
      PlainStepIsMove(limits, s, t, a);
    }
  }

  lemma StepKeepsPools(limits: Limits, s: State, t: Thread, a: Action)
    requires Enabled(limits, s, t, a)
    ensures Apply(limits, s, t, a).pools.Keys == s.pools.Keys + (if a.CreatePool? then {a.pool} else {})
  {
    if RewritesPool(a) {
      PoolStepRewrites(limits, s, t, a);
      PoolSectionKeepsPools(limits, s, t, a);
    } else {
      PlainStepKeepsPools(limits, s, t, a);
    }
  }

  lemma PlainSectionKeepsHands(limits: Limits, s: State, t: Thread, a: Action)
    requires Enabled(limits, s, t, a) && !RewritesPool(a) && !a.StartGet? && !a.PopPool? && !a.LookUp?
    ensures KeyInHand(PlainSection(limits, s, t, a).place) in {None, KeyInHand(s.threads[t])}
    ensures PoolInHand(PlainSection(limits, s, t, a).place) in {None, PoolInHand(s.threads[t])}
  {
  }

  lemma PoolSectionKeepsHands(limits: Limits, s: State, t: Thread, a: Action)
    requires Enabled(limits, s, t, a) && RewritesPool(a) && !a.CreatePool?
    ensures KeyInHand(PoolSection(limits, s, t, a).place) in {None, KeyInHand(s.threads[t])}
    ensures PoolInHand(PoolSection(limits, s, t, a).place) in {None, PoolInHand(s.threads[t])}
  {
  }

  /** A section that neither starts a call nor finds a pool keeps what the thread has or drops it. */
  lemma SectionKeepsHands(limits: Limits, s: State, t: Thread, a: Action)
    requires Enabled(limits, s, t, a)
    requires !a.StartGet? && !a.PopPool? && !a.LookUp? && !a.CreatePool?
    ensures KeyInHand(NextPlace(limits, s, t, a)) in {None, KeyInHand(s.threads[t])}
    ensures PoolInHand(NextPlace(limits, s, t, a)) in {None, PoolInHand(s.threads[t])}
  {
    if RewritesPool(a) {
      PoolSectionKeepsHands(limits, s, t, a);
    } else {
      PlainSectionKeepsHands(limits, s, t, a);
    }
  }

  lemma StartServesCall(limits: Limits, x: Tracked, t: Thread, a: Action)
    requires Enabled(limits, x.state, t, a) && (a.StartGet? || a.PopPool?)
    requires RegistryServesKeys(x.state.registry, x.keys)
    ensures Serves(NextPlace(limits, x.state, t, a), t, x.wanted[t := a.key], x.keys)
  {
  }

  lemma LookUpServesCall(limits: Limits, x: Tracked, t: Thread)
    requires Enabled(limits, x.state, t, LookUp)
    requires RegistryServesKeys(x.state.registry, x.keys) && Serves(x.state.threads[t], t, x.wanted, x.keys)
    ensures Serves(NextPlace(limits, x.state, t, LookUp), t, x.wanted, x.keys)
  {
  }

  lemma CreationServesCall(limits: Limits, x: Tracked, t: Thread, a: Action)
    requires Enabled(limits, x.state, t, a) && a.CreatePool?
    requires Serves(x.state.threads[t], t, x.wanted, x.keys)
    ensures t in x.wanted
    ensures Serves(NextPlace(limits, x.state, t, a), t, x.wanted, x.keys[a.pool := x.wanted[t]])
  {
  }

  lemma MoverServes(limits: Limits, x: Tracked, t: Thread, a: Action)
    requires Keyed(x) && Enabled(limits, x.state, t, a)
    ensures a.CreatePool? ==> t in x.wanted
    ensures var y := Track(limits, x, t, a); Serves(NextPlace(limits, x.state, t, a), t, y.wanted, y.keys)
  {
    if a.StartGet? || a.PopPool? {
      StartServesCall(limits, x, t, a);
    } else if a.LookUp? {
      LookUpServesCall(limits, x, t);
    } else if a.CreatePool? {
      CreationServesCall(limits, x, t, a);
    } else {
      SectionKeepsHands(limits, x.state, t, a);
    }
  }

  lemma OtherServes(limits: Limits, x: Tracked, t: Thread, a: Action, u: Thread)
    requires Keyed(x) && Enabled(limits, x.state, t, a) && (a.CreatePool? ==> t in x.wanted)
    requires u in x.state.threads && u != t
    ensures var y := Track(limits, x, t, a); Serves(x.state.threads[u], u, y.wanted, y.keys)
  {
    assert Serves(x.state.threads[u], u, x.wanted, x.keys);
  }

  lemma RegistryKeepsKeys(limits: Limits, x: Tracked, t: Thread, a: Action)
    requires Keyed(x) && Enabled(limits, x.state, t, a) && (a.CreatePool? ==> t in x.wanted)
    ensures RegistryServesKeys(RegistryAfter(x.state.registry, x.state.threads[t], a), Track(limits, x, t, a).keys)
  {
    assert Serves(x.state.threads[t], t, x.wanted, x.keys);
  }

  lemma OthersServe(limits: Limits, x: Tracked, t: Thread, a: Action)
    requires Keyed(x) && Enabled(limits, x.state, t, a) && (a.CreatePool? ==> t in x.wanted)
    ensures var y := Track(limits, x, t, a);
            forall u | u in x.state.threads && u != t :: Serves(x.state.threads[u], u, y.wanted, y.keys)
  {
    var y := Track(limits, x, t, a);
    forall u | u in x.state.threads && u != t ensures Serves(x.state.threads[u], u, y.wanted, y.keys) {
      OtherServes(limits, x, t, a, u);
    }
  }

  lemma KeysStay(x: Tracked, t: Thread, place: Place, y: Tracked)
    requires t in x.state.threads && y.state.threads == x.state.threads[t := place]
    requires y.keys.Keys == y.state.pools.Keys && RegistryServesKeys(y.state.registry, y.keys)
    requires Serves(place, t, y.wanted, y.keys)
    requires forall u | u in x.state.threads && u != t :: Serves(x.state.threads[u], u, y.wanted, y.keys)
    ensures Keyed(y)
  {
  }

  /** Every section keeps pools, registry and threads on the keys they belong to. */
  lemma StepKeepsKeys(limits: Limits, x: Tracked, t: Thread, a: Action)
    requires Keyed(x) && Enabled(limits, x.state, t, a)
    ensures a.CreatePool? ==> t in x.wanted
    ensures Keyed(Track(limits, x, t, a))
  {
    MoverServes(limits, x, t, a);
    OthersServe(limits, x, t, a);
    RegistryKeepsKeys(limits, x, t, a);
    StepMovesThread(limits, x.state, t, a);
    StepKeepsPools(limits, x.state, t, a);
    KeysStay(x, t, NextPlace(limits, x.state, t, a), Track(limits, x, t, a));
  }

  // ---- Runs ------------------------------------------------------------------------------------------------------

  ghost predicate InitialTracked(x: Tracked) {
    Initial(x.state) && x.wanted == map[] && x.keys == map[]
  }

  ghost predicate TrackedStep(limits: Limits, x: Tracked, y: Tracked) {
    exists t, a :: Enabled(limits, x.state, t, a) && (a.CreatePool? ==> t in x.wanted) && y == Track(limits, x, t, a)
  }

  ghost predicate TrackedStepAt(limits: Limits, run: seq<Tracked>, i: nat)
    requires i + 1 < |run|
  {
    TrackedStep(limits, run[i], run[i + 1])
  }

  ghost predicate IsTrackedRun(limits: Limits, run: seq<Tracked>) {
    && |run| > 0 && InitialTracked(run[0])
    && forall i: nat | i + 1 < |run| :: TrackedStepAt(limits, run, i)
  }

  ghost predicate Follows(tracked: seq<Tracked>, run: seq<State>) {
    |tracked| <= |run| && forall i | 0 <= i < |tracked| :: tracked[i].state == run[i]
  }

  lemma NextKeepsKeys(limits: Limits, x: Tracked, y: Tracked)
    requires Keyed(x) && TrackedStep(limits, x, y)
    ensures Keyed(y)
  {
    var t, a :| Enabled(limits, x.state, t, a) && (a.CreatePool? ==> t in x.wanted) && y == Track(limits, x, t, a);
    StepKeepsKeys(limits, x, t, a);
  }

  lemma StepOfRunKeepsKeys(limits: Limits, run: seq<Tracked>, i: nat)
    requires IsTrackedRun(limits, run) && i + 1 < |run| && Keyed(run[i])
    ensures Keyed(run[i + 1])
  {
    assert TrackedStepAt(limits, run, i);
    NextKeepsKeys(limits, run[i], run[i + 1]);
  }

  lemma {:induction false} RunKeepsKeys(limits: Limits, run: seq<Tracked>, i: nat)
    requires IsTrackedRun(limits, run) && i < |run|
    ensures Keyed(run[i])
  {
    if i > 0 {
      RunKeepsKeys(limits, run, i - 1);
      StepOfRunKeepsKeys(limits, run, i - 1);
    }
  }

  /** In every run the registry leads from a key only to the pool created for that key. */
  lemma RegistryLeadsToItsPool(limits: Limits, run: seq<Tracked>, i: nat, key: Key)
    requires IsTrackedRun(limits, run) && i < |run| && key in run[i].state.registry
    ensures run[i].state.registry[key] in run[i].keys && run[i].keys[run[i].state.registry[key]] == key
  {
    RunKeepsKeys(limits, run, i);
  }

  /** In every run a thread that has a pool in hand has one created for the key its call asked for. */
  lemma ThreadsGetTheirPool(limits: Limits, run: seq<Tracked>, i: nat, t: Thread)
    requires IsTrackedRun(limits, run) && i < |run| && t in run[i].state.threads
    requires PoolInHand(run[i].state.threads[t]).Some?
    ensures var p := PoolInHand(run[i].state.threads[t]).value;
            p in run[i].keys && t in run[i].wanted && run[i].keys[p] == run[i].wanted[t]
  {
    RunKeepsKeys(limits, run, i);
    assert Serves(run[i].state.threads[t], t, run[i].wanted, run[i].keys);
  }

  lemma TrackedRunGrows(limits: Limits, run: seq<Tracked>, y: Tracked, states: seq<State>)
    requires IsTrackedRun(limits, run) && TrackedStep(limits, run[|run| - 1], y)
    requires Follows(run, states) && |run| < |states| && y.state == states[|run|]
    ensures IsTrackedRun(limits, run + [y]) && Follows(run + [y], states)
  {
    var longer := run + [y];
    forall i: nat | i + 1 < |longer| ensures TrackedStepAt(limits, longer, i) {
      if i + 1 < |run| {
        assert TrackedStepAt(limits, run, i);
      }
    }
  }

  lemma NextIsTracked(limits: Limits, x: Tracked, r: State) returns (y: Tracked)
    requires Keyed(x) && Next(limits, x.state, r)
    ensures TrackedStep(limits, x, y) && y.state == r
  {
    var t, a :| Enabled(limits, x.state, t, a) && r == Apply(limits, x.state, t, a);
    StepKeepsKeys(limits, x, t, a);
    y := Track(limits, x, t, a);
  }

  /** Tracking forbids no step: every run of the machine is followed by a tracked one. */
  lemma {:induction false} RunsAreTracked(limits: Limits, run: seq<State>, i: nat) returns (tracked: seq<Tracked>)
    requires IsRun(limits, run) && i < |run|
    ensures IsTrackedRun(limits, tracked) && |tracked| == i + 1 && Follows(tracked, run)
  {
    if i == 0 {
      tracked := StartTracking(limits, run);
    } else {
      tracked := RunsAreTracked(limits, run, i - 1);
      NextStepFollows(limits, run, tracked);
      var y := LastStepIsTracked(limits, run, tracked);
      TrackedRunGrows(limits, tracked, y, run);
      tracked := tracked + [y];
    }
  }

  lemma StartTracking(limits: Limits, run: seq<State>) returns (tracked: seq<Tracked>)
    requires |run| > 0 && Initial(run[0])
    ensures IsTrackedRun(limits, tracked) && |tracked| == 1 && Follows(tracked, run)
  {
    tracked := [Tracked(run[0], map[], map[])];
  }

  lemma NextStepFollows(limits: Limits, run: seq<State>, tracked: seq<Tracked>)
    requires IsRun(limits, run) && Follows(tracked, run) && 0 < |tracked| < |run|
    ensures Next(limits, tracked[|tracked| - 1].state, run[|tracked|])
  {
    assert StepAt(limits, run, |tracked| - 1);
  }

  lemma LastStepIsTracked(limits: Limits, run: seq<State>, tracked: seq<Tracked>) returns (y: Tracked)
    requires IsTrackedRun(limits, tracked) && |tracked| < |run|
    requires Next(limits, tracked[|tracked| - 1].state, run[|tracked|])
    ensures TrackedStep(limits, tracked[|tracked| - 1], y) && y.state == run[|tracked|]
  {
    RunKeepsKeys(limits, tracked, |tracked| - 1);
    y := NextIsTracked(limits, tracked[|tracked| - 1], run[|tracked|]);
  }
}
