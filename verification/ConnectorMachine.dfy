/** Every thread of the connector, interleaved at its lock boundaries. */
module ConnectorMachine {
  import opened ConnectionPool
  import opened FiniteSums
  import opened Prelude

  type PoolId = nat
  type Key = nat
  type Thread = nat

  datatype Limits = Limits(totalConnections: nat, pools: nat)

  /** Whom a global slot is reserved for. */
  datatype Client = ForPool(pool: PoolId) | OneShot

  /** Where a thread stands between two critical sections. */
  datatype Place =
    | Idle
      // get_pool, holding the registry lock
    | InRegistry(key: Key)
    | EvictionChecked(key: Key, victim: Key, pool: PoolId)
    | EvictionReturning(key: Key, victim: Key, owed: int)
    | EvictionPopping(key: Key, victim: Key)
    | Referencing(pool: PoolId)
    | LeavingRegistry(pool: PoolId)
      // acquire
    | Referenced(pool: PoolId)
    | AcquireFailed(pool: PoolId)
    | Reserving(client: Client)
    | Full(client: Client)
    | QuotaScan(client: Client)
    | QuotaClosing(client: Client)
    | QuotaReturning(client: Client)
    | QuotaLeaving(client: Client, evicted: bool)
    | Waiting(client: Client)
    | Opening(client: Client)
    | OpenFailed(client: Client)
    | RollingBack(pool: PoolId)
      // a connection in hand
    | Borrowed(pool: PoolId)
    | Using(pool: PoolId)
    | Destroying(pool: PoolId)
    | OneShotUsing
    | OneShotReturning
      // close_pool
    | Closing(pool: PoolId)
    | CloseReturning(owed: int)

  datatype State = State(
    pools: map<PoolId, Pool>,
    registry: map<Key, PoolId>,
    connections: int,
    threads: map<Thread, Place>,
    registryOwner: Option<Thread>,
    poolOwners: map<PoolId, Thread>)

  /** The global slot a thread's client keeps beyond the pools' created counts: 0 for a pool, 1 for a one-shot. */
  function Kept(client: Client): int {
    if client.OneShot? then 1 else 0
  }

  /** An acquire counted in created that holds no global slot. */
  function Unreserved(place: Place): int {
    match place
    case Reserving(c) => 1 - Kept(c)
    case Full(c) => 1 - Kept(c)
    case QuotaScan(c) => 1 - Kept(c)
    case QuotaClosing(c) => 1 - Kept(c)
    case QuotaReturning(c) => 1 - Kept(c)
    case QuotaLeaving(c, _) => 1 - Kept(c)
    case Waiting(c) => 1 - Kept(c)
    case RollingBack(_) => 1
    case _ => 0
  }

  /** Connections taken out of a pool's created count whose global slots are not returned yet. */
  function Unreturned(place: Place): int {
    match place
    case EvictionReturning(_, _, owed) => owed
    case CloseReturning(owed) => owed
    case QuotaClosing(_) => 1
    case QuotaReturning(_) => 1
    case Destroying(_) => 1
    case _ => 0
  }

  /** One-shot connections holding a global slot. */
  function OneShots(place: Place): int {
    match place
    case Opening(c) => Kept(c)
    case OpenFailed(c) => Kept(c)
    case OneShotUsing => 1
    case OneShotReturning => 1
    case _ => 0
  }

  function Owed(place: Place): int {
    Unreturned(place) + OneShots(place) - Unreserved(place)
  }

  /** Physical connections a thread has open outside the pools' idle lists. */
  function Open(place: Place): int {
    match place
    case Opening(_) => 1
    case Borrowed(_) => 1
    case Using(_) => 1
    case OneShotUsing => 1
    case QuotaClosing(_) => 1
    case _ => 0
  }

  /** The pool whose in_use counts the thread. */
  function BorrowedPool(place: Place): Option<PoolId> {
    match place
    case Reserving(ForPool(p)) => Some(p)
    case Full(ForPool(p)) => Some(p)
    case QuotaScan(ForPool(p)) => Some(p)
    case QuotaClosing(ForPool(p)) => Some(p)
    case QuotaReturning(ForPool(p)) => Some(p)
    case QuotaLeaving(ForPool(p), _) => Some(p)
    case Waiting(ForPool(p)) => Some(p)
    case Opening(ForPool(p)) => Some(p)
    case OpenFailed(ForPool(p)) => Some(p)
    case RollingBack(p) => Some(p)
    case Borrowed(p) => Some(p)
    case Using(p) => Some(p)
    case _ => None
  }

  /** The pool whose registry_references counts the thread: from get_pool until acquire is over. */
  function ReferencedPool(place: Place): Option<PoolId> {
    match place
    case LeavingRegistry(p) => Some(p)
    case Referenced(p) => Some(p)
    case AcquireFailed(p) => Some(p)
    case Using(_) => None
    case _ => BorrowedPool(place)
  }

  function Borrows(place: Place, p: PoolId): int {
    if BorrowedPool(place) == Some(p) then 1 else 0
  }

  function References(place: Place, p: PoolId): int {
    if ReferencedPool(place) == Some(p) then 1 else 0
  }

  predicate HoldsRegistry(place: Place) {
    place.InRegistry? || place.EvictionChecked? || place.EvictionReturning? || place.EvictionPopping?
    || place.Referencing? || place.LeavingRegistry?
    || place.QuotaScan? || place.QuotaClosing? || place.QuotaReturning? || place.QuotaLeaving?
  }

  function ClientDone(client: Client): Place {
    if client.ForPool? then RollingBack(client.pool) else Idle
  }

  datatype Action =
    | StartGet(key: Key)
    | CheckEviction(victim: Key)
    | CloseEvicted
    | ReturnEvicted
    | PopEvicted
    | LookUp
    | CreatePool(pool: PoolId, maximum: int)
    | GiveUpGet
    | AddReference
    | LeaveRegistry
    | Acquire
    | AcquireTimeout
    | Reserve
    | StartQuotaEviction
    | EvictIdle(victim: Key)
    | CloseEvictedIdle
    | ReturnEvictedIdle
    | GiveUpQuotaEviction
    | LeaveQuotaEviction
    | Wake
    | ReserveTimeout
    | OpenConnection(succeeded: bool)
    | ReturnUnopened
    | Rollback
    | DropReference
    | Release(broken: bool)
    | ReturnDestroyed
    | StartOneShot
    | CloseOneShot
    | ReturnOneShot
    | PopPool(key: Key)
    | ClosePopped
    | ReturnClosed

  /** A critical section of pool p can start. */
  predicate PoolFree(s: State, p: PoolId) {
    p in s.pools && p !in s.poolOwners
  }

  predicate Enabled(limits: Limits, s: State, t: Thread, a: Action) {
    && t in s.threads
    && var place := s.threads[t];
       match a
       case StartGet(_) => place.Idle? && s.registryOwner.None?
       case CheckEviction(victim) => place.InRegistry? && victim in s.registry && PoolFree(s, s.registry[victim])
       case CloseEvicted => place.EvictionChecked? && PoolFree(s, place.pool)
       case ReturnEvicted => place.EvictionReturning?
       case PopEvicted => place.EvictionPopping?
       case LookUp => place.InRegistry? && place.key in s.registry
       case CreatePool(p, maximum) =>
         place.InRegistry? && place.key !in s.registry && |s.registry| < limits.pools && p !in s.pools && maximum > 0
       case GiveUpGet => place.InRegistry? && place.key !in s.registry && |s.registry| >= limits.pools
       case AddReference => place.Referencing? && PoolFree(s, place.pool)
       case LeaveRegistry => place.LeavingRegistry?
       case Acquire => place.Referenced? && PoolFree(s, place.pool) && !BorrowSection(s.pools[place.pool]).0.MustWait?
       case AcquireTimeout => place.Referenced? && PoolFree(s, place.pool) && s.pools[place.pool].Exhausted()
       case Reserve => place.Reserving?
       case StartQuotaEviction => place.Full? && s.registryOwner.None?
       case EvictIdle(victim) => place.QuotaScan? && victim in s.registry && PoolFree(s, s.registry[victim])
       case CloseEvictedIdle => place.QuotaClosing?
       case ReturnEvictedIdle => place.QuotaReturning?
       case GiveUpQuotaEviction => place.QuotaScan?
       case LeaveQuotaEviction => place.QuotaLeaving?
       case Wake => place.Waiting?
       case ReserveTimeout => place.Waiting?
       case OpenConnection(_) => place.Opening?
       case ReturnUnopened => place.OpenFailed?
       case Rollback => place.RollingBack? && PoolFree(s, place.pool)
       case DropReference => (place.Borrowed? || place.AcquireFailed?) && PoolFree(s, place.pool)
       case Release(_) => place.Using? && PoolFree(s, place.pool)
       case ReturnDestroyed => place.Destroying?
       case StartOneShot => place.Idle?
       case CloseOneShot => place.OneShotUsing?
       case ReturnOneShot => place.OneShotReturning?
       case PopPool(_) => place.Idle? && s.registryOwner.None?
       case ClosePopped => place.Closing? && PoolFree(s, place.pool)
       case ReturnClosed => place.CloseReturning?
  }

  /** What one critical section does: the thread's next place, the change of the global count, the pool it rewrites. */
  datatype Section = Section(place: Place, change: int, pool: Option<(PoolId, Pool)>)

  function Goto(place: Place, change: int): Section {
    Section(place, change, None)
  }

  function Rewrite(p: PoolId, pool: Pool, place: Place): Section {
    Section(place, 0, Some((p, pool)))
  }

  /** Sections that leave every pool as it is. */
  function PlainSection(limits: Limits, s: State, t: Thread, a: Action): Section
    requires Enabled(limits, s, t, a) && !RewritesPool(a)
  {
    var place := s.threads[t];
    match a
    case StartGet(key) => Goto(InRegistry(key), 0)
    case CheckEviction(victim) =>
      var p := s.registry[victim];
      Goto(if s.pools[p].Evictable() then EvictionChecked(place.key, victim, p) else place, 0)
    case ReturnEvicted => Goto(EvictionPopping(place.key, place.victim), -place.owed)
    case PopEvicted => Goto(InRegistry(place.key), 0)
    case LookUp => Goto(Referencing(s.registry[place.key]), 0)
    case GiveUpGet => Goto(Idle, 0)
    case LeaveRegistry => Goto(Referenced(place.pool), 0)
    case AcquireTimeout => Goto(AcquireFailed(place.pool), 0)
    case Reserve =>
      if s.connections < limits.totalConnections then Goto(Opening(place.client), 1) else Goto(Full(place.client), 0)
    case StartQuotaEviction => Goto(QuotaScan(place.client), 0)
    case CloseEvictedIdle => Goto(QuotaReturning(place.client), 0)
    case ReturnEvictedIdle => Goto(QuotaLeaving(place.client, true), -1)
    case GiveUpQuotaEviction => Goto(QuotaLeaving(place.client, false), 0)
    case LeaveQuotaEviction => Goto(if place.evicted then Reserving(place.client) else Waiting(place.client), 0)
    case Wake => Goto(Reserving(place.client), 0)
    case ReserveTimeout => Goto(ClientDone(place.client), 0)
    case OpenConnection(succeeded) =>
      Goto(if !succeeded then OpenFailed(place.client)
           else if place.client.ForPool? then Borrowed(place.client.pool)
           else OneShotUsing, 0)
    case ReturnUnopened => Goto(ClientDone(place.client), -1)
    case ReturnDestroyed => Goto(Idle, -1)
    case StartOneShot => Goto(Reserving(OneShot), 0)
    case CloseOneShot => Goto(OneShotReturning, 0)
    case ReturnOneShot => Goto(Idle, -1)
    case PopPool(key) => Goto(if key in s.registry then Closing(s.registry[key]) else place, 0)
    case ReturnClosed => Goto(Idle, -place.owed)
  }

  predicate RewritesPool(a: Action) {
    a.CloseEvicted? || a.CreatePool? || a.AddReference? || a.Acquire? || a.EvictIdle? || a.Rollback? || a.DropReference?
    || a.Release? || a.ClosePopped?
  }

  /** Sections under one pool's condition. */
  function PoolSection(limits: Limits, s: State, t: Thread, a: Action): Section
    requires Enabled(limits, s, t, a) && RewritesPool(a)
  {
    var place := s.threads[t];
    match a
    case CloseEvicted =>
      var pool := s.pools[place.pool];
      Rewrite(place.pool, CloseSection(pool), EvictionReturning(place.key, place.victim, pool.idle))
    case CreatePool(p, maximum) => Rewrite(p, EmptyPool(maximum), Referencing(p))
    case AddReference =>
      var pool := s.pools[place.pool];
      if pool.closed then Goto(Idle, 0)
      else Rewrite(place.pool, pool.(references := pool.references + 1), LeavingRegistry(place.pool))
    case Acquire =>
      var (outcome, pool) := BorrowSection(s.pools[place.pool]);
      Rewrite(place.pool, pool,
        match outcome
        case Reused => Borrowed(place.pool)
        case MustOpen => Reserving(ForPool(place.pool))
        case _ => AcquireFailed(place.pool))
    case EvictIdle(victim) =>
      var p := s.registry[victim];
      var pool := s.pools[p];
      if pool.closed || pool.idle <= 0 then Goto(place, 0)
      else Rewrite(p, EvictOneSection(pool), QuotaClosing(place.client))
    case Rollback => Rewrite(place.pool, RollbackSection(s.pools[place.pool]), AcquireFailed(place.pool))
    case DropReference =>
      var pool := s.pools[place.pool];
      Rewrite(place.pool, pool.(references := pool.references - 1),
        if place.Borrowed? then Using(place.pool) else Idle)
    case Release(broken) =>
      var pool := s.pools[place.pool];
      Rewrite(place.pool, ReleaseSection(pool, broken), if broken || pool.closed then Destroying(place.pool) else Idle)
    case ClosePopped =>
      var pool := s.pools[place.pool];
      Rewrite(place.pool, CloseSection(pool), CloseReturning(pool.idle))
  }

  /** Moving to another place takes and gives back the locks the two places say. */
  function Move(s: State, t: Thread, place: Place, change: int): State
    requires t in s.threads
  {
    var was := s.threads[t];
    State(s.pools, s.registry, s.connections + change, s.threads[t := place],
          if HoldsRegistry(place) then Some(t) else if HoldsRegistry(was) then None else s.registryOwner,
          if place.Destroying? then s.poolOwners[place.pool := t]
          else if was.Destroying? then s.poolOwners - {was.pool}
          else s.poolOwners)
  }

  function RegistryAfter(registry: map<Key, PoolId>, place: Place, a: Action): map<Key, PoolId> {
    match a
    case PopEvicted => if place.EvictionPopping? then registry - {place.victim} else registry
    case CreatePool(p, _) => if place.InRegistry? then registry[place.key := p] else registry
    case PopPool(key) => registry - {key}
    case _ => registry
  }

  function Apply(limits: Limits, s: State, t: Thread, a: Action): State
    requires Enabled(limits, s, t, a)
  {
    var section := if RewritesPool(a) then PoolSection(limits, s, t, a) else PlainSection(limits, s, t, a);
    Move(s, t, section.place, section.change).(
      pools := if section.pool.Some? then s.pools[section.pool.value.0 := section.pool.value.1] else s.pools,
      registry := RegistryAfter(s.registry, s.threads[t], a))
  }

  // ---- Accounts: counters against the threads they count --------------------------------------------------

  ghost function BorrowsOf(p: PoolId): Place -> int {
    place => Borrows(place, p)
  }

  ghost function ReferencesOf(p: PoolId): Place -> int {
    place => References(place, p)
  }

  ghost const ANY_BORROW: Place -> int := place => if BorrowedPool(place).Some? then 1 else 0
  ghost const OWED: Place -> int := place => Owed(place)
  ghost const OPEN: Place -> int := place => Open(place)
  ghost const CREATED: Pool -> int := (pool: Pool) => pool.created
  ghost const IN_USE: Pool -> int := (pool: Pool) => pool.inUse
  ghost const IDLE: Pool -> int := (pool: Pool) => pool.idle

  ghost predicate PoolAccount(s: State, p: PoolId)
    requires p in s.pools
  {
    && s.pools[p].Valid()
    && s.pools[p].inUse == Sum(s.threads, BorrowsOf(p))
    && s.pools[p].references == Sum(s.threads, ReferencesOf(p))
  }

  ghost predicate Accounts(limits: Limits, s: State) {
    && (forall p | p in s.pools :: PoolAccount(s, p))
    && Sum(s.pools, IN_USE) == Sum(s.threads, ANY_BORROW)
    && s.connections == Sum(s.pools, CREATED) + Sum(s.threads, OWED)
    && s.connections <= limits.totalConnections
  }

  /** The local condition on a step: what thread t and pool p change must balance. */
  ghost predicate Balanced(s: State, t: Thread, place: Place, p: PoolId, pool: Pool, change: int)
    requires t in s.threads && p in s.pools
  {
    var was := s.threads[t];
    && pool.Valid()
    && pool.inUse - s.pools[p].inUse == Borrows(place, p) - Borrows(was, p)
    && pool.references - s.pools[p].references == References(place, p) - References(was, p)
    && (BorrowedPool(place) == BorrowedPool(was)
        || (BorrowedPool(place) in {None, Some(p)} && BorrowedPool(was) in {None, Some(p)}))
    && (ReferencedPool(place) == ReferencedPool(was)
        || (ReferencedPool(place) in {None, Some(p)} && ReferencedPool(was) in {None, Some(p)}))
    && change == pool.created - s.pools[p].created + Owed(place) - Owed(was)
  }

  lemma ThreadCountsFollow(s: State, t: Thread, place: Place, q: PoolId)
    requires t in s.threads
    ensures var moved := s.threads[t := place];
            && Sum(moved, BorrowsOf(q)) == Sum(s.threads, BorrowsOf(q)) + Borrows(place, q) - Borrows(s.threads[t], q)
            && Sum(moved, ReferencesOf(q))
               == Sum(s.threads, ReferencesOf(q)) + References(place, q) - References(s.threads[t], q)
  {
    SumAfterUpdate(s.threads, t, place, BorrowsOf(q));
    SumAfterUpdate(s.threads, t, place, ReferencesOf(q));
  }

  lemma TotalsFollow(s: State, t: Thread, place: Place, p: PoolId, pool: Pool)
    requires t in s.threads && p in s.pools
    ensures Sum(s.threads[t := place], ANY_BORROW)
         == Sum(s.threads, ANY_BORROW) + ANY_BORROW(place) - ANY_BORROW(s.threads[t])
    ensures Sum(s.threads[t := place], OWED) == Sum(s.threads, OWED) + Owed(place) - Owed(s.threads[t])
    ensures Sum(s.pools[p := pool], IN_USE) == Sum(s.pools, IN_USE) + pool.inUse - s.pools[p].inUse
    ensures Sum(s.pools[p := pool], CREATED) == Sum(s.pools, CREATED) + pool.created - s.pools[p].created
  {
    SumAfterUpdate(s.threads, t, place, ANY_BORROW);
    SumAfterUpdate(s.threads, t, place, OWED);
    SumAfterUpdate(s.pools, p, pool, IN_USE);
    SumAfterUpdate(s.pools, p, pool, CREATED);
  }

  lemma PoolStaysAccounted(
    s: State, t: Thread, place: Place, p: PoolId, pool: Pool, change: int, r: State, q: PoolId)
    requires t in s.threads && p in s.pools && q in s.pools && PoolAccount(s, q)
    requires Balanced(s, t, place, p, pool, change)
    requires r.threads == s.threads[t := place] && r.pools == s.pools[p := pool]
    ensures PoolAccount(r, q)
  {
    ThreadCountsFollow(s, t, place, q);
  }

  lemma BalancedStepKeepsAccounts(
    limits: Limits, s: State, t: Thread, place: Place, p: PoolId, pool: Pool, change: int, r: State)
    requires Accounts(limits, s) && t in s.threads && p in s.pools
    requires Balanced(s, t, place, p, pool, change)
    requires r.threads == s.threads[t := place] && r.pools == s.pools[p := pool]
    requires r.connections == s.connections + change <= limits.totalConnections
    ensures Accounts(limits, r)
  {
    forall q | q in r.pools ensures PoolAccount(r, q) {
      PoolStaysAccounted(s, t, place, p, pool, change, r, q);
    }
    TotalsFollow(s, t, place, p, pool);
  }

  /** A step that leaves every pool alone. */
  lemma LoneStepKeepsAccounts(limits: Limits, s: State, t: Thread, place: Place, change: int, r: State)
    requires Accounts(limits, s) && t in s.threads
    requires BorrowedPool(place) == BorrowedPool(s.threads[t]) && ReferencedPool(place) == ReferencedPool(s.threads[t])
    requires change == Owed(place) - Owed(s.threads[t])
    requires r.threads == s.threads[t := place] && r.pools == s.pools
    requires r.connections == s.connections + change <= limits.totalConnections
    ensures Accounts(limits, r)
  {
    forall q | q in r.pools ensures PoolAccount(r, q) {
      assert PoolAccount(s, q);
      SumAfterUpdate(s.threads, t, place, BorrowsOf(q));
      SumAfterUpdate(s.threads, t, place, ReferencesOf(q));
    }
    SumAfterUpdate(s.threads, t, place, ANY_BORROW);
    SumAfterUpdate(s.threads, t, place, OWED);
  }

  // ---- Structure: who holds which lock, and which pools may be closed ---------------------------------------

  ghost predicate Registered(s: State, p: PoolId) {
    exists k :: k in s.registry && s.registry[k] == p
  }

  ghost predicate RegistryIsSound(limits: Limits, s: State) {
    && |s.registry| <= limits.pools
    && (forall k | k in s.registry :: s.registry[k] in s.pools)
    && InjectiveRegistry(s)
  }

  ghost predicate InjectiveRegistry(s: State) {
    forall j, k | j in s.registry && k in s.registry && s.registry[j] == s.registry[k] :: j == k
  }

  predicate Evicting(place: Place, k: Key) {
    (place.EvictionReturning? || place.EvictionPopping?) && place.victim == k
  }

  /** The owner of the registry lock has closed the pool under key k and is about to remove it. */
  predicate BeingEvicted(s: State, k: Key) {
    && s.registryOwner.Some? && s.registryOwner.value in s.threads
    && Evicting(s.threads[s.registryOwner.value], k)
  }

  ghost predicate OpenPools(s: State) {
    forall k | k in s.registry && s.registry[k] in s.pools && s.pools[s.registry[k]].closed :: BeingEvicted(s, k)
  }

  predicate CountsAKnownPool(s: State, place: Place) {
    && (BorrowedPool(place).Some? ==> BorrowedPool(place).value in s.pools)
    && (ReferencedPool(place).Some? ==> ReferencedPool(place).value in s.pools)
  }

  ghost predicate PoolsKnown(s: State, place: Place) {
       match place
       case EvictionChecked(_, victim, p) =>
         victim in s.registry && s.registry[victim] == p && p in s.pools
         && s.pools[p].inUse == 0 && s.pools[p].references == 0
       case EvictionReturning(_, victim, owed) => victim in s.registry && owed >= 0
       case EvictionPopping(_, victim) => victim in s.registry
       case Referencing(p) => Registered(s, p) && p in s.pools
       case LeavingRegistry(p) => Registered(s, p)
       case Destroying(p) => p in s.pools
       case Closing(p) => p in s.pools && !Registered(s, p)
       case CloseReturning(owed) => owed >= 0
       case _ => true
  }

  ghost predicate OwnsItsPool(s: State, t: Thread)
    requires t in s.threads
  {
    forall p :: s.threads[t] == Destroying(p) <==> p in s.poolOwners && s.poolOwners[p] == t
  }

  ghost predicate Placed(s: State, t: Thread)
    requires t in s.threads
  {
    && (HoldsRegistry(s.threads[t]) <==> s.registryOwner == Some(t))
    && CountsAKnownPool(s, s.threads[t])
    && PoolsKnown(s, s.threads[t])
    && OwnsItsPool(s, t)
  }

  ghost predicate LocksHaveOwners(s: State) {
    && (s.registryOwner.Some? ==> s.registryOwner.value in s.threads)
    && (forall p | p in s.poolOwners :: s.poolOwners[p] in s.threads && p in s.pools)
  }

  ghost predicate Structure(limits: Limits, s: State) {
    && RegistryIsSound(limits, s)
    && OpenPools(s)
    && LocksHaveOwners(s)
    && (forall t | t in s.threads :: Placed(s, t))
  }

  ghost predicate Invariant(limits: Limits, s: State) {
    Structure(limits, s) && Accounts(limits, s)
  }

  // ---- The gap between checking a victim and closing it ----------------------------------------------------

  lemma CountedThread(limits: Limits, s: State, t: Thread, p: PoolId)
    requires Accounts(limits, s) && t in s.threads && p in s.pools
    ensures Borrows(s.threads[t], p) <= s.pools[p].inUse
    ensures References(s.threads[t], p) <= s.pools[p].references
  {
    assert PoolAccount(s, p);
    TermIsBounded(s.threads, t, BorrowsOf(p));
    TermIsBounded(s.threads, t, ReferencesOf(p));
  }

  /** Thread t may enter a critical section of pool p that changes it. */
  ghost predicate MayChange(s: State, t: Thread, p: PoolId)
    requires t in s.threads
  {
    var place := s.threads[t];
    HoldsRegistry(place) || BorrowedPool(place) == Some(p) || ReferencedPool(place) == Some(p) || place == Closing(p)
  }

  /** While a victim waits between the check and the close, no other thread can change it. */
  lemma VictimIsUntouched(limits: Limits, s: State, t: Thread, u: Thread, p: PoolId)
    requires Invariant(limits, s)
    requires t in s.threads && u in s.threads && t != u && p in s.pools
    requires MayChange(s, t, p)
    ensures s.threads[u].EvictionChecked? ==> s.threads[u].pool != p
  {
    if s.threads[u].EvictionChecked? && s.threads[u].pool == p {
      assert Placed(s, u) && Placed(s, t);
      CountedThread(limits, s, t, p);
    }
  }

  // ---- Every step keeps the structure ------------------------------------------------------------------------

  /** What thread t may change besides its own place: pool p, and the locks its two places say. */
  ghost predicate Moves(s: State, t: Thread, place: Place, p: PoolId, r: State) {
    && t in s.threads && r.threads == s.threads[t := place]
    && r.pools.Keys == s.pools.Keys
    && (forall q | q in s.pools && q != p :: r.pools[q] == s.pools[q])
    && (p in s.pools && r.pools[p] != s.pools[p] ==> MayChange(s, t, p))
    && (HoldsRegistry(place) ==> s.registryOwner in {None, Some(t)})
    && r.registryOwner
       == (if HoldsRegistry(place) then Some(t) else if HoldsRegistry(s.threads[t]) then None else s.registryOwner)
    && (place.Destroying? ==> p == place.pool && p in s.pools && p !in s.poolOwners && !s.threads[t].Destroying?)
    && r.poolOwners == (if place.Destroying? then s.poolOwners[p := t]
                        else if s.threads[t].Destroying? then s.poolOwners - {s.threads[t].pool} else s.poolOwners)
  }

  lemma SameRegistry(s: State, r: State)
    requires r.registry == s.registry
    ensures forall q :: Registered(r, q) <==> Registered(s, q)
  {
  }

  lemma KnowledgeLasts(s: State, r: State, place: Place)
    requires PoolsKnown(s, place) && r.registry == s.registry && r.pools.Keys == s.pools.Keys
    requires place.EvictionChecked? && place.pool in s.pools ==> r.pools[place.pool] == s.pools[place.pool]
    ensures PoolsKnown(r, place)
  {
    SameRegistry(s, r);
  }

  lemma OwnersLast(s: State, t: Thread, place: Place, p: PoolId, r: State, u: Thread)
    requires Moves(s, t, place, p, r) && OwnsItsPool(s, t)
    requires u in s.threads && u != t && OwnsItsPool(s, u)
    ensures OwnsItsPool(r, u)
  {
  }

  lemma OtherStaysPlaced(limits: Limits, s: State, t: Thread, place: Place, p: PoolId, r: State, u: Thread)
    requires Invariant(limits, s) && Moves(s, t, place, p, r) && r.registry == s.registry
    requires u in s.threads && u != t
    ensures Placed(r, u)
  {
    assert Placed(s, u) && Placed(s, t);
    OwnersLast(s, t, place, p, r, u);
    if p in s.pools && r.pools[p] != s.pools[p] {
      VictimIsUntouched(limits, s, t, u, p);
    }
    KnowledgeLasts(s, r, s.threads[u]);
  }

  lemma OpenPoolsStayOpen(s: State, t: Thread, place: Place, p: PoolId, r: State)
    requires OpenPools(s) && InjectiveRegistry(s) && LocksHaveOwners(s)
    requires t in s.threads && Placed(s, t)
    requires Moves(s, t, place, p, r) && r.registry == s.registry
    requires forall k :: Evicting(s.threads[t], k) ==> Evicting(place, k)
    requires p in s.pools && r.pools[p].closed != s.pools[p].closed ==>
               s.threads[t] == Closing(p)
               || (place.EvictionReturning? && place.victim in s.registry && s.registry[place.victim] == p)
    ensures OpenPools(r)
  {
    forall k | k in r.registry && r.registry[k] in r.pools && r.pools[r.registry[k]].closed ensures BeingEvicted(r, k) {
      assert Registered(s, s.registry[k]);
      if s.pools[s.registry[k]].closed {
        assert BeingEvicted(s, k);
        assert Evicting(s.threads[s.registryOwner.value], k);
      }
    }
  }

  lemma MoverIsPlaced(s: State, t: Thread, place: Place, p: PoolId, r: State)
    requires Moves(s, t, place, p, r) && Placed(s, t)
    requires CountsAKnownPool(r, place) && PoolsKnown(r, place)
    ensures Placed(r, t)
  {
    assert r.threads[t] == place;
    assert OwnsItsPool(r, t);
  }

  lemma LocksKeepOwners(s: State, t: Thread, place: Place, p: PoolId, r: State)
    requires Moves(s, t, place, p, r) && LocksHaveOwners(s)
    ensures LocksHaveOwners(r)
  {
  }

  lemma MoveKeepsStructure(limits: Limits, s: State, t: Thread, place: Place, p: PoolId, r: State)
    requires Invariant(limits, s) && Moves(s, t, place, p, r) && r.registry == s.registry
    requires CountsAKnownPool(r, place) && PoolsKnown(r, place)
    requires forall k :: Evicting(s.threads[t], k) ==> Evicting(place, k)
    requires p in s.pools && r.pools[p].closed != s.pools[p].closed ==>
               s.threads[t] == Closing(p)
               || (place.EvictionReturning? && place.victim in s.registry && s.registry[place.victim] == p)
    ensures Structure(limits, r)
  {
    assert Placed(s, t);
    assert OpenPools(r) by { OpenPoolsStayOpen(s, t, place, p, r); }
    assert LocksHaveOwners(r) by { LocksKeepOwners(s, t, place, p, r); }
    assert r.threads.Keys == s.threads.Keys;
    assert Placed(r, t) by { MoverIsPlaced(s, t, place, p, r); }
    forall u | u in s.threads && u != t ensures Placed(r, u) {
      OtherStaysPlaced(limits, s, t, place, p, r, u);
    }
  }

  // ---- Every action keeps the invariant ------------------------------------------------------------------------

  /** A step that leaves every pool and the registry alone, and keeps thread t counted where it was. */
  ghost predicate LoneMove(limits: Limits, s: State, was: Place, place: Place, change: int)
  {
    && !place.Destroying?
    && (HoldsRegistry(place) && !HoldsRegistry(was) ==> s.registryOwner == None)
    && PoolsKnown(s, place)
    && BorrowedPool(place) == BorrowedPool(was) && ReferencedPool(place) == ReferencedPool(was)
    && (was.EvictionReturning? || was.EvictionPopping? ==> Evicting(place, was.victim))
    && change == Owed(place) - Owed(was)
    && s.connections + change <= limits.totalConnections
  }

  lemma LoneMoveMoves(limits: Limits, s: State, t: Thread, place: Place, change: int)
    requires t in s.threads && Placed(s, t) && LoneMove(limits, s, s.threads[t], place, change)
    ensures Moves(s, t, place, 0, Move(s, t, place, change))
    ensures CountsAKnownPool(s, place)
    ensures PoolsKnown(Move(s, t, place, change), place)
  {
    KnowledgeLasts(s, Move(s, t, place, change), place);
  }

  lemma LoneMoveKeepsInvariant(limits: Limits, s: State, t: Thread, place: Place, change: int)
    requires Invariant(limits, s) && t in s.threads && LoneMove(limits, s, s.threads[t], place, change)
    ensures Invariant(limits, Move(s, t, place, change))
  {
    LoneMoveMoves(limits, s, t, place, change);
    MoveKeepsStructure(limits, s, t, place, 0, Move(s, t, place, change));
    LoneStepKeepsAccounts(limits, s, t, place, change, Move(s, t, place, change));
  }

  predicate ChangesRegistry(a: Action) {
    a.PopEvicted? || a.CreatePool? || a.PopPool?
  }

  predicate UnderRegistryLock(a: Action) {
    a.StartGet? || a.CheckEviction? || a.LookUp? || a.GiveUpGet? || a.LeaveRegistry? || a.StartQuotaEviction?
    || a.GiveUpQuotaEviction? || a.LeaveQuotaEviction?
  }

  lemma RegistrySectionIsLone(limits: Limits, s: State, t: Thread, a: Action)
    requires t in s.threads && Placed(s, t) && s.connections <= limits.totalConnections && RegistryIsSound(limits, s)
    requires Enabled(limits, s, t, a) && UnderRegistryLock(a)
    ensures var section := PlainSection(limits, s, t, a);
            LoneMove(limits, s, s.threads[t], section.place, section.change)
  {
    assert a.LookUp? ==> Registered(s, s.registry[s.threads[t].key]);
  }

  predicate ReturnsSlots(a: Action) {
    a.ReturnEvicted? || a.ReturnEvictedIdle? || a.ReturnUnopened? || a.ReturnDestroyed? || a.ReturnOneShot?
    || a.ReturnClosed?
  }

  lemma ReturningSectionIsLone(limits: Limits, s: State, t: Thread, a: Action)
    requires t in s.threads && Placed(s, t) && s.connections <= limits.totalConnections
    requires Enabled(limits, s, t, a) && ReturnsSlots(a)
    ensures var section := PlainSection(limits, s, t, a);
            LoneMove(limits, s, s.threads[t], section.place, section.change)
  {
  }

  lemma OpeningSectionIsLone(limits: Limits, s: State, t: Thread, a: Action)
    requires t in s.threads && Placed(s, t) && s.connections <= limits.totalConnections
    requires Enabled(limits, s, t, a) && (a.Reserve? || a.OpenConnection? || a.ReserveTimeout?)
    ensures var section := PlainSection(limits, s, t, a);
            LoneMove(limits, s, s.threads[t], section.place, section.change)
  {
  }

  lemma OtherSectionIsLone(limits: Limits, s: State, t: Thread, a: Action)
    requires t in s.threads && Placed(s, t) && s.connections <= limits.totalConnections
    requires Enabled(limits, s, t, a)
    requires a.CloseEvictedIdle? || a.Wake? || a.AcquireTimeout? || a.StartOneShot? || a.CloseOneShot?
    ensures var section := PlainSection(limits, s, t, a);
            LoneMove(limits, s, s.threads[t], section.place, section.change)
  {
  }

  lemma PlainSectionIsLone(limits: Limits, s: State, t: Thread, a: Action)
    requires t in s.threads && Placed(s, t) && s.connections <= limits.totalConnections && RegistryIsSound(limits, s)
    requires Enabled(limits, s, t, a) && !RewritesPool(a) && !ChangesRegistry(a)
    ensures var section := PlainSection(limits, s, t, a);
            LoneMove(limits, s, s.threads[t], section.place, section.change)
  {
    if UnderRegistryLock(a) {
      RegistrySectionIsLone(limits, s, t, a);
    } else if ReturnsSlots(a) {
      ReturningSectionIsLone(limits, s, t, a);
    } else if a.Reserve? || a.OpenConnection? || a.ReserveTimeout? {
      OpeningSectionIsLone(limits, s, t, a);
    } else {
      OtherSectionIsLone(limits, s, t, a);
    }
  }

  lemma PlainStepIsMove(limits: Limits, s: State, t: Thread, a: Action)
    requires t in s.threads && Enabled(limits, s, t, a) && !RewritesPool(a) && !ChangesRegistry(a)
    ensures var section := PlainSection(limits, s, t, a);
            Apply(limits, s, t, a) == Move(s, t, section.place, section.change)
  {
  }

  lemma PlainStepKeepsInvariant(limits: Limits, s: State, t: Thread, a: Action)
    requires Invariant(limits, s) && Enabled(limits, s, t, a) && !RewritesPool(a) && !ChangesRegistry(a)
    ensures Invariant(limits, Apply(limits, s, t, a))
  {
    var section := PlainSection(limits, s, t, a);
    assert Placed(s, t);
    PlainSectionIsLone(limits, s, t, a);
    LoneMoveKeepsInvariant(limits, s, t, section.place, section.change);
    PlainStepIsMove(limits, s, t, a);
  }

  /** A step that rewrites pool p and leaves the registry alone. */
  ghost predicate PoolMove(s: State, t: Thread, place: Place, p: PoolId, pool: Pool)
    requires t in s.threads
  {
    var was := s.threads[t];
    && p in s.pools && p !in s.poolOwners && MayChange(s, t, p)
    && Balanced(s, t, place, p, pool, 0)
    && !was.Destroying? && (place.Destroying? ==> place.pool == p)
    && (HoldsRegistry(place) ==> HoldsRegistry(was))
    && CountsAKnownPool(s, place)
    && PoolsKnown(s.(pools := s.pools[p := pool]), place)
    && !was.EvictionReturning? && !was.EvictionPopping?
    && (pool.closed == s.pools[p].closed
        || was == Closing(p)
        || (place.EvictionReturning? && place.victim in s.registry && s.registry[place.victim] == p))
  }

  lemma PoolMoveMoves(limits: Limits, s: State, t: Thread, place: Place, p: PoolId, pool: Pool)
    requires t in s.threads && Placed(s, t) && PoolMove(s, t, place, p, pool)
    ensures var r := Move(s, t, place, 0).(pools := s.pools[p := pool]);
            Moves(s, t, place, p, r) && CountsAKnownPool(r, place) && PoolsKnown(r, place)
  {
    var r := Move(s, t, place, 0).(pools := s.pools[p := pool]);
    KnowledgeLasts(s.(pools := s.pools[p := pool]), r, place);
  }

  lemma PoolMoveKeepsInvariant(limits: Limits, s: State, t: Thread, place: Place, p: PoolId, pool: Pool)
    requires Invariant(limits, s) && t in s.threads && PoolMove(s, t, place, p, pool)
    ensures Invariant(limits, Move(s, t, place, 0).(pools := s.pools[p := pool]))
  {
    var r := Move(s, t, place, 0).(pools := s.pools[p := pool]);
    PoolMoveMoves(limits, s, t, place, p, pool);
    MoveKeepsStructure(limits, s, t, place, p, r);
    BalancedStepKeepsAccounts(limits, s, t, place, p, pool, 0, r);
  }

  /** What the invariant says about the pool a thread is about to enter. */
  ghost predicate Standing(limits: Limits, s: State, t: Thread) {
    && t in s.threads && Placed(s, t) && RegistryIsSound(limits, s) && OpenPools(s)
    && (forall p | p in s.pools ::
          s.pools[p].Valid() && Borrows(s.threads[t], p) <= s.pools[p].inUse
              && References(s.threads[t], p) <= s.pools[p].references)
  }

  lemma ThreadStands(limits: Limits, s: State, t: Thread)
    requires Invariant(limits, s) && t in s.threads
    ensures Standing(limits, s, t)
  {
    forall p | p in s.pools
      ensures s.pools[p].Valid() && Borrows(s.threads[t], p) <= s.pools[p].inUse
              && References(s.threads[t], p) <= s.pools[p].references
    {
      CountedThread(limits, s, t, p);
      assert PoolAccount(s, p);
    }
  }

  lemma ReferencingIsBalanced(limits: Limits, s: State, t: Thread, a: Action)
    requires Standing(limits, s, t) && Enabled(limits, s, t, a) && a.AddReference?
    ensures var section := PoolSection(limits, s, t, a);
            section.pool.Some? && PoolMove(s, t, section.place, section.pool.value.0, section.pool.value.1)
  {
  }

  lemma BorrowingIsBalanced(limits: Limits, s: State, t: Thread, a: Action)
    requires Standing(limits, s, t) && Enabled(limits, s, t, a) && a.Acquire?
    ensures var section := PoolSection(limits, s, t, a);
            section.pool.Some? && PoolMove(s, t, section.place, section.pool.value.0, section.pool.value.1)
  {
  }

  lemma RollingBackIsBalanced(limits: Limits, s: State, t: Thread, a: Action)
    requires Standing(limits, s, t) && Enabled(limits, s, t, a) && a.Rollback?
    ensures var section := PoolSection(limits, s, t, a);
            section.pool.Some? && PoolMove(s, t, section.place, section.pool.value.0, section.pool.value.1)
  {
  }

  lemma AcquiringSectionIsBalanced(limits: Limits, s: State, t: Thread, a: Action)
    requires Standing(limits, s, t) && Enabled(limits, s, t, a)
    requires a.AddReference? || a.Acquire? || a.Rollback?
    ensures var section := PoolSection(limits, s, t, a);
            section.pool.Some? && PoolMove(s, t, section.place, section.pool.value.0, section.pool.value.1)
  {
    if a.AddReference? {
      ReferencingIsBalanced(limits, s, t, a);
    } else if a.Acquire? {
      BorrowingIsBalanced(limits, s, t, a);
    } else {
      RollingBackIsBalanced(limits, s, t, a);
    }
  }

  lemma DroppingIsBalanced(limits: Limits, s: State, t: Thread, a: Action)
    requires Standing(limits, s, t) && Enabled(limits, s, t, a) && a.DropReference?
    ensures var section := PoolSection(limits, s, t, a);
            section.pool.Some? && PoolMove(s, t, section.place, section.pool.value.0, section.pool.value.1)
  {
  }

  lemma GivingBackIsBalanced(limits: Limits, s: State, t: Thread, a: Action)
    requires Standing(limits, s, t) && Enabled(limits, s, t, a) && a.Release?
    ensures var section := PoolSection(limits, s, t, a);
            section.pool.Some? && PoolMove(s, t, section.place, section.pool.value.0, section.pool.value.1)
  {
  }

  lemma ReleasingSectionIsBalanced(limits: Limits, s: State, t: Thread, a: Action)
    requires Standing(limits, s, t) && Enabled(limits, s, t, a)
    requires a.DropReference? || a.Release?
    ensures var section := PoolSection(limits, s, t, a);
            section.pool.Some? && PoolMove(s, t, section.place, section.pool.value.0, section.pool.value.1)
  {
    if a.DropReference? {
      DroppingIsBalanced(limits, s, t, a);
    } else {
      GivingBackIsBalanced(limits, s, t, a);
    }
  }

  lemma ClosingSectionIsBalanced(limits: Limits, s: State, t: Thread, a: Action)
    requires Standing(limits, s, t) && Enabled(limits, s, t, a)
    requires a.CloseEvicted? || a.ClosePopped?
    ensures var section := PoolSection(limits, s, t, a);
            section.pool.Some? && PoolMove(s, t, section.place, section.pool.value.0, section.pool.value.1)
  {
  }

  lemma EvictingSectionIsBalanced(limits: Limits, s: State, t: Thread, a: Action)
    requires Standing(limits, s, t) && Enabled(limits, s, t, a) && a.EvictIdle?
    ensures var section := PoolSection(limits, s, t, a);
            section.pool.Some? ==> PoolMove(s, t, section.place, section.pool.value.0, section.pool.value.1)
  {
  }

  lemma IdleSectionChangesNothing(limits: Limits, s: State, t: Thread, a: Action)
    requires Invariant(limits, s) && Enabled(limits, s, t, a) && a.EvictIdle?
    requires PoolSection(limits, s, t, a).pool.None?
    ensures Apply(limits, s, t, a) == s
  {
    assert Placed(s, t);
    assert s.threads[t := s.threads[t]] == s.threads;
  }

  lemma PoolSectionIsBalanced(limits: Limits, s: State, t: Thread, a: Action)
    requires Standing(limits, s, t) && Enabled(limits, s, t, a) && RewritesPool(a) && !ChangesRegistry(a)
    ensures var section := PoolSection(limits, s, t, a);
            && (section.pool.Some? ==> PoolMove(s, t, section.place, section.pool.value.0, section.pool.value.1))
            && (section.pool.None? ==> a.EvictIdle?)
  {
    if a.EvictIdle? {
      EvictingSectionIsBalanced(limits, s, t, a);
    } else if a.CloseEvicted? || a.ClosePopped? {
      ClosingSectionIsBalanced(limits, s, t, a);
    } else if a.DropReference? || a.Release? {
      ReleasingSectionIsBalanced(limits, s, t, a);
    } else {
      AcquiringSectionIsBalanced(limits, s, t, a);
    }
  }

  lemma PoolStepKeepsInvariant(limits: Limits, s: State, t: Thread, a: Action)
    requires Invariant(limits, s) && Enabled(limits, s, t, a) && RewritesPool(a) && !ChangesRegistry(a)
    ensures Invariant(limits, Apply(limits, s, t, a))
  {
    ThreadStands(limits, s, t);
    PoolSectionIsBalanced(limits, s, t, a);
    var section := PoolSection(limits, s, t, a);
    if section.pool.None? {
      IdleSectionChangesNothing(limits, s, t, a);
    } else {
      PoolMoveKeepsInvariant(limits, s, t, section.place, section.pool.value.0, section.pool.value.1);
      SectionChangesNoSlot(limits, s, t, a);
    }
  }

  lemma SectionChangesNoSlot(limits: Limits, s: State, t: Thread, a: Action)
    requires Enabled(limits, s, t, a) && RewritesPool(a)
    ensures PoolSection(limits, s, t, a).change == 0
  {
  }

  // ---- The three steps that change the registry -----------------------------------------------------------------

  lemma RemovalKeepsRegistry(limits: Limits, s: State, key: Key, r: State)
    requires RegistryIsSound(limits, s) && r.registry == s.registry - {key} && r.pools == s.pools
    ensures RegistryIsSound(limits, r)
    ensures forall q :: Registered(r, q) ==> Registered(s, q)
    ensures forall q :: Registered(s, q) && !Registered(r, q) ==> key in s.registry && q == s.registry[key]
  {
    assert |r.registry| <= |s.registry| by {
      if key in s.registry {
        assert r.registry.Keys == s.registry.Keys - {key};
        assert |r.registry.Keys| <= |s.registry.Keys|;
      } else {
        assert r.registry == s.registry;
      }
    }
    forall q | Registered(r, q) ensures Registered(s, q) {
      var k :| k in r.registry && r.registry[k] == q;
      assert s.registry[k] == q;
    }
    forall q | Registered(s, q) && (key in s.registry ==> q != s.registry[key]) ensures Registered(r, q) {
      var k :| k in s.registry && s.registry[k] == q;
      assert r.registry[k] == q;
    }
  }

  /** Other threads never rely on a registration, so the registry may change under the lock. */
  lemma OthersIgnoreRegistry(s: State, t: Thread, u: Thread, r: State)
    requires t in s.threads && u in s.threads && u != t && Placed(s, t) && Placed(s, u)
    requires HoldsRegistry(s.threads[t]) || s.registryOwner == None
    requires t in r.threads && r.threads == s.threads[t := r.threads[t]]
    requires r.poolOwners == s.poolOwners && r.registryOwner in {None, Some(t)}
    requires forall q | q in s.pools :: q in r.pools && r.pools[q] == s.pools[q]
    requires forall q | q in s.pools :: Registered(r, q) ==> Registered(s, q)
    ensures Placed(r, u)
  {
    assert CountsAKnownPool(r, s.threads[u]);
    assert PoolsKnown(r, s.threads[u]);
    assert OwnsItsPool(r, u);
  }

  /** Thread t takes a key out of the registry, which it has locked or nobody has. */
  ghost predicate Removes(s: State, t: Thread, key: Key, place: Place) {
    && t in s.threads && Placed(s, t)
    && var was := s.threads[t];
       || (place.InRegistry? && was == EvictionPopping(place.key, key))
       || (was == Idle && s.registryOwner == None && key in s.registry && place == Closing(s.registry[key]))
  }

  function Removal(s: State, t: Thread, key: Key, place: Place): State
    requires t in s.threads
  {
    Move(s, t, place, 0).(registry := s.registry - {key})
  }

  lemma RemoverIsPlaced(limits: Limits, s: State, t: Thread, key: Key, place: Place)
    requires RegistryIsSound(limits, s) && Removes(s, t, key, place)
    ensures Placed(Removal(s, t, key, place), t)
  {
    var r := Removal(s, t, key, place);
    RemovalKeepsRegistry(limits, s, key, r);
    assert r.threads[t] == place;
    assert OwnsItsPool(r, t);
  }

  lemma RemovalKeepsOpenPools(s: State, t: Thread, key: Key, place: Place)
    requires OpenPools(s) && Removes(s, t, key, place)
    ensures OpenPools(Removal(s, t, key, place))
  {
    var r := Removal(s, t, key, place);
    assert forall k | k in r.registry :: k != key && k in s.registry && s.registry[k] == r.registry[k];
    assert forall k :: BeingEvicted(s, k) ==> k == key;
  }

  lemma RemovalLeavesOthersPlaced(limits: Limits, s: State, t: Thread, key: Key, place: Place, u: Thread)
    requires RegistryIsSound(limits, s) && Removes(s, t, key, place)
    requires u in s.threads && u != t && Placed(s, u)
    ensures Placed(Removal(s, t, key, place), u)
  {
    RemovalKeepsRegistry(limits, s, key, Removal(s, t, key, place));
    OthersIgnoreRegistry(s, t, u, Removal(s, t, key, place));
  }

  lemma RemovalKeepsStructure(limits: Limits, s: State, t: Thread, key: Key, place: Place)
    requires Structure(limits, s) && Removes(s, t, key, place)
    ensures Structure(limits, Removal(s, t, key, place))
  {
    var r := Removal(s, t, key, place);
    assert RegistryIsSound(limits, r) by { RemovalKeepsRegistry(limits, s, key, r); }
    RemovalKeepsOpenPools(s, t, key, place);
    assert r.threads.Keys == s.threads.Keys;
    RemoverIsPlaced(limits, s, t, key, place);
    forall u | u in s.threads && u != t ensures Placed(r, u) {
      RemovalLeavesOthersPlaced(limits, s, t, key, place, u);
    }
  }

  lemma RemovalKeepsAccounts(limits: Limits, s: State, t: Thread, key: Key, place: Place)
    requires Accounts(limits, s) && Removes(s, t, key, place)
    ensures Accounts(limits, Removal(s, t, key, place))
  {
    LoneStepKeepsAccounts(limits, s, t, place, 0, Removal(s, t, key, place));
  }

  lemma RemovalStep(limits: Limits, s: State, t: Thread, a: Action)
    requires t in s.threads && Placed(s, t)
    requires Enabled(limits, s, t, a) && (a.PopEvicted? || (a.PopPool? && a.key in s.registry))
    ensures var key := if a.PopEvicted? then s.threads[t].victim else a.key;
            var place := if a.PopEvicted? then InRegistry(s.threads[t].key) else Closing(s.registry[key]);
            Removes(s, t, key, place) && Apply(limits, s, t, a) == Removal(s, t, key, place)
  {
  }

  lemma PopNothing(limits: Limits, s: State, t: Thread, a: Action)
    requires Enabled(limits, s, t, a) && a.PopPool? && a.key !in s.registry
    ensures Apply(limits, s, t, a) == s
  {
    assert s.threads[t := s.threads[t]] == s.threads;
    assert s.registry - {a.key} == s.registry;
  }

  lemma RemovalStepKeepsInvariant(limits: Limits, s: State, t: Thread, a: Action)
    requires Invariant(limits, s) && Enabled(limits, s, t, a) && (a.PopEvicted? || a.PopPool?)
    ensures Invariant(limits, Apply(limits, s, t, a))
  {
    if a.PopPool? && a.key !in s.registry {
      PopNothing(limits, s, t, a);
    } else {
      RemovalStep(limits, s, t, a);
      var key := if a.PopEvicted? then s.threads[t].victim else a.key;
      var place := if a.PopEvicted? then InRegistry(s.threads[t].key) else Closing(s.registry[key]);
      RemovalKeepsStructure(limits, s, t, key, place);
      RemovalKeepsAccounts(limits, s, t, key, place);
    }
  }

  // ---- A new pool ------------------------------------------------------------------------------------------------

  function Creation(s: State, t: Thread, key: Key, p: PoolId, maximum: int): State
    requires t in s.threads
  {
    Move(s, t, Referencing(p), 0).(pools := s.pools[p := EmptyPool(maximum)], registry := s.registry[key := p])
  }

  ghost predicate Creates(limits: Limits, s: State, t: Thread, key: Key, p: PoolId, maximum: int) {
    && t in s.threads && Placed(s, t) && s.threads[t] == InRegistry(key)
    && key !in s.registry && |s.registry| < limits.pools && p !in s.pools && maximum > 0
  }

  lemma CreationKeepsRegistry(limits: Limits, s: State, t: Thread, key: Key, p: PoolId, maximum: int)
    requires RegistryIsSound(limits, s) && Creates(limits, s, t, key, p, maximum)
    ensures var r := Creation(s, t, key, p, maximum);
            && RegistryIsSound(limits, r) && Registered(r, p)
            && (forall q | q in s.pools :: Registered(r, q) ==> Registered(s, q))
  {
    var r := Creation(s, t, key, p, maximum);
    assert r.registry.Keys == s.registry.Keys + {key};
    assert r.registry[key] == p;
    forall q | q in s.pools && Registered(r, q) ensures Registered(s, q) {
      var k :| k in r.registry && r.registry[k] == q;
      assert k in s.registry && s.registry[k] == q;
    }
  }

  lemma CreationKeepsOpenPools(limits: Limits, s: State, t: Thread, key: Key, p: PoolId, maximum: int)
    requires RegistryIsSound(limits, s) && OpenPools(s) && Creates(limits, s, t, key, p, maximum)
    ensures OpenPools(Creation(s, t, key, p, maximum))
  {
    assert forall k :: !BeingEvicted(s, k);
  }

  lemma CreationKeepsStructure(limits: Limits, s: State, t: Thread, key: Key, p: PoolId, maximum: int)
    requires Structure(limits, s) && Creates(limits, s, t, key, p, maximum)
    ensures Structure(limits, Creation(s, t, key, p, maximum))
  {
    var r := Creation(s, t, key, p, maximum);
    CreationKeepsRegistry(limits, s, t, key, p, maximum);
    CreationKeepsOpenPools(limits, s, t, key, p, maximum);
    assert r.threads.Keys == s.threads.Keys;
    assert Placed(r, t) by {
      assert OwnsItsPool(r, t);
    }
    forall u | u in s.threads && u != t ensures Placed(r, u) {
      OthersIgnoreRegistry(s, t, u, r);
    }
  }

  /** Nobody is counted in a pool that does not exist yet. */
  lemma NewPoolIsUncounted(limits: Limits, s: State, p: PoolId)
    requires Structure(limits, s) && p !in s.pools
    ensures Sum(s.threads, BorrowsOf(p)) == 0 && Sum(s.threads, ReferencesOf(p)) == 0
  {
    forall t | t in s.threads ensures Borrows(s.threads[t], p) == 0 && References(s.threads[t], p) == 0 {
      assert Placed(s, t);
    }
    SumOfZeros(s.threads, BorrowsOf(p));
    SumOfZeros(s.threads, ReferencesOf(p));
  }

  lemma NewPoolKeepsAccounts(limits: Limits, s: State, p: PoolId, maximum: int)
    requires Accounts(limits, s) && p !in s.pools && maximum > 0
    requires Sum(s.threads, BorrowsOf(p)) == 0 && Sum(s.threads, ReferencesOf(p)) == 0
    ensures Accounts(limits, s.(pools := s.pools[p := EmptyPool(maximum)]))
  {
    var grown := s.(pools := s.pools[p := EmptyPool(maximum)]);
    SumAfterUpdate(s.pools, p, EmptyPool(maximum), IN_USE);
    SumAfterUpdate(s.pools, p, EmptyPool(maximum), CREATED);
    forall q | q in grown.pools ensures PoolAccount(grown, q) {
      assert q in s.pools ==> PoolAccount(s, q);
    }
  }

  lemma ReferencingKeepsAccounts(limits: Limits, grown: State, t: Thread, key: Key, p: PoolId, r: State)
    requires Accounts(limits, grown) && t in grown.threads && grown.threads[t] == InRegistry(key)
    requires r.threads == grown.threads[t := Referencing(p)] && r.pools == grown.pools
    requires r.connections == grown.connections
    ensures Accounts(limits, r)
  {
    LoneStepKeepsAccounts(limits, grown, t, Referencing(p), 0, r);
  }

  lemma CreationKeepsAccounts(limits: Limits, s: State, t: Thread, key: Key, p: PoolId, maximum: int)
    requires Accounts(limits, s) && Creates(limits, s, t, key, p, maximum)
    requires Sum(s.threads, BorrowsOf(p)) == 0 && Sum(s.threads, ReferencesOf(p)) == 0
    ensures Accounts(limits, Creation(s, t, key, p, maximum))
  {
    NewPoolKeepsAccounts(limits, s, p, maximum);
    var grown := s.(pools := s.pools[p := EmptyPool(maximum)]);
    ReferencingKeepsAccounts(limits, grown, t, key, p, Creation(s, t, key, p, maximum));
  }

  lemma CreationStep(limits: Limits, s: State, t: Thread, a: Action)
    requires t in s.threads && Placed(s, t) && Enabled(limits, s, t, a) && a.CreatePool?
    ensures var key := s.threads[t].key;
            Creates(limits, s, t, key, a.pool, a.maximum)
                && Apply(limits, s, t, a) == Creation(s, t, key, a.pool, a.maximum)
  {
  }

  lemma CreationStepKeepsInvariant(limits: Limits, s: State, t: Thread, a: Action)
    requires Invariant(limits, s) && Enabled(limits, s, t, a) && a.CreatePool?
    ensures Invariant(limits, Apply(limits, s, t, a))
  {
    CreationStep(limits, s, t, a);
    CreationKeepsStructure(limits, s, t, s.threads[t].key, a.pool, a.maximum);
    NewPoolIsUncounted(limits, s, a.pool);
    CreationKeepsAccounts(limits, s, t, s.threads[t].key, a.pool, a.maximum);
  }

  lemma StepKeepsInvariant(limits: Limits, s: State, t: Thread, a: Action)
    requires Invariant(limits, s) && Enabled(limits, s, t, a)
    ensures Invariant(limits, Apply(limits, s, t, a))
  {
    if a.CreatePool? {
      CreationStepKeepsInvariant(limits, s, t, a);
    } else if a.PopEvicted? || a.PopPool? {
      RemovalStepKeepsInvariant(limits, s, t, a);
    } else if RewritesPool(a) {
      PoolStepKeepsInvariant(limits, s, t, a);
    } else {
      PlainStepKeepsInvariant(limits, s, t, a);
    }
  }

  // ---- Runs ------------------------------------------------------------------------------------------------------

  ghost predicate Initial(s: State) {
    && s.pools == map[] && s.registry == map[] && s.connections == 0
    && (forall t | t in s.threads :: s.threads[t] == Idle)
    && s.registryOwner == None && s.poolOwners == map[]
  }

  ghost predicate Next(limits: Limits, s: State, r: State) {
    exists t, a :: Enabled(limits, s, t, a) && r == Apply(limits, s, t, a)
  }

  ghost predicate StepAt(limits: Limits, run: seq<State>, i: nat)
    requires i + 1 < |run|
  {
    Next(limits, run[i], run[i + 1])
  }

  ghost predicate IsRun(limits: Limits, run: seq<State>) {
    && |run| > 0 && Initial(run[0])
    && forall i: nat | i + 1 < |run| :: StepAt(limits, run, i)
  }

  lemma InitialKeepsInvariant(limits: Limits, s: State)
    requires Initial(s)
    ensures Invariant(limits, s)
  {
    SumOfZeros(s.threads, ANY_BORROW);
    SumOfZeros(s.threads, OWED);
    forall t | t in s.threads ensures Placed(s, t) {
      assert OwnsItsPool(s, t);
    }
  }

  lemma NextKeepsInvariant(limits: Limits, s: State, r: State)
    requires Invariant(limits, s) && Next(limits, s, r)
    ensures Invariant(limits, r)
  {
    var t, a :| Enabled(limits, s, t, a) && r == Apply(limits, s, t, a);
    StepKeepsInvariant(limits, s, t, a);
  }

  lemma {:induction false} RunKeepsInvariant(limits: Limits, run: seq<State>, i: nat)
    requires IsRun(limits, run) && i < |run|
    ensures Invariant(limits, run[i])
  {
    if i == 0 {
      InitialKeepsInvariant(limits, run[0]);
    } else {
      RunKeepsInvariant(limits, run, i - 1);
      assert StepAt(limits, run, i - 1);
      NextKeepsInvariant(limits, run[i - 1], run[i]);
    }
  }

  // ---- What holds in every state of every run --------------------------------------------------------------------

  ghost const UNRESERVED: Place -> int := place => Unreserved(place)
  ghost const UNRETURNED: Place -> int := place => Unreturned(place)
  ghost const ONE_SHOTS: Place -> int := place => OneShots(place)
  ghost const RETURNED_LATER: Place -> int := place => Unreturned(place) + OneShots(place)
  ghost const MINUS_UNRESERVED: Place -> int := place => -Unreserved(place)
  ghost const OPEN_BOUND: Place -> int := place => Owed(place) + (if BorrowedPool(place).Some? then 1 else 0)

  lemma {:induction false} SumOfNegatives<K>(m: map<K, Place>)
    ensures Sum(m, MINUS_UNRESERVED) == -Sum(m, UNRESERVED)
    decreases |m|
  {
    if m != map[] {
      var k :| k in m;
      SumSplits(m, k, MINUS_UNRESERVED);
      SumSplits(m, k, UNRESERVED);
      SumOfNegatives(m - {k});
    }
  }

  /** The global count is exact: created connections, plus what is on its way back, minus what is not reserved yet. */
  lemma GlobalCountIsExact(limits: Limits, run: seq<State>, i: nat)
    requires IsRun(limits, run) && i < |run|
    ensures run[i].connections
         == Sum(run[i].pools, CREATED) - Sum(run[i].threads, UNRESERVED)
            + Sum(run[i].threads, UNRETURNED) + Sum(run[i].threads, ONE_SHOTS)
  {
    RunKeepsInvariant(limits, run, i);
    var threads := run[i].threads;
    SumOfSums(threads, UNRETURNED, ONE_SHOTS, RETURNED_LATER);
    SumOfSums(threads, RETURNED_LATER, MINUS_UNRESERVED, OWED);
    SumOfNegatives(threads);
  }

  lemma OpenIsBounded(limits: Limits, s: State)
    requires Structure(limits, s)
    ensures 0 <= Sum(s.threads, OPEN) <= Sum(s.threads, OPEN_BOUND)
  {
    forall t | t in s.threads ensures 0 <= OPEN(s.threads[t]) <= OPEN_BOUND(s.threads[t]) {
      assert Placed(s, t);
    }
    SumIsBounded(s.threads, OPEN, OPEN_BOUND);
    SumIsNotNegative(s.threads, OPEN);
  }

  /** Open sockets never outnumber the reserved slots, which never outnumber the limit; the count is never negative. */
  lemma OpenConnectionsAreBounded(limits: Limits, run: seq<State>, i: nat)
    requires IsRun(limits, run) && i < |run|
    ensures 0 <= Sum(run[i].pools, IDLE) + Sum(run[i].threads, OPEN) <= run[i].connections <= limits.totalConnections
  {
    RunKeepsInvariant(limits, run, i);
    var s := run[i];
    OpenIsBounded(limits, s);
    SumOfSums(s.threads, OWED, ANY_BORROW, OPEN_BOUND);
    forall p | p in s.pools
      ensures CREATED(s.pools[p]) == IDLE(s.pools[p]) + IN_USE(s.pools[p]) && IDLE(s.pools[p]) >= 0
    {
      assert PoolAccount(s, p);
    }
    SumOfSums(s.pools, IDLE, IN_USE, CREATED);
    SumIsNotNegative(s.pools, IDLE);
  }

  /** Every pool's counters agree with each other and with the threads they count. */
  lemma PoolsAreSound(limits: Limits, run: seq<State>, i: nat, p: PoolId)
    requires IsRun(limits, run) && i < |run| && p in run[i].pools
    ensures var pool := run[i].pools[p];
            && pool.created == pool.inUse + pool.idle && pool.created <= pool.maximum
            && pool.idle >= 0 && (pool.closed ==> pool.idle == 0)
            && pool.inUse == Sum(run[i].threads, BorrowsOf(p))
            && pool.references == Sum(run[i].threads, ReferencesOf(p))
    ensures |run[i].registry| <= limits.pools
  {
    RunKeepsInvariant(limits, run, i);
    assert PoolAccount(run[i], p);
  }

  /** A thread gives up on a pool only when all its connections are in use. */
  lemma TimeoutMeansExhausted(limits: Limits, run: seq<State>, i: nat, t: Thread)
    requires IsRun(limits, run) && i < |run| && Enabled(limits, run[i], t, AcquireTimeout)
    ensures var pool := run[i].pools[run[i].threads[t].pool];
            pool.inUse == pool.created == pool.maximum
  {
    PoolsAreSound(limits, run, i, run[i].threads[t].pool);
  }

  lemma ReserveLooksAtCount(limits: Limits, s: State, t: Thread)
    requires Enabled(limits, s, t, Reserve)
    ensures Apply(limits, s, t, Reserve).threads[t].Full? <==> s.connections >= limits.totalConnections
  {
    PlainStepIsMove(limits, s, t, Reserve);
  }

  lemma CountIsLimited(limits: Limits, run: seq<State>, i: nat)
    requires IsRun(limits, run) && i < |run|
    ensures run[i].connections <= limits.totalConnections
  {
    RunKeepsInvariant(limits, run, i);
  }

  /** A thread finds the global quota full exactly when it is used up to the last slot. */
  lemma FullMeansFull(limits: Limits, run: seq<State>, i: nat, t: Thread)
    requires IsRun(limits, run) && i < |run| && Enabled(limits, run[i], t, Reserve)
    ensures Apply(limits, run[i], t, Reserve).threads[t].Full? <==> run[i].connections == limits.totalConnections
  {
    ReserveLooksAtCount(limits, run[i], t);
    CountIsLimited(limits, run, i);
  }

  /** When the close of an eviction runs, its check still holds: nobody borrows from the pool or is about to. */
  lemma EvictionClosesUnusedPools(limits: Limits, run: seq<State>, i: nat, t: Thread)
    requires IsRun(limits, run) && i < |run|
    requires Enabled(limits, run[i], t, CloseEvicted)
    ensures var p := run[i].threads[t].pool;
            && run[i].pools[p].inUse == 0 && run[i].pools[p].references == 0
            && forall u | u in run[i].threads ::
                 BorrowedPool(run[i].threads[u]) != Some(p) && ReferencedPool(run[i].threads[u]) != Some(p)
  {
    RunKeepsInvariant(limits, run, i);
    var s := run[i];
    assert Placed(s, t);
    var p := s.threads[t].pool;
    forall u | u in s.threads ensures BorrowedPool(s.threads[u]) != Some(p) && ReferencedPool(s.threads[u]) != Some(p) {
      CountedThread(limits, s, u, p);
    }
  }

  /** get_pool never finds a closed pool in the registry, so its reference is always taken. */
  lemma GetPoolFindsOpenPool(limits: Limits, run: seq<State>, i: nat, t: Thread)
    requires IsRun(limits, run) && i < |run|
    requires Enabled(limits, run[i], t, AddReference)
    ensures !run[i].pools[run[i].threads[t].pool].closed
  {
    RunKeepsInvariant(limits, run, i);
    var s := run[i];
    assert Placed(s, t) && Registered(s, s.threads[t].pool);
    var k :| k in s.registry && s.registry[k] == s.threads[t].pool;
    assert !BeingEvicted(s, k);
  }

  // ---- Locks -----------------------------------------------------------------------------------------------------

  datatype Lock = RegistryLock | PoolLock(pool: PoolId) | GlobalLock {
    function Rank(): nat {
      match this
      case RegistryLock => 0
      case PoolLock(_) => 1
      case GlobalLock => 2
    }
  }

  /** The locks held between two sections. */
  ghost predicate Holds(s: State, t: Thread, lock: Lock) {
    match lock
    case RegistryLock => s.registryOwner == Some(t)
    case PoolLock(p) => p in s.poolOwners && s.poolOwners[p] == t
    case GlobalLock => false
  }

  /** The lock the next section of an action takes, if it takes one. */
  function Takes(s: State, t: Thread, a: Action): Option<Lock>
    requires t in s.threads
  {
    var place := s.threads[t];
    match a
    case StartGet(_) => Some(RegistryLock)
    case StartQuotaEviction => Some(RegistryLock)
    case PopPool(_) => Some(RegistryLock)
    case CheckEviction(victim) => if victim in s.registry then Some(PoolLock(s.registry[victim])) else None
    case EvictIdle(victim) => if victim in s.registry then Some(PoolLock(s.registry[victim])) else None
    case CloseEvicted => if place.EvictionChecked? then Some(PoolLock(place.pool)) else None
    case AddReference => if place.Referencing? then Some(PoolLock(place.pool)) else None
    case Acquire => if place.Referenced? then Some(PoolLock(place.pool)) else None
    case AcquireTimeout => if place.Referenced? then Some(PoolLock(place.pool)) else None
    case Rollback => if place.RollingBack? then Some(PoolLock(place.pool)) else None
    case DropReference =>
      if place.Borrowed? then Some(PoolLock(place.pool))
      else if place.AcquireFailed? then Some(PoolLock(place.pool))
      else None
    case Release(_) => if place.Using? then Some(PoolLock(place.pool)) else None
    case ClosePopped => if place.Closing? then Some(PoolLock(place.pool)) else None
    case Reserve => Some(GlobalLock)
    case ReserveTimeout => Some(GlobalLock)
    case ReturnEvicted => Some(GlobalLock)
    case ReturnEvictedIdle => Some(GlobalLock)
    case ReturnUnopened => Some(GlobalLock)
    case ReturnDestroyed => Some(GlobalLock)
    case ReturnOneShot => Some(GlobalLock)
    case ReturnClosed => Some(GlobalLock)
    case _ => None
  }

  function WithoutLocks(s: State): State {
    s.(registryOwner := None, poolOwners := map[])
  }

  lemma RunIsPlaced(limits: Limits, run: seq<State>, i: nat, t: Thread)
    requires IsRun(limits, run) && i < |run| && t in run[i].threads
    ensures Placed(run[i], t)
  {
    RunKeepsInvariant(limits, run, i);
  }

  lemma HoldersWaitUpward(limits: Limits, s: State, t: Thread, a: Action, held: Lock)
    requires Enabled(limits, WithoutLocks(s), t, a) && t in s.threads && Placed(s, t)
    requires Holds(s, t, held) && Takes(s, t, a).Some?
    ensures held.Rank() < Takes(s, t, a).value.Rank()
  {
    if held.PoolLock? {
      assert s.threads[t] == Destroying(held.pool);
    }
  }

  /** Locks are always taken in the order registry, pool, global: a holder only ever waits for a later kind. */
  lemma LocksAreOrdered(limits: Limits, run: seq<State>, i: nat, t: Thread, a: Action, held: Lock)
    requires IsRun(limits, run) && i < |run| && Enabled(limits, WithoutLocks(run[i]), t, a)
    requires Holds(run[i], t, held) && Takes(run[i], t, a).Some?
    ensures held.Rank() < Takes(run[i], t, a).value.Rank()
  {
    RunIsPlaced(limits, run, i, t);
    HoldersWaitUpward(limits, run[i], t, a, held);
  }

  lemma {:induction false} SomeIdIsUnused(ids: set<PoolId>) returns (unused: PoolId)
    ensures forall id | id in ids :: id < unused
  {
    if ids == {} {
      unused := 0;
    } else {
      var id :| id in ids;
      unused := SomeIdIsUnused(ids - {id});
      assert ids == (ids - {id}) + {id};
      unused := if unused <= id then id + 1 else unused;
    }
  }

  /** A step of thread t that leaves its place. */
  ghost predicate Advances(limits: Limits, s: State, t: Thread, a: Action) {
    Enabled(limits, s, t, a) && Apply(limits, s, t, a).threads[t] != s.threads[t]
  }

  ghost predicate CanAdvance(limits: Limits, s: State, t: Thread) {
    exists a :: Advances(limits, s, t, a)
  }

  lemma DestroyerAdvances(limits: Limits, s: State, t: Thread)
    requires t in s.threads && s.threads[t].Destroying?
    ensures CanAdvance(limits, s, t)
  {
    assert Advances(limits, s, t, ReturnDestroyed);
  }

  lemma RegistryOwnerAdvances(limits: Limits, s: State, t: Thread)
    requires t in s.threads && Placed(s, t) && HoldsRegistry(s.threads[t]) && s.poolOwners == map[]
    ensures CanAdvance(limits, s, t)
  {
    var unused := SomeIdIsUnused(s.pools.Keys);
    var place := s.threads[t];
    var a := match place
      case InRegistry(key) =>
        if key in s.registry then LookUp
        else if |s.registry| < limits.pools then CreatePool(unused, 1)
        else GiveUpGet
      case EvictionChecked(_, _, _) => CloseEvicted
      case EvictionReturning(_, _, _) => ReturnEvicted
      case EvictionPopping(_, _) => PopEvicted
      case Referencing(_) => AddReference
      case LeavingRegistry(_) => LeaveRegistry
      case QuotaScan(_) => GiveUpQuotaEviction
      case QuotaClosing(_) => CloseEvictedIdle
      case QuotaReturning(_) => ReturnEvictedIdle
      case _ => LeaveQuotaEviction;
    assert Enabled(limits, s, t, a);
    assert Advances(limits, s, t, a);
  }

  lemma PoolUserAdvances(limits: Limits, s: State, t: Thread)
    requires t in s.threads && Placed(s, t) && s.poolOwners == map[]
    requires var place := s.threads[t];
             place.Referenced? || place.AcquireFailed? || place.RollingBack? || place.Borrowed? || place.Using?
             || place.Closing?
    requires forall p | p in s.pools :: s.pools[p].Valid()
    ensures CanAdvance(limits, s, t)
  {
    var place := s.threads[t];
    var a := match place
      case Referenced(p) => if s.pools[p].Exhausted() then AcquireTimeout else Acquire
      case RollingBack(_) => Rollback
      case Using(_) => Release(false)
      case Closing(_) => ClosePopped
      case _ => DropReference;
    assert Enabled(limits, s, t, a);
    assert Advances(limits, s, t, a);
  }

  lemma UnlockedThreadAdvances(limits: Limits, s: State, t: Thread)
    requires t in s.threads && Placed(s, t) && !s.threads[t].Idle?
    requires s.registryOwner == None && s.poolOwners == map[]
    requires forall p | p in s.pools :: s.pools[p].Valid()
    ensures CanAdvance(limits, s, t)
  {
    var place := s.threads[t];
    if place.Referenced? || place.AcquireFailed? || place.RollingBack? || place.Borrowed? || place.Using?
       || place.Closing? {
      PoolUserAdvances(limits, s, t);
    } else {
      var a := match place
        case Reserving(_) => Reserve
        case Full(_) => StartQuotaEviction
        case Waiting(_) => Wake
        case Opening(_) => OpenConnection(false)
        case OpenFailed(_) => ReturnUnopened
        case OneShotUsing => CloseOneShot
        case OneShotReturning => ReturnOneShot
        case _ => ReturnClosed;
      assert Enabled(limits, s, t, a);
      assert Advances(limits, s, t, a);
    }
  }

  /** No deadlock: whenever some thread is busy, it can go on, or one that holds a lock can. */
  lemma SomeThreadAdvances(limits: Limits, run: seq<State>, i: nat, t: Thread)
    requires IsRun(limits, run) && i < |run| && t in run[i].threads && !run[i].threads[t].Idle?
    ensures exists u :: CanAdvance(limits, run[i], u) && (u == t || exists lock :: Holds(run[i], u, lock))
  {
    RunKeepsInvariant(limits, run, i);
    var s := run[i];
    if s.poolOwners != map[] {
      var p :| p in s.poolOwners;
      var u := s.poolOwners[p];
      assert Placed(s, u);
      assert s.threads[u] == Destroying(p);
      DestroyerAdvances(limits, s, u);
      assert Holds(s, u, PoolLock(p));
    } else if s.registryOwner.Some? {
      var u := s.registryOwner.value;
      assert Placed(s, u);
      RegistryOwnerAdvances(limits, s, u);
      assert Holds(s, u, RegistryLock);
    } else {
      assert Placed(s, t);
      forall p | p in s.pools ensures s.pools[p].Valid() {
        assert PoolAccount(s, p);
      }
      UnlockedThreadAdvances(limits, s, t);
    }
  }
}
