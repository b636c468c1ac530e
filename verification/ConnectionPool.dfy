/** One data source's connection pool, critical section by critical section. */
module ConnectionPool {
  import opened Prelude

  type Connection = nat

  /** What the counters of a pool say; idle connections are counted, not named. */
  datatype Pool = Pool(idle: int, created: int, inUse: int, references: int, closed: bool, maximum: int) {
    predicate Valid() {
      0 <= idle && 0 <= inUse && 0 <= references && created == inUse + idle && created <= maximum
          && (closed ==> idle == 0)
    }

    predicate Evictable() {
      !closed && inUse == 0 && references == 0
    }

    predicate Exhausted() {
      !closed && idle == 0 && created >= maximum
    }
  }

  datatype Borrowing = Refused | Reused | MustOpen | MustWait

  /** The critical section of acquire. */
  function BorrowSection(pool: Pool): (Borrowing, Pool) {
    if pool.closed then (Refused, pool)
    else if pool.idle > 0 then (Reused, pool.(idle := pool.idle - 1, inUse := pool.inUse + 1))
    else if pool.created < pool.maximum then (MustOpen, pool.(created := pool.created + 1, inUse := pool.inUse + 1))
    else (MustWait, pool)
  }

  function RollbackSection(pool: Pool): Pool {
    pool.(created := pool.created - 1, inUse := pool.inUse - 1)
  }

  /** The critical section of release; a destroyed connection leaves the pool, any other becomes idle. */
  function ReleaseSection(pool: Pool, broken: bool): Pool {
    if broken || pool.closed then pool.(created := pool.created - 1, inUse := pool.inUse - 1)
    else pool.(idle := pool.idle + 1, inUse := pool.inUse - 1)
  }

  function CloseSection(pool: Pool): Pool {
    pool.(closed := true, created := pool.created - pool.idle, idle := 0)
  }

  function EvictOneSection(pool: Pool): Pool
    requires !pool.closed && pool.idle > 0
  {
    pool.(created := pool.created - 1, idle := pool.idle - 1)
  }

  function EmptyPool(maximum: int): Pool {
    Pool(0, 0, 0, 0, false, maximum)
  }

  /** The pool object; each method is one critical section under the pool's condition. */
  class PoolObject {
    var idle: seq<Connection>
    var created: int
    var inUse: int
    var registryReferences: int
    var closed: bool
    const maximum: int

    ghost function View(): Pool
      reads this
    {
      Pool(|idle|, created, inUse, registryReferences, closed, maximum)
    }

    /** Every created connection is in use or idle, within the maximum; a closed pool has no idle one. */
    ghost predicate Valid()
      reads this
    {
      View().Valid()
    }

    constructor (perSource: int, limit: int)
      requires perSource > 0 && limit > 0
      ensures Valid() && View() == EmptyPool(if perSource < limit then perSource else limit)
    {
      idle, created, inUse, registryReferences, closed := [], 0, 0, 0, false;
      maximum := if perSource < limit then perSource else limit;
    }

    /** False stands for the RuntimeError of a closed pool. */
    method AddRegistryReference() returns (added: bool)
      requires Valid()
      modifies this
      ensures Valid()
      ensures added == !old(closed)
      ensures View() == if added then old(View()).(references := old(View()).references + 1) else old(View())
      ensures idle == old(idle)
    {
      if closed {
        return false;
      }
      registryReferences := registryReferences + 1;
      return true;
    }

    method ReleaseRegistryReference()
      requires Valid() && registryReferences > 0
      modifies this
      ensures Valid()
      ensures View() == old(View()).(references := old(View()).references - 1)
      ensures idle == old(idle)
    {
      registryReferences := registryReferences - 1;
    }

    /** One pass of acquire's loop; the most recently returned idle connection is reused. */
    method TryBorrow() returns (outcome: Borrowing, connection: Option<Connection>)
      requires Valid()
      modifies this
      ensures Valid()
      ensures (outcome, View()) == BorrowSection(old(View()))
      ensures outcome.Reused? ==> connection == Some(old(idle)[|old(idle)| - 1]) && idle == old(idle)[..|old(idle)| - 1]
      ensures !outcome.Reused? ==> connection == None && idle == old(idle)
    {
      if closed {
        return Refused, None;
      }
      if |idle| > 0 {
        inUse := inUse + 1;
        connection := Some(idle[|idle| - 1]);
        idle := idle[..|idle| - 1];
        return Reused, connection;
      }
      if created < maximum {
        created := created + 1;
        inUse := inUse + 1;
        return MustOpen, None;
      }
      return MustWait, None;
    }

    method Rollback()
      requires Valid() && inUse > 0
      modifies this
      ensures Valid()
      ensures View() == RollbackSection(old(View()))
      ensures idle == old(idle)
    {
      created := created - 1;
      inUse := inUse - 1;
    }

    /** True when the connection was destroyed, so that its global slot must be returned. */
    method Release(connection: Connection, broken: bool) returns (destroyed: bool)
      requires Valid() && inUse > 0
      modifies this
      ensures Valid()
      ensures View() == ReleaseSection(old(View()), broken)
      ensures destroyed == (broken || old(closed))
      ensures idle == if destroyed then old(idle) else old(idle) + [connection]
    {
      inUse := inUse - 1;
      destroyed := broken || closed;
      if destroyed {
        created := created - 1;
      } else {
        idle := idle + [connection];
      }
    }

    /** Closes every idle connection and reports how many global slots that frees. */
    method Close() returns (released: nat)
      requires Valid()
      modifies this
      ensures Valid()
      ensures View() == CloseSection(old(View()))
      ensures released == |old(idle)| && idle == []
    {
      closed := true;
      released := |idle|;
      created := created - released;
      idle := [];
    }

    /** Nobody borrows: all connections the pool has created are idle ones. */
    method IsEvictable() returns (evictable: bool)
      requires Valid()
      ensures evictable <==> !closed && created == |idle| && registryReferences == 0
      ensures evictable == View().Evictable()
    {
      return !(closed || inUse != 0 || registryReferences != 0);
    }

    /**
     * Closing an evictable pool gives back a slot for every connection it ever created and still holds; none is lost.
     */
    method CloseIfEvictable() returns (evicted: bool, released: nat)
      requires Valid()
      modifies this
      ensures Valid()
      ensures evicted <==> !old(closed) && old(created) == |old(idle)| && old(registryReferences) == 0
      ensures evicted ==> closed && released == old(created) && created == 0 && idle == []
      ensures !evicted ==> released == 0 && View() == old(View()) && idle == old(idle)
    {
      evicted, released := false, 0;
      var evictable := IsEvictable();
      if evictable {
        released := Close();
        evicted := true;
      }
    }

    method EvictOneIdleConnection() returns (evicted: Option<Connection>)
      requires Valid()
      modifies this
      ensures Valid()
      ensures evicted.Some? <==> !old(closed) && old(idle) != []
      ensures evicted.Some? ==> View() == EvictOneSection(old(View()))
      ensures evicted.Some? ==> evicted.value == old(idle)[|old(idle)| - 1] && idle == old(idle)[..|old(idle)| - 1]
      ensures evicted.None? ==> View() == old(View()) && idle == old(idle)
    {
      if closed || idle == [] {
        return None;
      }
      evicted := Some(idle[|idle| - 1]);
      idle := idle[..|idle| - 1];
      created := created - 1;
    }
  }
}
