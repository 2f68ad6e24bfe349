/**
 * The distributed lock helpers of lib/redisLock.ts over an in-memory key store.
 *
 * Keys have the form `lock:<type>:<id>`. Acquiring writes the key with a TTL
 * and, as in the source, does so unconditionally (there is no if-absent
 * flag), so the reply is "OK" whenever the store answers, held key or not.
 * Store failures are modelled by the `reachable` flag: an unreachable store
 * makes acquire answer false and makes release a silent no-op.
 */
module RedisLock {

  datatype LockType = OrderLock | UserLock | ProductLock

  function TypeName(t: LockType): string
  {
    match t
    case OrderLock => "order"
    case UserLock => "user"
    case ProductLock => "product"
  }

  /** Default TTLs in seconds of the generic acquire and of the three helpers. */
  const DEFAULT_LOCK_TTL: nat := 15
  const ORDER_LOCK_TTL: nat := 20
  const USER_LOCK_TTL: nat := 10
  const PRODUCT_LOCK_TTL: nat := 25

  function MakeLockKey(t: LockType, id: string): (key: string)
    ensures |key| == |"lock:"| + |TypeName(t)| + 1 + |id|
    ensures key[..5] == "lock:"
    ensures key[5..5 + |TypeName(t)|] == TypeName(t)
    ensures key[5 + |TypeName(t)|] == ':'
    ensures key[|key| - |id|..] == id
  {
    "lock:" + TypeName(t) + ":" + id
  }

  /** Different lock types or different ids never share a key: each helper has its own namespace. */
  lemma {:induction false} MakeLockKeyInjective(t1: LockType, id1: string, t2: LockType, id2: string)
    requires MakeLockKey(t1, id1) == MakeLockKey(t2, id2)
    ensures t1 == t2 && id1 == id2
  {
    var k := MakeLockKey(t1, id1);
    assert k[5] == TypeName(t1)[0] by { assert k[5..5 + |TypeName(t1)|][0] == k[5]; }
    assert k[5] == TypeName(t2)[0] by { assert k[5..5 + |TypeName(t2)|][0] == k[5]; }
    assert t1 == t2;
    assert |id1| == |id2|;
  }

  /** The shared key-value store, restricted to the lock keys it holds. */
  class LockStore {
    /** Held lock keys, each with the TTL (seconds) of its last write. */
    var keys: map<string, nat>
    /** False while every store call fails. */
    var reachable: bool

    constructor (reachable: bool)
      ensures keys == map[] && this.reachable == reachable
    {
      keys := map[];
      this.reachable := reachable;
    }

    predicate Held(key: string)
      reads this
    {
      key in keys
    }

    /** `SET key 1 EX ttl`: succeeds whenever the store answers, whether or not `key` is held. */
    method AcquireLock(key: string, ttlSeconds: nat := DEFAULT_LOCK_TTL) returns (ok: bool)
      modifies this
      ensures ok == old(reachable)
      ensures keys == if ok then old(keys)[key := ttlSeconds] else old(keys)
      ensures reachable == old(reachable)
    {
      if reachable {
        keys := keys[key := ttlSeconds];
        ok := true;
      } else {
        ok := false;
      }
    }

    /** `DEL key`; a store error is swallowed. */
    method ReleaseLock(key: string)
      modifies this
      ensures keys == if old(reachable) then old(keys) - {key} else old(keys)
      ensures reachable == old(reachable)
    {
      if reachable {
        keys := keys - {key};
      }
    }

    method AcquireOrderLock(orderId: string, ttlSeconds: nat := ORDER_LOCK_TTL) returns (ok: bool)
      modifies this
      ensures ok == old(reachable)
      ensures keys == if ok then old(keys)[MakeLockKey(OrderLock, orderId) := ttlSeconds] else old(keys)
      ensures reachable == old(reachable)
    {
      ok := AcquireLock(MakeLockKey(OrderLock, orderId), ttlSeconds);
    }

    method ReleaseOrderLock(orderId: string)
      modifies this
      ensures keys == if old(reachable) then old(keys) - {MakeLockKey(OrderLock, orderId)} else old(keys)
      ensures reachable == old(reachable)
    {
      ReleaseLock(MakeLockKey(OrderLock, orderId));
    }

    method AcquireUserLock(userId: string, ttlSeconds: nat := USER_LOCK_TTL) returns (ok: bool)
      modifies this
      ensures ok == old(reachable)
      ensures keys == if ok then old(keys)[MakeLockKey(UserLock, userId) := ttlSeconds] else old(keys)
      ensures reachable == old(reachable)
    {
      ok := AcquireLock(MakeLockKey(UserLock, userId), ttlSeconds);
    }

    method ReleaseUserLock(userId: string)
      modifies this
      ensures keys == if old(reachable) then old(keys) - {MakeLockKey(UserLock, userId)} else old(keys)
      ensures reachable == old(reachable)
    {
      ReleaseLock(MakeLockKey(UserLock, userId));
    }

    method AcquireProductLock(productId: string, ttlSeconds: nat := PRODUCT_LOCK_TTL) returns (ok: bool)
      modifies this
      ensures ok == old(reachable)
      ensures keys == if ok then old(keys)[MakeLockKey(ProductLock, productId) := ttlSeconds] else old(keys)
      ensures reachable == old(reachable)
    {
      ok := AcquireLock(MakeLockKey(ProductLock, productId), ttlSeconds);
    }

    method ReleaseProductLock(productId: string)
      modifies this
      ensures keys == if old(reachable) then old(keys) - {MakeLockKey(ProductLock, productId)} else old(keys)
      ensures reachable == old(reachable)
    {
      ReleaseLock(MakeLockKey(ProductLock, productId));
    }
  }

  /**
   * A second acquire of a held order key succeeds too: with no if-absent flag
   * the lock does not exclude a concurrent holder.
   */
  method ReacquireHeldOrderLock(store: LockStore, orderId: string) returns (first: bool, second: bool)
    modifies store
    ensures first == second == old(store.reachable)
    ensures first ==> store.Held(MakeLockKey(OrderLock, orderId))
  {
    first := store.AcquireOrderLock(orderId);
    second := store.AcquireOrderLock(orderId);
  }
}
