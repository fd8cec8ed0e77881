/**
 * The read-through cache on top of the sharded client: a registry of one
 * mutex per key, created on first use and never removed, held around the
 * store read of that key.
 *
 * Mutexes are named by `LockId`s. Only whether a mutex is held is modelled,
 * on one thread: blocking, waiting and fairness are not. The ghost `trace`
 * records, for each Read, the lock taken, the key read and the lock released.
 */
module LCache {
  import opened Wrappers
  import opened Strconv
  import opened GoRedis

  /** A `*sync.Mutex`, by identity. */
  type LockId = nat

  /** A caller's protobuf message, by identity; its fields belong to the serialisation library. */
  datatype MessageRef = MessageRef(id: nat)

  /**
   * What the ghost trace records: a mutex taken, a call of the client's `Get`
   * for a key (whether or not the shard is registered and a GET goes out), a
   * mutex released.
   */
  datatype Event =
    | Acquire(lock: LockId)
    | ClientGet(key: Bytes)
    | Release(lock: LockId)

  /**
   * The trace is a run of complete reads: each is "take the key's registered
   * lock, call the client's Get for the key, release that lock", with nothing
   * in between.
   */
  ghost predicate Disciplined(trace: seq<Event>, lock: map<Bytes, LockId>) {
    && |trace| % 3 == 0
    && forall j :: 0 <= j < |trace| && j % 3 == 1 ==>
         && trace[j].ClientGet?
         && trace[j].key in lock
         && trace[j - 1] == Acquire(lock[trace[j].key])
         && trace[j + 1] == Release(lock[trace[j].key])
  }

  /** No key's lock is replaced or removed by `lock'`. */
  ghost predicate Keeps(lock: map<Bytes, LockId>, lock': map<Bytes, LockId>) {
    forall k :: k in lock ==> k in lock' && lock'[k] == lock[k]
  }

  /** Appending one complete read of a registered key keeps the trace disciplined. */
  lemma DisciplinedRead(trace: seq<Event>, lock: map<Bytes, LockId>, key: Bytes)
    requires Disciplined(trace, lock) && key in lock
    ensures Disciplined(trace + [Acquire(lock[key]), ClientGet(key), Release(lock[key])], lock)
  {
  }

  class Lcache {
    var rclient: Client
    /** Key to the mutex that guards reads of that key. */
    var lock: map<Bytes, LockId>
    /** The mutexes currently locked. */
    var held: set<LockId>
    /** Where the next `&sync.Mutex{}` is allocated: above every registered mutex. */
    var nextLock: LockId
    ghost var trace: seq<Event>

    /**
     * Between calls: no mutex is held, each key has its own mutex, and every
     * past read held its key's mutex around the store read.
     */
    ghost predicate Valid()
      reads this
    {
      && held == {}
      && (forall k :: k in lock ==> lock[k] < nextLock)
      && (forall k, k' :: k in lock && k' in lock && k != k' ==> lock[k] != lock[k'])
      && Disciplined(trace, lock)
    }

    /**
     * `NewLcache`: an empty lock map over a client that has run Connect. A
     * failed Connect is only logged: the cache is returned all the same.
     */
    constructor NewLcache(hosts: seq<Bytes>, password: Bytes, pings: seq<PingReply>, arrival: seq<nat>)
      requires |pings| == |hosts| && IsArrivalOrder(arrival, |hosts|)
      ensures Valid() && fresh(rclient)
      ensures lock == map[] && trace == []
      ensures rclient.shard == |hosts|
      ensures rclient.clients == ClientsAfter(hosts, password, pings, arrival)
      ensures rclient.sent == []
    {
      var client := new Client();
      var err := client.Connect(hosts, password, pings, arrival);
      rclient := client;
      lock := map[];
      held := {};
      nextLock := 0;
      trace := [];
    }

    /** `lock.GetOrInit(key, ...)`: the key's mutex, made and registered on first use. */
    method GetOrInit(key: Bytes) returns (m: LockId)
      requires Valid()
      modifies this`lock, this`nextLock
      ensures Valid()
      ensures Keeps(old(lock), lock)
      ensures key in old(lock) ==> lock == old(lock) && m == old(lock)[key]
      ensures key !in old(lock) ==> lock == old(lock)[key := m] && m !in old(lock).Values
    {
      if key in lock {
        return lock[key];
      }
      m := nextLock;
      nextLock := nextLock + 1;
      lock := lock[key := m];
    }

    /** `locker.Lock()`. On one thread, locking a held mutex would never return. */
    method Lock(m: LockId)
      requires m !in held
      modifies this`held, this`trace
      ensures held == old(held) + {m} && trace == old(trace) + [Acquire(m)]
    {
      held := held + {m};
      trace := trace + [Acquire(m)];
    }

    /** `locker.Unlock()`. Unlocking a mutex that is not held is a fatal error in Go. */
    method Unlock(m: LockId)
      requires m in held
      modifies this`held, this`trace
      ensures held == old(held) - {m} && trace == old(trace) + [Release(m)]
    {
      held := held - {m};
      trace := trace + [Release(m)];
    }

    /**
     * `c.rclient.Get(key, key)` inside `Read`: the key is both routing key and
     * storage key, and the call is only made while the key's mutex is held.
     * The call is recorded in the trace in the same step.
     */
    method FetchLocked(key: Bytes, reply: GetReply) returns (rdata: Bytes, gerr: Option<Error>)
      requires key in lock && lock[key] in held && rclient.shard > 0
      modifies this`trace, rclient`sent
      ensures trace == old(trace) + [ClientGet(key)]
      ensures rclient.Route(key).None? ==>
                rdata == [] && gerr == Some(ClientNotInit) && rclient.sent == old(rclient.sent)
      ensures rclient.Route(key).Some? ==>
                rclient.sent == old(rclient.sent) + [GetCmd(rclient.Route(key).value, key)]
      ensures rclient.Route(key).Some? && reply.Found? ==> rdata == reply.text && gerr == None
      ensures rclient.Route(key).Some? && reply.GetFailed? ==> rdata == [] && gerr == Some(reply.err)
    {
      rdata, gerr := rclient.Get(key, key, reply);
      trace := trace + [ClientGet(key)];
    }

    /**
     * `Read`: takes the key's mutex, reads the key through the client with the
     * key as both routing key and storage key, unmarshals a hit into `data`,
     * and releases the mutex on the way out (`defer`). `reply` is what the
     * Redis server answers; `unmarshal` is the error `proto.Unmarshal` gives
     * for the bytes it is handed.
     */
    method Read(key: Bytes, data: MessageRef, reply: GetReply, unmarshal: Bytes -> Option<Error>)
      returns (msg: Option<MessageRef>, locker: LockId, err: Option<Error>)
      requires Valid() && rclient.shard > 0
      modifies this, rclient`sent
      ensures Valid() && rclient == old(rclient)
      ensures Keeps(old(lock), lock)
      ensures key in old(lock) ==> lock == old(lock) && locker == old(lock)[key]
      ensures key !in old(lock) ==> lock == old(lock)[key := locker] && locker !in old(lock).Values
      ensures locker == lock[key] && locker !in held
      ensures trace == old(trace) + [Acquire(locker), ClientGet(key), Release(locker)]
      ensures rclient.Route(key).None? ==>
                rclient.sent == old(rclient.sent) && msg == None && err == Some(ClientNotInit)
      ensures rclient.Route(key).Some? ==>
                rclient.sent == old(rclient.sent) + [GetCmd(rclient.Route(key).value, key)]
      ensures rclient.Route(key).Some? && reply.GetFailed? ==> msg == None && err == Some(reply.err)
      ensures rclient.Route(key).Some? && reply.Found? ==> msg == Some(data) && err == unmarshal(reply.text)
    {
      locker := GetOrInit(key);
      ghost var before := trace;
      Lock(locker);
      var rdata, gerr := FetchLocked(key, reply);
      if gerr.None? {
        var uerr := unmarshal(rdata);
        if uerr.Some? {
          msg, err := Some(data), uerr;
        } else {
          msg, err := Some(data), None;
        }
      } else {
        msg, err := None, gerr;
      }
      Unlock(locker);
      assert trace == before + [Acquire(lock[key]), ClientGet(key), Release(lock[key])];
      DisciplinedRead(before, lock, key);
    }

    /**
     * `Save`: serialises `data` and sends it with SET under `key`, routed by
     * `key`, with the caller's expiry. It takes no lock and leaves the lock
     * map alone.
     */
    method Save(key: Bytes, data: MessageRef, expire: int, protify: MessageRef -> Bytes, reply: Option<Error>)
      returns (err: Option<Error>)
      requires rclient.shard > 0
      modifies rclient`sent
      ensures rclient.Route(key).None? ==> err == Some(ClientNotInit) && rclient.sent == old(rclient.sent)
      ensures rclient.Route(key).Some? ==>
                err == reply && rclient.sent == old(rclient.sent) + [SetCmd(rclient.Route(key).value, key, protify(data), expire)]
    {
      var byts := protify(data);
      err := rclient.Set(key, key, byts, expire, reply);
    }
  }
}
