/**
 * The sharded Redis client: the FNV-1 key hash, shard routing, connecting to
 * every shard, and the Get / Set / Expire commands dispatched to one shard.
 *
 * The Redis servers are not modelled: each reply they would send (to a ping,
 * a GET, a SET, an EXPIRE) is an input, and the client records, in the ghost
 * log `sent`, every data command it puts on the wire and the connection it
 * used.
 */
module GoRedis {
  import opened Wrappers
  import opened Strconv

  // ---------------------------------------------------------------------------
  // The key hash: 32-bit FNV-1 (multiply by the prime, then xor the byte).
  // ---------------------------------------------------------------------------

  /** The 32-bit FNV offset basis. */
  const OffsetBasis: bv32 := 2166136261
  /** The 32-bit FNV prime. */
  const Prime: bv32 := 16777619

  /** One FNV-1 round, the body of the loop in `fnv32`: multiply modulo 2^32, then xor the byte into the low bits. */
  function Step(hash: bv32, b: byte): bv32 {
    (hash * Prime) ^ (b as bv32)
  }

  /** Feeds the bytes of `s`, first to last, into an accumulator that starts at `hash`. */
  function Fold(hash: bv32, s: Bytes): bv32
    decreases |s|
  {
    if s == [] then hash else Fold(Step(hash, s[0]), s[1..])
  }

  /** The FNV-1 hash of a key. */
  function Fnv32(key: Bytes): bv32 {
    Fold(OffsetBasis, key)
  }

  /** Hashing a concatenation resumes from the hash of the first part. */
  lemma {:induction false} FoldAppend(hash: bv32, s: Bytes, t: Bytes)
    ensures Fold(hash, s + t) == Fold(Fold(hash, s), t)
    decreases |s|
  {
    if s == [] {
      assert s + t == t;
    } else {
      assert (s + t)[1..] == s[1..] + t;
      FoldAppend(Step(hash, s[0]), s[1..], t);
    }
  }

  /** The step law: one more byte multiplies the hash by the prime and then xors the byte. */
  lemma FnvStep(s: Bytes, b: byte)
    ensures Fnv32(s + [b]) == Step(Fnv32(s), b)
  {
    FoldAppend(OffsetBasis, s, [b]);
    assert [b][1..] == [];
  }

  /** The hash of the empty key is the offset basis: no round runs. */
  lemma FnvEmpty()
    ensures Fnv32([]) == 2166136261
  {
  }

  /**
   * Published FNV-1 values for "a" and "foobar". FNV-1a, which xors before it
   * multiplies, gives 0xe40c292c and 0xbf9cf968 for the same keys instead.
   */
  lemma FnvKnownValues()
    ensures Fnv32([97]) == 0x050c5d7e
    ensures Fnv32([102, 111, 111, 98, 97, 114]) == 0x31f0b262
  {
    var a: Bytes := [97];
    assert a[1..] == [];
    assert Fold(OffsetBasis, a) == Fold(Step(OffsetBasis, 97), []);
    assert Step(OffsetBasis, 97) == 0x050c5d7e;
    FnvStep([], 102);
    FnvStep([102], 111);
    FnvStep([102, 111], 111);
    FnvStep([102, 111, 111], 98);
    FnvStep([102, 111, 111, 98], 97);
    FnvStep([102, 111, 111, 98, 97], 114);
  }

  /** `fnv32`: the loop over the key's bytes, which computes Fnv32. */
  method ComputeFnv32(key: Bytes) returns (hash: bv32)
    ensures hash == Fnv32(key)
  {
    hash := OffsetBasis;
    for i := 0 to |key|
      invariant hash == Fnv32(key[..i])
    {
      FnvStep(key[..i], key[i]);
      assert key[..i + 1] == key[..i] + [key[i]];
      hash := Step(hash, key[i]);
    }
    assert key[..|key|] == key;
  }

  /**
   * `int(fnv32(key)) % shard`, with Go's `int` 64 bits wide so that the
   * conversion keeps the value non-negative. `shard == 0` makes Go panic.
   */
  function ShardIndex(key: Bytes, shard: nat): (i: nat)
    requires shard > 0
    ensures i < shard
  {
    (Fnv32(key) as int) % shard
  }

  // ---------------------------------------------------------------------------
  // Errors, connections, commands and replies.
  // ---------------------------------------------------------------------------

  datatype Error =
    | Text(message: string)        // errors.New(message)
    | RedisNil                     // go-redis's redis.Nil: no value under the key
    | Failure(message: string)     // any other error from a connection or a library

  /** The error every command returns when its shard has no registered connection. */
  const ClientNotInit: Error := Text("should not hapend, client is not init")

  /** The connection `redis.NewClient` makes for host number `index`. */
  datatype Handle = Handle(index: nat, addr: Bytes, password: Bytes)

  /** A data command sent to a Redis server over connection `to`. */
  datatype Command =
    | GetCmd(to: Handle, key: Bytes)
    | SetCmd(to: Handle, key: Bytes, value: Bytes, dur: int)
    | ExpireCmd(to: Handle, key: Bytes, dur: int)

  datatype PingReply = Pong(text: Bytes) | PingFailed(err: Error)

  datatype GetReply = Found(text: Bytes) | GetFailed(err: Error)

  /** What `connectTo` returns for a ping reply. */
  function PingError(reply: PingReply): Option<Error> {
    if reply.Pong? then None else Some(reply.err)
  }

  // ---------------------------------------------------------------------------
  // Connecting: what the fan-out leaves behind and what it returns.
  // ---------------------------------------------------------------------------

  /**
   * The order in which the goroutines of Connect run and report: every host
   * index exactly once, in an order the scheduler picks.
   */
  predicate IsArrivalOrder(arrival: seq<nat>, n: nat) {
    && |arrival| == n
    && (forall k :: 0 <= k < n ==> arrival[k] < n)
    && (forall i :: 0 <= i < n ==> i in arrival)
  }

  /** Every index in `order` names a host. */
  predicate IndicesBelow(order: seq<nat>, n: nat) {
    forall k :: 0 <= k < |order| ==> order[k] < n
  }

  /**
   * The shard map once the hosts in `order` have run `connectTo`, one after
   * the other: host `i` adds `Itoa(i)` if its ping succeeded.
   */
  function ClientsAfter(hosts: seq<Bytes>, password: Bytes, pings: seq<PingReply>, order: seq<nat>): map<Bytes, Handle>
    requires |pings| == |hosts| && IndicesBelow(order, |hosts|)
  {
    if order == [] then map[]
    else
      var before := ClientsAfter(hosts, password, pings, order[..|order| - 1]);
      var i := order[|order| - 1];
      if pings[i].Pong? then before[Itoa(i) := Handle(i, hosts[i], password)] else before
  }

  /**
   * The host-address map once the hosts in `order` have run `connectTo`, one
   * after the other: a later host with the same address replaces an earlier one.
   */
  function HostsAfter(hosts: seq<Bytes>, password: Bytes, pings: seq<PingReply>, order: seq<nat>): map<Bytes, Handle>
    requires |pings| == |hosts| && IndicesBelow(order, |hosts|)
  {
    if order == [] then map[]
    else
      var before := HostsAfter(hosts, password, pings, order[..|order| - 1]);
      var i := order[|order| - 1];
      if pings[i].Pong? then before[hosts[i] := Handle(i, hosts[i], password)] else before
  }

  /** The results on the channel of Connect, in arrival order. */
  function Arrivals(pings: seq<PingReply>, arrival: seq<nat>): seq<Option<Error>>
    requires forall k :: 0 <= k < |arrival| ==> arrival[k] < |pings|
  {
    seq(|arrival|, k requires 0 <= k < |arrival| => PingError(pings[arrival[k]]))
  }

  /** The first error among results read in order, or None when every result is nil. */
  function FirstError(results: seq<Option<Error>>): (e: Option<Error>)
    ensures e.None? <==> forall k :: 0 <= k < |results| ==> results[k].None?
    ensures e.Some? ==> exists k :: 0 <= k < |results| && results[k] == e && forall j :: 0 <= j < k ==> results[j].None?
  {
    if results == [] then None
    else if results[0].Some? then
      results[0]
    else
      var e := FirstError(results[1..]);
      if e.Some? then
        var k :| 0 <= k < |results| - 1 && results[1..][k] == e && forall j :: 0 <= j < k ==> results[1..][j].None?;
        assert results[k + 1] == e && forall j :: 0 <= j < k + 1 ==> results[j].None?;
        e
      else
        e
  }

  /**
   * Connect fails exactly when some host's ping failed, and then with the error
   * of one of those hosts (the first to arrive).
   */
  lemma ConnectOutcome(pings: seq<PingReply>, arrival: seq<nat>)
    requires IsArrivalOrder(arrival, |pings|)
    ensures FirstError(Arrivals(pings, arrival)).None? <==> forall i :: 0 <= i < |pings| ==> pings[i].Pong?
    ensures FirstError(Arrivals(pings, arrival)).Some? ==>
              exists i :: 0 <= i < |pings| && pings[i] == PingFailed(FirstError(Arrivals(pings, arrival)).value)
  {
    var results := Arrivals(pings, arrival);
    if forall k :: 0 <= k < |results| ==> results[k].None? {
      forall i | 0 <= i < |pings| ensures pings[i].Pong? {
        assert i in arrival;
        var k :| 0 <= k < |arrival| && arrival[k] == i;
        assert results[k].None?;
      }
    }
  }

  /**
   * Host `i` has an entry after `order` has run exactly when it ran and its
   * ping succeeded, and the entry is the connection made for host `i`.
   */
  lemma {:induction false} ClientsAfterAt(hosts: seq<Bytes>, password: Bytes, pings: seq<PingReply>, order: seq<nat>, i: nat)
    requires |pings| == |hosts| && IndicesBelow(order, |hosts|) && i < |hosts|
    ensures Itoa(i) in ClientsAfter(hosts, password, pings, order) <==> i in order && pings[i].Pong?
    ensures Itoa(i) in ClientsAfter(hosts, password, pings, order) ==>
              ClientsAfter(hosts, password, pings, order)[Itoa(i)] == Handle(i, hosts[i], password)
    decreases |order|
  {
    if order != [] {
      var prefix := order[..|order| - 1];
      var j := order[|order| - 1];
      ClientsAfterAt(hosts, password, pings, prefix, i);
      assert order == prefix + [j];
      assert Itoa(i) == Itoa(j) ==> i == j by {
        assert ParseDecimal(Itoa(i)) == i && ParseDecimal(Itoa(j)) == j;
      }
    }
  }

  /** Every entry of the shard map names a host that ran and whose ping succeeded. */
  lemma {:induction false} ClientsAfterKeys(hosts: seq<Bytes>, password: Bytes, pings: seq<PingReply>, order: seq<nat>)
    requires |pings| == |hosts| && IndicesBelow(order, |hosts|)
    ensures forall s :: s in ClientsAfter(hosts, password, pings, order) ==>
              exists i :: i in order && pings[i].Pong? && s == Itoa(i)
    decreases |order|
  {
    if order != [] {
      var prefix := order[..|order| - 1];
      var j := order[|order| - 1];
      ClientsAfterKeys(hosts, password, pings, prefix);
      assert order == prefix + [j];
    }
  }

  /**
   * After Connect, shard `i` of `0 .. len(hosts)-1` is registered exactly when
   * host `i` answered the ping, under the connection made for host `i`, and
   * nothing else is registered.
   */
  lemma ConnectRegisters(hosts: seq<Bytes>, password: Bytes, pings: seq<PingReply>, arrival: seq<nat>)
    requires |pings| == |hosts| && IsArrivalOrder(arrival, |hosts|)
    ensures var clients := ClientsAfter(hosts, password, pings, arrival);
            && (forall i :: 0 <= i < |hosts| ==>
                  && (Itoa(i) in clients <==> pings[i].Pong?)
                  && (Itoa(i) in clients ==> clients[Itoa(i)] == Handle(i, hosts[i], password)))
            && (forall s :: s in clients ==> exists i :: 0 <= i < |hosts| && pings[i].Pong? && s == Itoa(i))
  {
    forall i | 0 <= i < |hosts| {
      ClientsAfterAt(hosts, password, pings, arrival, i);
    }
    ClientsAfterKeys(hosts, password, pings, arrival);
  }

  /**
   * After Connect, a key routes to a registered connection exactly when the
   * ping of its shard's host succeeded, and then to that host's connection.
   */
  lemma RouteAfterConnect(hosts: seq<Bytes>, password: Bytes, pings: seq<PingReply>, arrival: seq<nat>, key: Bytes)
    requires |pings| == |hosts| > 0 && IsArrivalOrder(arrival, |hosts|)
    ensures var i := ShardIndex(key, |hosts|);
            var clients := ClientsAfter(hosts, password, pings, arrival);
            && (Itoa(i) in clients <==> pings[i].Pong?)
            && (Itoa(i) in clients ==> clients[Itoa(i)] == Handle(i, hosts[i], password))
  {
    var i := ShardIndex(key, |hosts|);
    assert i in arrival;
    ClientsAfterAt(hosts, password, pings, arrival, i);
  }

  /** After a Connect that returned nil, no key meets the "client is not init" path. */
  lemma EveryKeyRoutes(hosts: seq<Bytes>, password: Bytes, pings: seq<PingReply>, arrival: seq<nat>, key: Bytes)
    requires |pings| == |hosts| > 0 && IsArrivalOrder(arrival, |hosts|)
    requires FirstError(Arrivals(pings, arrival)).None?
    ensures Itoa(ShardIndex(key, |hosts|)) in ClientsAfter(hosts, password, pings, arrival)
  {
    ConnectOutcome(pings, arrival);
    RouteAfterConnect(hosts, password, pings, arrival, key);
  }

  /**
   * The second loop of Connect: reads the results in arrival order and stops
   * at the first error.
   */
  method Receive(results: seq<Option<Error>>) returns (err: Option<Error>)
    ensures err.None? <==> forall k :: 0 <= k < |results| ==> results[k].None?
    ensures err.Some? ==> exists k :: 0 <= k < |results| && results[k] == err && forall j :: 0 <= j < k ==> results[j].None?
    ensures err == FirstError(results)
  {
    for k := 0 to |results|
      invariant forall j :: 0 <= j < k ==> results[j].None?
    {
      if results[k].Some? {
        return results[k];
      }
    }
    return None;
  }

  // ---------------------------------------------------------------------------
  // The client.
  // ---------------------------------------------------------------------------

  class Client {
    /** The number of shards: `len(hosts)` of the last Connect. */
    var shard: nat
    /** Shard name ("0", "1", ...) to connection. */
    var clients: map<Bytes, Handle>
    /** Host address to connection; nothing reads it. */
    var locks: map<Bytes, Handle>
    /** The data commands sent so far, oldest first. */
    ghost var sent: seq<Command>

    /** `&Client{}`: no shards, no connections. */
    constructor ()
      ensures shard == 0 && clients == map[] && locks == map[] && sent == []
    {
      shard := 0;
      clients := map[];
      locks := map[];
      sent := [];
    }

    /** The name of the shard that `key` routes to: the decimal text of an index below `shard`. */
    function GetKey(key: Bytes): (r: Bytes)
      reads this
      requires shard > 0
      ensures IsDecimal(r) && ParseDecimal(r) < shard
    {
      Itoa(ShardIndex(key, shard))
    }

    /** The connection a command routed by `shardkey` goes to, if one is registered. */
    function Route(shardkey: Bytes): Option<Handle>
      reads this
      requires shard > 0
    {
      var name := GetKey(shardkey);
      if name in clients then Some(clients[name]) else None
    }

    /**
     * `connectTo`: makes the connection for host `i`, pings it, and only if the
     * ping succeeds registers it under the host's address and under `Itoa(i)`.
     */
    method ConnectTo(i: nat, host: Bytes, password: Bytes, ping: PingReply) returns (err: Option<Error>)
      modifies this`clients, this`locks
      ensures err == PingError(ping)
      ensures clients == if ping.Pong? then old(clients)[Itoa(i) := Handle(i, host, password)] else old(clients)
      ensures locks == if ping.Pong? then old(locks)[host := Handle(i, host, password)] else old(locks)
    {
      var client := Handle(i, host, password);
      if ping.PingFailed? {
        return Some(ping.err);
      }
      locks := locks[host := client];
      clients := clients[Itoa(i) := client];
      return None;
    }

    /**
     * `Connect`: sets the shard count, starts afresh with empty maps, runs
     * `connectTo` for every host (in the order the goroutines happen to run,
     * `arrival`), then reads the results in that order and returns the first
     * error, or nil. `pings[i]` is the reply host `i` gives to the ping.
     */
    method Connect(hosts: seq<Bytes>, password: Bytes, pings: seq<PingReply>, arrival: seq<nat>)
      returns (err: Option<Error>)
      requires |pings| == |hosts|
      requires IsArrivalOrder(arrival, |hosts|)
      modifies this`shard, this`clients, this`locks
      ensures shard == |hosts|
      ensures clients == ClientsAfter(hosts, password, pings, arrival)
      ensures locks == HostsAfter(hosts, password, pings, arrival)
      ensures err == FirstError(Arrivals(pings, arrival))
    {
      shard := |hosts|;
      locks := map[];
      clients := map[];
      var results: seq<Option<Error>> := [];
      for k := 0 to |arrival|
        invariant shard == |hosts|
        invariant |results| == k
        invariant forall j :: 0 <= j < k ==> results[j] == PingError(pings[arrival[j]])
        invariant clients == ClientsAfter(hosts, password, pings, arrival[..k])
        invariant locks == HostsAfter(hosts, password, pings, arrival[..k])
      {
        var i := arrival[k];
        var e := ConnectTo(i, hosts[i], password, pings[i]);
        assert arrival[..k + 1][..k] == arrival[..k];
        results := results + [e];
      }
      assert arrival[..|arrival|] == arrival;
      assert results == Arrivals(pings, arrival);
      err := Receive(results);
    }

    /**
     * `Get`: routes by `shardkey` alone and sends GET `key` to that shard, or
     * fails with the "client is not init" error and sends nothing. The reply
     * text comes back as bytes with the reply's error; on an error the text is
     * empty.
     */
    method Get(shardkey: Bytes, key: Bytes, reply: GetReply) returns (data: Bytes, err: Option<Error>)
      requires shard > 0
      modifies this`sent
      ensures Route(shardkey).None? ==> data == [] && err == Some(ClientNotInit) && sent == old(sent)
      ensures Route(shardkey).Some? ==> sent == old(sent) + [GetCmd(Route(shardkey).value, key)]
      ensures Route(shardkey).Some? && reply.Found? ==> data == reply.text && err == None
      ensures Route(shardkey).Some? && reply.GetFailed? ==> data == [] && err == Some(reply.err)
    {
      var name := GetKey(shardkey);
      if name !in clients {
        return [], Some(ClientNotInit);
      }
      var client := clients[name];
      sent := sent + [GetCmd(client, key)];
      match reply
      case Found(text) =>
        data, err := text, None;
      case GetFailed(e) =>
        data, err := [], Some(e);
    }

    /** `Set`: routes by `shardkey` alone and sends SET `key` `value` with expiry `dur`. */
    method Set(shardkey: Bytes, key: Bytes, value: Bytes, dur: int, reply: Option<Error>) returns (err: Option<Error>)
      requires shard > 0
      modifies this`sent
      ensures Route(shardkey).None? ==> err == Some(ClientNotInit) && sent == old(sent)
      ensures Route(shardkey).Some? ==> err == reply && sent == old(sent) + [SetCmd(Route(shardkey).value, key, value, dur)]
    {
      var name := GetKey(shardkey);
      if name !in clients {
        return Some(ClientNotInit);
      }
      var client := clients[name];
      sent := sent + [SetCmd(client, key, value, dur)];
      return reply;
    }

    /** `Expire`: routes by `shardkey` alone and sends EXPIRE `key` `dur`. */
    method Expire(shardkey: Bytes, key: Bytes, dur: int, reply: Option<Error>) returns (err: Option<Error>)
      requires shard > 0
      modifies this`sent
      ensures Route(shardkey).None? ==> err == Some(ClientNotInit) && sent == old(sent)
      ensures Route(shardkey).Some? ==> err == reply && sent == old(sent) + [ExpireCmd(Route(shardkey).value, key, dur)]
    {
      var name := GetKey(shardkey);
      if name !in clients {
        return Some(ClientNotInit);
      }
      var client := clients[name];
      sent := sent + [ExpireCmd(client, key, dur)];
      return reply;
    }
  }
}
