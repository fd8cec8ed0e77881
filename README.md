# goredis: shard routing and the per-key-lock read-through cache, in Dafny

This project models the core of the goredis sharded Redis client:

- **Routing** (`goredis.go`). A key is hashed with 32-bit FNV-1 (multiply by the
  FNV prime modulo 2^32, then xor the byte). The hash modulo the shard count
  names a shard: the decimal text `strconv.Itoa(i)` of an index `i`.
- **Connecting.** `Connect(hosts, password)` sets the shard count to
  `len(hosts)`. Each host gets its own goroutine running `connectTo`, which pings
  the host and registers the connection only when the ping succeeds. `Connect`
  returns the first error in the order the goroutines report, or nil.
- **Dispatch.** `Get`, `Set` and `Expire` choose a shard by the routing key
  alone. They send the storage key unchanged, or fail with "client is not
  init" when no connection is registered for that shard.
- **The read-through cache** (`lcache.go`). `Lcache.Read` finds or creates
  the mutex for a key and locks it. It reads the key through the sharded
  client and unmarshals a hit. The mutex is released on every path.
  `Lcache.Save` serialises a message and sends it with `Set`.

Files:

- `wrappers.dfy`: `Option` (a nil `error` is `None`).
- `strconv.dfy`: Go strings as byte sequences, and `Itoa` with its decimal reading.
- `goredis.dfy`: the hash, routing, the `Client` class, and the lemmas about `Connect`.
- `lcache.dfy`: the `Lcache` class.

The Redis servers are not modelled. Whatever a server answers to a ping,
GET, SET or EXPIRE is an input to the method that sends that command. The
client records in a ghost log, `sent`, each data command it sends and the
connection it uses. The goroutine schedule is also an input, `arrival`: a
permutation of the host indices. `proto.Unmarshal` and `common.Protify` are
passed in as functions. Mutexes are identities (`LockId`). A `held` set
records which mutexes are locked. A ghost `trace` records Acquire / ClientGet /
Release events.

Three behaviours of the code worth knowing:

- The hash is FNV-1: the code multiplies before it xors (FNV-1a would xor
  first). `FnvKnownValues` pins the FNV-1 values for "a" and "foobar".
- `Get` returns go-redis's `redis.Nil` as an error for a missing key, and
  `Read` then returns a nil message with that error.
- `Expire` sends EXPIRE with the duration as given, even when it is not
  positive.

## Model

| member | source | states |
|---|---|---|
| Strconv.Itoa | goredis.go:47 | the shard name is canonical decimal text (digits only, no leading zero) that reads back as the index, so distinct indices get distinct names |
| GoRedis.FoldAppend | goredis.go:39-42 | hashing `s + t` from accumulator `h` resumes from the hash of `s`: the loop is a left fold over the bytes |
| GoRedis.FnvStep | goredis.go:39-42 | step law: `fnv32(s + [b])` is `fnv32(s)` multiplied by 16777619 modulo 2^32 and then xored with `b` |
| GoRedis.FnvEmpty | goredis.go:37-43 | the hash of the empty key is the offset basis 2166136261 |
| GoRedis.FnvKnownValues | goredis.go:36-44 | the hashes of "a" and "foobar" are 0x050c5d7e and 0x31f0b262, the FNV-1 values; FNV-1a would give 0xe40c292c and 0xbf9cf968 |
| GoRedis.ComputeFnv32 | goredis.go:36-44 | the loop of `fnv32` computes the FNV-1 hash of the key |
| GoRedis.ShardIndex | goredis.go:47 | with a positive shard count, the index `int(fnv32(key)) % shard` is below the shard count (64-bit `int`) |
| GoRedis.Client.GetKey | goredis.go:46-48 | `GetKey` is the canonical decimal text of an index below `shard`, and depends only on the key and `shard` |
| GoRedis.Client.constructor | lcache.go:27 | a fresh client has no shards and no registered connections |
| GoRedis.Client.ConnectTo | goredis.go:20-34 | returns the ping's error and registers nothing on a failed ping; on success registers the host's new connection under `Itoa(i)` and under the host address |
| GoRedis.Client.Connect | goredis.go:50-68 | `shard == len(hosts)` whatever the outcome; the maps are rebuilt from empty by running `connectTo` for every host in arrival order; the result is the first error in arrival order |
| GoRedis.FirstError | goredis.go:61-67 | the result read from the channel is nil exactly when every result is nil, and otherwise is the earliest non-nil result |
| GoRedis.Receive | goredis.go:61-67 | the loop that reads the results stops at the first error and returns it, or returns nil when all are nil |
| GoRedis.ConnectOutcome | goredis.go:54-67 | Connect returns nil exactly when every host's ping succeeded; otherwise it returns the error of a host whose ping failed |
| GoRedis.ClientsAfterAt | goredis.go:25-33 | after some hosts have run `connectTo`, `Itoa(i)` is registered exactly when host `i` ran and its ping succeeded, and maps to host `i`'s connection |
| GoRedis.ClientsAfterKeys | goredis.go:32 | every registered shard name is `Itoa(i)` for a host `i` that ran and whose ping succeeded |
| GoRedis.ConnectRegisters | goredis.go:55-67 | after Connect, the registered names are exactly `Itoa(i)` for the hosts whose ping succeeded, each bound to its own host's connection |
| GoRedis.RouteAfterConnect | goredis.go:71-74 | after Connect, a key's shard is registered exactly when that shard's host answered the ping, and routes to that host's connection |
| GoRedis.EveryKeyRoutes | goredis.go:71-74 | after a Connect that returned nil, no key reaches the "client is not init" path |
| GoRedis.Client.Get | goredis.go:70-78 | routes by `shardkey` only; if the shard is not registered, returns "client is not init" and sends nothing; otherwise sends one GET of `key` to that shard and returns the reply's text (empty on error) with the reply's error |
| GoRedis.Client.Set | goredis.go:80-87 | routes by `shardkey` only; if the shard is not registered, returns "client is not init" and sends nothing; otherwise sends one SET of `key`, the value and the duration to that shard and returns the reply's error |
| GoRedis.Client.Expire | goredis.go:89-97 | routes by `shardkey` only; if the shard is not registered, returns "client is not init" and sends nothing; otherwise sends one EXPIRE of `key` with the duration to that shard and returns the reply's error |
| LCache.Lcache.NewLcache | lcache.go:24-33 | the cache starts with an empty lock map over a client that has run Connect, whether or not Connect failed |
| LCache.Lcache.GetOrInit | lcache.go:36-39 | an existing lock is reused and the map is unchanged; otherwise exactly one new lock, distinct from every other, is added for the key; no other key's lock changes |
| LCache.Lcache.Lock | lcache.go:40 | marks the mutex held and records its acquisition |
| LCache.Lcache.Unlock | lcache.go:41 | marks the mutex released and records its release |
| LCache.Lcache.FetchLocked | lcache.go:43 | the client's `Get` of `key`, routed by `key`, is called only while the key's own mutex is held, and the call is logged in the trace in the same step; otherwise as `Get` |
| LCache.Lcache.Read | lcache.go:35-54 | returns the key's registered lock and never removes entries; takes the lock, reads `key` routed by `key` through `FetchLocked` while the lock is held, and releases the lock, so it is not held afterwards; a store error gives a nil message and that error; a hit gives the caller's message and the unmarshal error, nil on success; keeps the invariant that every read held its key's own lock |
| LCache.Lcache.Save | lcache.go:56-59 | sends SET of `key` routed by `key`, with the serialised message and the caller's expiry unchanged; takes no lock and leaves the lock map alone |

## Left out

- The Redis connection (`redis.NewClient`, `Ping`, `Get`, `Set`, `Expire`) is network I/O. Each reply is an input, and the commands sent are recorded in the ghost log `sent`. Pings are not recorded there.
- The goroutines and the result channel of `Connect` are concurrency. The schedule is the input `arrival`. The model runs every `connectTo` in that order, then reads the results in the same order.
- GoRedis.Client.Connect: states the maps after every goroutine has finished. In Go, `Connect` can return at the first error while other goroutines are still registering connections. The state seen at that earlier moment is not modelled.
- The host-address map `locks` (goredis.go:31) is tracked as `HostsAfter`. Nothing reads it, and nothing is proved about it.
- `fmt.Println`, `common.Log` and `common.LogErr` only write logs.
- `proto.Unmarshal` and `common.Protify` belong to a foreign serialisation library. They are passed in as functions, and a message is modelled only by its identity. So the round trip from `Save` to `Read` is not stated.
- Map capacities (`cmap.New(len(hosts) * 2)` and the `len` argument of `NewLcache`) do not affect behaviour and are dropped. The concurrent map is a Dafny `map`.
- Mutex blocking, waiting, and the guarantee across goroutines that one key has one fetch at a time are concurrency. Only held or not held is modelled, on one thread. So `Lock` requires that the mutex is not held, since a single thread would block forever, and `Unlock` requires that it is held, since Go treats unlocking an unlocked mutex as a fatal error.
- `Lcache.Delete` calls `Del` on the client, and `Del` is not defined in `goredis.go`. So `Delete` is not part of this model.
- `GetKey`, `Get`, `Set`, `Expire`, `Read` and `Save` require a positive shard count. With zero shards, Go's `%` panics with a division by zero. This happens, for example, after a `Connect` with no hosts.
- Platforms with a 32-bit Go `int` are not modelled. There, `int(fnv32(key))` can be negative, and so can the index. The model fixes `int` at 64 bits.
- A `time.Duration` is an unbounded `int` here. It is passed through unchanged, and its 64-bit range is not modelled.
