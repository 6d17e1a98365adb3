/**
 * The Redis client as the service uses it: GET of a key and SET of a key
 * with an expiry. The cache is a map from key to stored payload and TTL;
 * expiry itself and the network are not modelled, but a read or a write
 * can be made to fail, and a ghost log records every operation.
 */
module Redis {
  import opened Wrappers

  datatype Entry = Entry(payload: string, ttlSeconds: nat)

  /** Why a GET produced no value: redis.Nil (no such key) or a transport error. */
  datatype GetError = Nil | ReadFailure

  datatype SetError = WriteFailure

  datatype CacheOp = GetOp(key: string) | SetOp(key: string, payload: string, ttlSeconds: nat)

  class Client {
    var entries: map<string, Entry>
    var readFails: bool
    var writeFails: bool
    ghost var ops: seq<CacheOp>

    constructor (entries: map<string, Entry>, readFails: bool, writeFails: bool)
      ensures this.entries == entries && this.readFails == readFails && this.writeFails == writeFails
      ensures ops == []
    {
      this.entries := entries;
      this.readFails := readFails;
      this.writeFails := writeFails;
      ops := [];
    }

    /** What GET answers for a key. */
    function Lookup(key: string): (r: Result<string, GetError>)
      reads this`entries, this`readFails
      ensures r.Success? <==> !readFails && key in entries
      ensures r.Success? ==> r.value == entries[key].payload
      ensures r == Failure(Nil) <==> !readFails && key !in entries
    {
      if readFails then Failure(ReadFailure)
      else if key in entries then Success(entries[key].payload)
      else Failure(Nil)
    }

    method Get(key: string) returns (r: Result<string, GetError>)
      modifies this`ops
      ensures r == Lookup(key)
      ensures ops == old(ops) + [GetOp(key)]
    {
      r := Lookup(key);
      ops := ops + [GetOp(key)];
    }

    /** SET key payload EX ttl: on success the key holds the payload, otherwise nothing changes. */
    method Set(key: string, payload: string, ttlSeconds: nat) returns (err: Option<SetError>)
      modifies this`entries, this`ops
      ensures err.Some? <==> writeFails
      ensures entries == if writeFails then old(entries) else old(entries)[key := Entry(payload, ttlSeconds)]
      ensures ops == old(ops) + [SetOp(key, payload, ttlSeconds)]
    {
      if writeFails {
        err := Some(WriteFailure);
      } else {
        entries := entries[key := Entry(payload, ttlSeconds)];
        err := None;
      }
      ops := ops + [SetOp(key, payload, ttlSeconds)];
    }
  }
}
