/** The shared Redis client (`req.app.locals.redisClient`) reduced to what the
    handlers use of it: a map from keys to string values, and the commands
    `GET`, `SETEX`, `DEL`, `KEYS *` and `FLUSHALL`. A ghost log records every
    command issued, so that callers can state how many reads and writes an
    operation makes. */
module RedisStore {
  import opened Wrappers

  /** A command sent to the store, as recorded in the log. */
  datatype Command =
    | Get(key: string)
    | SetEx(key: string, ttl: nat, value: string)
    | Del(key: string)
    | Keys
    | FlushAll

  /** The contents after one command: reads change nothing, `SETEX` sets one
      key, `DEL` removes one, `FLUSHALL` removes all. */
  function Step(data: map<string, string>, c: Command): (r: map<string, string>)
    ensures c.Get? || c.Keys? ==> r == data
    ensures c.FlushAll? ==> r == map[]
    ensures c.SetEx? ==> c.key in r && r[c.key] == c.value
    ensures c.Del? ==> c.key !in r
    ensures forall k <- r.Keys :: (k in data && r[k] == data[k]) || (c.SetEx? && k == c.key)
    ensures !c.FlushAll? ==> forall k <- data.Keys :: k in r || (c.Del? && k == c.key)
  {
    match c
    case SetEx(key, _, value) => data[key := value]
    case Del(key) => data - {key}
    case FlushAll => map[]
    case _ => data
  }

  /** The contents after the commands have been applied in order. */
  function Replay(data: map<string, string>, cmds: seq<Command>): map<string, string>
    decreases |cmds|
  {
    if cmds == [] then data else Replay(Step(data, cmds[0]), cmds[1..])
  }

  /** After a run of commands every value held was either there before or
      written by a `SETEX` of that key in the run; and unless the run
      flushes, every key held before is still held or was deleted by a `DEL`
      in the run. */
  lemma {:induction false} ReplayProvenance(data: map<string, string>, cmds: seq<Command>)
    ensures var r := Replay(data, cmds);
      forall k <- r.Keys :: (k in data && r[k] == data[k]) || exists t :: Command.SetEx(k, t, r[k]) in cmds
    ensures (forall c <- cmds :: !c.FlushAll?) ==>
      var r := Replay(data, cmds);
      forall k <- data.Keys :: k in r || Command.Del(k) in cmds
    decreases |cmds|
  {
    if cmds != [] {
      ReplayProvenance(Step(data, cmds[0]), cmds[1..]);
      assert cmds == [cmds[0]] + cmds[1..];
    }
  }

  /** Commands that only read leave the contents as they were. */
  lemma {:induction false} ReplayReads(data: map<string, string>, cmds: seq<Command>)
    requires forall c <- cmds :: c.Get? || c.Keys?
    ensures Replay(data, cmds) == data
    decreases |cmds|
  {
    if cmds != [] {
      assert cmds[0] in cmds;
      assert forall c <- cmds[1..] :: c in cmds;
      ReplayReads(data, cmds[1..]);
    }
  }

  /** Replaying two runs of commands is replaying the first, then the second. */
  lemma {:induction false} ReplayAppend(data: map<string, string>, a: seq<Command>, b: seq<Command>)
    ensures Replay(data, a + b) == Replay(Replay(data, a), b)
    decreases |a|
  {
    if a != [] {
      assert (a + b)[0] == a[0] && (a + b)[1..] == a[1..] + b;
      ReplayAppend(Step(data, a[0]), a[1..], b);
    } else {
      assert a + b == b;
    }
  }

  /** `q` lists every element of `s` exactly once, in some order. */
  predicate Enumerates(q: seq<string>, s: set<string>) {
    && (forall k <- q :: k in s)
    && (forall k <- s :: k in q)
    && (forall i, j | 0 <= i < j < |q| :: q[i] != q[j])
  }

  /** A listing without repeats has as many entries as the set it lists. */
  lemma {:induction false} EnumerationLength(q: seq<string>, s: set<string>)
    requires Enumerates(q, s)
    ensures |q| == |s|
    decreases |q|
  {
    if q != [] {
      var x := q[|q| - 1];
      var q' := q[..|q| - 1];
      assert x in s;
      forall k | k in q' ensures k != x {
        var i :| 0 <= i < |q'| && q'[i] == k;
        assert q[i] == k && q[|q| - 1] == x;
      }
      forall k | k in s - {x} ensures k in q' {
        var i :| 0 <= i < |q| && q[i] == k;
        assert i != |q| - 1;
        assert q'[i] == k;
      }
      assert Enumerates(q', s - {x});
      EnumerationLength(q', s - {x});
    } else {
      assert forall k <- s :: k in q;
      assert s == {};
    }
  }

  class Store {
    /** The keys and values currently held. */
    var data: map<string, string>
    /** Every command issued so far, oldest first. */
    ghost var log: seq<Command>

    constructor (initial: map<string, string>)
      ensures data == initial && log == []
    {
      data := initial;
      log := [];
    }

    /** `GET key`: the value held, or nothing (`null`) for an absent key. */
    method Get(key: string) returns (v: Option<string>)
      modifies this`log
      ensures key in data ==> v == Some(data[key])
      ensures key !in data ==> v == None
      ensures log == old(log) + [Command.Get(key)]
    {
      v := if key in data then Some(data[key]) else None;
      log := log + [Command.Get(key)];
    }

    /** `SETEX key ttl value`: sets the value. The expiry time is recorded in
        the log and not otherwise modelled. */
    method SetEx(key: string, ttl: nat, value: string)
      modifies this
      ensures data == old(data)[key := value]
      ensures log == old(log) + [Command.SetEx(key, ttl, value)]
    {
      data := data[key := value];
      log := log + [Command.SetEx(key, ttl, value)];
    }

    /** `DEL key`: removes the key and answers how many keys were removed. */
    method Del(key: string) returns (removed: nat)
      modifies this
      ensures removed == (if key in old(data) then 1 else 0)
      ensures data == old(data) - {key}
      ensures log == old(log) + [Command.Del(key)]
    {
      removed := if key in data then 1 else 0;
      data := data - {key};
      log := log + [Command.Del(key)];
    }

    /** `KEYS *`: every key held, each once, in an order the store chooses. */
    method Keys() returns (keys: seq<string>)
      modifies this`log
      ensures Enumerates(keys, data.Keys)
      ensures log == old(log) + [Command.Keys]
    {
      keys := [];
      var rest := data.Keys;
      while rest != {}
        invariant rest <= data.Keys
        invariant Enumerates(keys, data.Keys - rest)
        decreases rest
      {
        var k :| k in rest;
        keys := keys + [k];
        rest := rest - {k};
      }
      log := log + [Command.Keys];
    }

    /** `FLUSHALL`: removes every key. */
    method FlushAll()
      modifies this
      ensures data == map[]
      ensures log == old(log) + [Command.FlushAll]
    {
      data := map[];
      log := log + [Command.FlushAll];
    }
  }
}
