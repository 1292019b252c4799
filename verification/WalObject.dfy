/** `wal_object` (include/distributed_system/wal_object.h): the ordered, hash-chained log with
    re-entrant pushes, as a class whose methods refine the functions of `WalSpec`. An object made by
    `create` always has its vtable, its configuration, `get_meta` and `get_log_key`. */
module WalObject {
  import opened Wrappers
  import opened WalCommon
  import opened WalChain
  import opened WalSpec

  class Wal {
    const vt: VTable
    const conf: Configure

    var logs: seq<Log>
    var pending: seq<Log>
    var removed: Option<Key>
    var ignore: Option<Key>
    var inAction: bool
    // Callback invocations so far.
    var calls: nat
    // Every log handed to the internal add-log event, oldest first.
    var added: seq<Log>

    ghost var popped: seq<Log>
    ghost var applied: seq<Log>
    ghost var queued: seq<Log>
    // A user callback is on the stack.
    ghost var running: bool

    ghost function State(): Core
      reads this
    {
      Core(logs, pending, removed, ignore, calls, added, popped, applied, queued)
    }

    ghost predicate Valid()
      reads this
    {
      vt.Settles() && Ordered(vt, logs)
    }

    /** Between outermost calls: no callback is running and nothing is queued. */
    ghost predicate Idle()
      reads this
    {
      Valid() && !inAction && !running && pending == []
    }

    constructor (vt: VTable, conf: Configure)
      requires vt.Settles()
      ensures this.vt == vt && this.conf == conf && Idle()
      ensures State() == Core([], [], None, None, 0, [], [], [], [])
    {
      this.vt, this.conf := vt, conf;
      logs, pending, removed, ignore, inAction, calls, added := [], [], None, None, false, 0, [];
      popped, applied, queued, running := [], [], [], false;
    }

    // -------------------------------------------------------------- pushing

    /** Push a log; `None` is the null pointer. From inside a callback the log is queued. An outermost
        push must be one that returns: see `DrainEnds`. */
    method EmplaceBack(log: Option<Log>) returns (code: Code)
      requires Valid()
      requires !inAction ==> Idle() && (log.Some? ==> Returns(vt, conf, State(), log.value))
      modifies this
      ensures Valid() && inAction == old(inAction) && running == old(running)
      ensures log.None? ==> code == InvalidParam && State() == old(State())
      ensures log.Some? && old(inAction) ==>
                code == Pending && State() == Enqueue(old(State()), old(calls), [log.value])
      ensures log.Some? && !old(inAction) ==>
                Idle() && (State(), code) == Emplace(vt, conf, old(State()), log.value)
      decreases if inAction then 0 else 6
    {
      if log.None? { return InvalidParam; }
      var log := log.value;

      if pending != [] || inAction {
        pending := pending + [log];
        queued := queued + [log];
        return Pending;
      }

      inAction := true;
      if ignore.Some? && !(ignore.value < log.key) {
        code := Ignore;
      } else {
        code := PushBackInternal(log);
      }

      DrainPending();
      TrimToSize();
      inAction := false;
    }

    /** Apply the queued pushes, and those they push, until the queue is empty. */
    method DrainPending()
      requires Valid() && inAction && !running && Drains(vt, conf, State())
      modifies this
      ensures Valid() && inAction && !running && pending == []
      ensures State() == Drain(vt, conf, old(State()))
      decreases 5
    {
      while pending != []
        invariant Valid() && inAction && !running && Drains(vt, conf, State())
        invariant Drain(vt, conf, State()) == Drain(vt, conf, old(State()))
        decreases if calls < vt.quiet then vt.quiet - calls else 0, |pending|
      {
        var head := pending[0];
        ghost var before := State();
        DrainOne(vt, conf, before);
        DrainsStep(vt, conf, before);
        assert before.pending[0] in [before.pending[0]];
        // An entry below the ignore key would be looked at for ever.
        assert !(ignore.Some? && head.key < ignore.value);
        var _ := PushBackInternal(head);
        ghost var after := State();
        assert after == PushOne(vt, conf, before, head).0;
        pending := pending[1..];
        assert State() == after.(pending := after.pending[1..]);
      }
    }

    /** Remove from the front what exceeds the configured size. */
    method TrimToSize()
      requires Valid()
      modifies this
      ensures Valid() && inAction == old(inAction) && running == old(running)
      ensures State() == PopMany(old(State()), Excess(conf, old(State())))
    {
      if conf.maxSize > 0 {
        ghost var n := 0;
        while |logs| > conf.maxSize
          invariant Valid() && inAction == old(inAction) && running == old(running)
          invariant n <= Excess(conf, old(State())) && State() == PopMany(old(State()), n)
          invariant |logs| == |old(logs)| - n
        {
          PopManyOneMore(old(State()), n);
          PopFrontInternal();
          n := n + 1;
        }
      }
    }

    /** Run one user callback: what it pushes re-enters `EmplaceBack`. Callbacks never nest. */
    method RunCallback(log: Log) returns (code: Code, payload: int)
      requires Valid() && inAction && !running
      modifies this
      ensures Valid() && inAction && !running
      ensures var o := vt.callback(old(calls), log);
              code == o.code && payload == o.payload && State() == Enqueue(old(State()), old(calls) + 1, o.pushes)
      decreases 1
    {
      running := true;
      var o := vt.callback(calls, log);
      calls := calls + 1;
      for i := 0 to |o.pushes|
        invariant Valid() && inAction && running
        invariant State() == Enqueue(old(State()), old(calls) + 1, o.pushes[..i])
      {
        assert o.pushes[..i + 1] == o.pushes[..i] + [o.pushes[i]];
        var _ := EmplaceBack(Some(o.pushes[i]));
      }
      assert o.pushes[..|o.pushes|] == o.pushes;
      running := false;
      code, payload := o.code, o.payload;
    }

    /** Dispatch the patch and action callbacks of a log by its action case. */
    method RedoLog(log: Log) returns (code: Code, out: Log)
      requires Valid() && inAction && !running
      modifies this
      ensures Valid() && inAction && !running
      ensures var r := Redo(vt, old(calls), log);
              code == r.code && out == r.log && State() == Enqueue(old(State()), r.calls, r.pushes)
      decreases 2
    {
      out := log;
      match vt.meta(log.key, log.body)
      case MetaError(c) => return c, log;
      case MetaNone => return CallbackError, log;
      case Meta(_, _, action) =>
        code := ActionNotSet;
        var d := vt.fallback;
        if action in vt.delegates && (vt.delegates[action].patch || vt.delegates[action].action) {
          d := vt.delegates[action];
        }
        if d.patch {
          var payload;
          code, payload := RunCallback(log);
          out := log.(payload := payload);
          if code != Ok { return; }
        }
        if d.action {
          var ret, _ := RunCallback(out);
          code := ret;
        }
    }

    /** Recompute the hashes from index `i` on, the first one from `seed`. */
    method RehashTail(i: nat, seed: Hash)
      requires i <= |logs|
      modifies this`logs
      ensures logs == old(logs)[..i] + Rehash(vt.next, seed, old(logs)[i..])
    {
      var hash, fix := seed, i;
      ghost var base := logs;
      assert logs == Rehashed(vt.next, seed, base, i, i);
      while fix < |logs|
        invariant i <= fix <= |base| && logs == Rehashed(vt.next, seed, base, i, fix)
        invariant hash == if fix == i then seed else logs[fix - 1].hash
      {
        RehashOneMore(vt.next, seed, base, i, fix, hash);
        hash := vt.next(hash, logs[fix].key, logs[fix].body);
        logs := logs[fix := logs[fix].(hash := hash)];
        fix := fix + 1;
      }
      assert base[i..fix] == base[i..];
    }

    method StoreAt(i: nat, log: Log)
      requires Valid() && inAction && !running
      requires i <= |logs| && Ordered(vt, Insert(vt, logs, i, log))
      modifies this
      ensures Valid() && inAction && !running
      ensures State() == Store(vt, old(State()), i, log)
      decreases 2
    {
      if vt.setHash && vt.getHash && vt.calcHash {
        // Update the hash codes after a hole log.
        RehashTail(i, log.hash);
      }
      added := added + [log];
      logs := logs[..i] + [log] + logs[i..];
      assert logs == Insert(vt, old(logs), i, log);
      if vt.onAdded {
        var _, _ := RunCallback(log);
      }
    }

    /** Give a log the hash that follows the log before index `i`. */
    method SealAt(i: nat, log: Log) returns (sealed: Log)
      requires i <= |logs|
      ensures sealed == Seal(vt, logs, i, log)
    {
      sealed := log;
      if vt.setHash && vt.getHash && vt.calcHash {
        var hash := INITIAL_HASH;
        if i != 0 { hash := logs[i - 1].hash; }
        sealed := log.(hash := vt.next(hash, log.key, log.body));
      }
    }

    /** Append a log known to go to the end. */
    method PushBackInternalUncheck(log: Log) returns (code: Code)
      requires Valid() && inAction && !running
      requires FirstAtLeast(logs, log.key) == |logs|
      modifies this
      ensures Valid() && inAction && !running
      ensures (State(), code) == Apply(vt, conf, old(State()), log)
      decreases 3
    {
      ghost var i := |logs|;
      var log' := SealAt(|logs|, log);
      code, log' := RedoLog(log');
      if code != Ok && !(conf.accept && vt.setHash && vt.getHash && vt.calcHash) { return; }
      InsertOrdered(vt, logs, i, log, log');
      AppendIsInsert(vt, logs, log');
      added := added + [log'];
      logs := logs + [log'];
      if vt.onAdded {
        var _, _ := RunCallback(log');
      }
    }

    /** Append, merge or insert one log. */
    method PushBackInternal(log: Log) returns (code: Code)
      requires Valid() && inAction && !running
      modifies this
      ensures Valid() && inAction && !running
      ensures (State(), code) == PushOne(vt, conf, old(State()), log)
      decreases 4
    {
      applied := applied + [log];
      if logs == [] || logs[|logs| - 1].key < log.key {
        FirstAtLeastUnique(logs, log.key, |logs|);
        code := PushBackInternalUncheck(log);
        return;
      }

      var i := StdLowerBound(log.key);
      if i != |logs| && !(logs[i].key < log.key) && !(log.key < logs[i].key) {
        if vt.merge.Some? {
          logs := logs[i := logs[i].(payload := vt.merge.value(logs[i], log))];
        }
        return Merge;
      }
      code := InsertHole(i, log);
    }

    /** Insert a log below the last one, whose key is not held, at its place `i`. */
    method InsertHole(i: nat, log: Log) returns (code: Code)
      requires Valid() && inAction && !running
      requires i == FirstAtLeast(logs, log.key) && !Holds(logs, log.key)
      modifies this
      ensures Valid() && inAction && !running
      ensures (State(), code) == Apply(vt, conf, old(State()), log)
      decreases 3
    {
      var log' := SealAt(i, log);
      code, log' := RedoLog(log');
      if code != Ok && !(conf.accept && vt.setHash && vt.getHash && vt.calcHash) { return; }
      // The callbacks only queued pushes, so `i` still is the place of the log.
      assert logs == old(logs);
      InsertOrdered(vt, logs, i, log, log');
      StoreAt(i, log');
    }

    method PopFrontInternal()
      requires Valid()
      modifies this
      ensures Valid() && inAction == old(inAction) && running == old(running)
      ensures State() == if old(logs) == [] then old(State()) else PopMany(old(State()), 1)
    {
      if logs == [] { return; }
      var log := logs[0];
      logs := logs[1..];
      popped := popped + [log];
      if !(removed.Some? && log.key < removed.value) {
        removed := Some(log.key);
      }
    }

    // -------------------------------------------------------------- collecting

    /** Whether the oldest log may be collected now. */
    method HeadCollectable(now: int, hold: Option<Key>) returns (yes: bool)
      ensures yes == (logs != [] && Collectable(vt, conf, now, hold, |logs|, logs[0]))
    {
      var expire, maxSize, gcSize := DEFAULT_EXPIRE, DEFAULT_MAX_SIZE, DEFAULT_GC_SIZE;
      if conf.gcSize > 0 { gcSize := conf.gcSize; }
      if conf.maxSize > 0 { maxSize := conf.maxSize; }
      if conf.expire > 0 { expire := conf.expire; }
      if logs == [] || |logs| <= gcSize { return false; }
      if |logs| > maxSize { return true; }
      match vt.meta(logs[0].key, logs[0].body)
      case Meta(time, key, _) => yes := time + expire <= now && !(hold.Some? && hold.value < key);
      case _ => yes := true;
    }

    /** Remove expired logs from the front, never one above `hold`. */
    method CollectExpired(now: int, hold: Option<Key>, limit: nat) returns (count: nat)
      requires Idle()
      modifies this
      ensures Idle()
      ensures State() == Gc(vt, conf, old(State()), now, hold, limit)
      ensures count == |old(logs)| - |logs|
    {
      count := 0;
      ghost var s0 := State();
      while count < limit
        invariant Idle() && count <= |s0.logs| && count <= limit && State() == PopMany(s0, count)
        invariant logs == s0.logs[count..]
        invariant forall i :: 0 <= i < count ==> Collectable(vt, conf, now, hold, |s0.logs| - i, s0.logs[i])
      {
        var more := HeadCollectable(now, hold);
        if !more { break; }
        PopManyOneMore(s0, count);
        PopFrontInternal();
        count := count + 1;
      }
      GcCountUnique(vt, conf, now, hold, s0.logs, limit, count);
    }

    // -------------------------------------------------------------- searching

    /** std::lower_bound over the keys. */
    method StdLowerBound(key: Key) returns (i: nat)
      requires Sorted(logs)
      ensures i == FirstAtLeast(logs, key)
    {
      var lo, hi := 0, |logs|;
      while lo < hi
        invariant 0 <= lo <= hi <= |logs|
        invariant forall j :: 0 <= j < lo ==> logs[j].key < key
        invariant hi < |logs| ==> key <= logs[hi].key
      {
        var mid := lo + (hi - lo) / 2;
        if logs[mid].key < key { lo := mid + 1; } else { hi := mid; }
      }
      FirstAtLeastUnique(logs, key, lo);
      i := lo;
    }

    /** std::upper_bound over the keys. */
    method StdUpperBound(key: Key) returns (i: nat)
      requires Sorted(logs)
      ensures i == FirstAbove(logs, key)
    {
      var lo, hi := 0, |logs|;
      while lo < hi
        invariant 0 <= lo <= hi <= |logs|
        invariant forall j :: 0 <= j < lo ==> logs[j].key <= key
        invariant hi < |logs| ==> key < logs[hi].key
      {
        var mid := lo + (hi - lo) / 2;
        if key < logs[mid].key { hi := mid; } else { lo := mid + 1; }
      }
      FirstAboveUnique(logs, key, lo);
      i := lo;
    }

    method LogLowerBound(key: Key) returns (i: nat)
      requires Sorted(logs)
      ensures i == FirstAtLeast(logs, key)
    {
      if logs == [] { return 0; }
      if logs[|logs| - 1].key < key {
        FirstAtLeastUnique(logs, key, |logs|);
        return |logs|;
      }
      i := StdLowerBound(key);
    }

    method LogUpperBound(key: Key) returns (i: nat)
      requires Sorted(logs)
      ensures i == FirstAbove(logs, key)
    {
      if logs == [] { return 0; }
      if !(key < logs[|logs| - 1].key) {
        FirstAboveUnique(logs, key, |logs|);
        return |logs|;
      }
      i := StdUpperBound(key);
    }

    /** The log with this key, if it is held. */
    method FindLog(key: Key) returns (found: Option<Log>)
      requires Sorted(logs)
      ensures found.Some? ==> found.value in logs && found.value.key == key
      ensures found.None? ==> forall l :: l in logs ==> l.key != key
    {
      var i := LogLowerBound(key);
      if i == |logs| { return None; }
      if !(key < logs[i].key) && !(logs[i].key < key) { return Some(logs[i]); }
      return None;
    }

    /** The hash of the greatest key below `key`, or the initial hash code. */
    method GetHashCodeBefore(key: Key) returns (hash: Hash)
      requires Sorted(logs)
      ensures hash == if vt.getHash then HashBefore(logs, FirstAtLeast(logs, key)) else INITIAL_HASH
    {
      if logs == [] { return INITIAL_HASH; }
      if !vt.getHash { return INITIAL_HASH; }
      if logs[|logs| - 1].key < key {
        FirstAtLeastUnique(logs, key, |logs|);
        return logs[|logs| - 1].hash;
      }
      var i := LogLowerBound(key);
      if i == 0 { return INITIAL_HASH; }
      return logs[i - 1].hash;
    }

    // -------------------------------------------------------------- settings

    method SetIgnoreKey(key: Key)
      requires Idle()
      modifies this
      ensures Idle() && State() == old(State()).(ignore := Some(key))
    {
      ignore := Some(key);
    }

    /** Replace all logs by whatever is given; no action callback runs. The log is in order again
        exactly if the given logs are. */
    method AssignLogs(source: seq<Log>)
      requires vt.Settles() && !inAction && !running && pending == []
      modifies this
      ensures State() == old(State()).(logs := source) && inAction == old(inAction) && running == old(running)
      ensures Idle() <==> Ordered(vt, source)
    {
      logs := source;
    }
  }

  /** Applying the head of the queue while it is still queued and then taking it out is applying it
      taken out, and brings the end of the drain nearer. */
  lemma DrainOne(vt: VTable, conf: Configure, s: Core)
    requires vt.Settles() && s.pending != []
    ensures var r := PushOne(vt, conf, s, s.pending[0]).0;
            && r.pending != [] && r.ignore == s.ignore && s.calls <= r.calls
            && r.(pending := r.pending[1..]) == PushOne(vt, conf, s.(pending := s.pending[1..]), s.pending[0]).0
            && (r.calls == s.calls || vt.quiet <= s.calls ==> r.pending == s.pending)
  {
    var rest := s.(pending := s.pending[1..]);
    PushOneQueues(vt, conf, s, s.pending[0]);
    PushOneQueues(vt, conf, rest, s.pending[0]);
    PushOneSettles(vt, conf, s, s.pending[0]);
    PushOneSettles(vt, conf, rest, s.pending[0]);
  }

  /** A run re-hashed from index `i` up to `fix`, the rest still as it was. */
  ghost function Rehashed(next: Hasher, seed: Hash, base: seq<Log>, i: nat, fix: nat): (r: seq<Log>)
    requires i <= fix <= |base|
    ensures |r| == |base|
  {
    base[..i] + Rehash(next, seed, base[i..fix]) + base[fix..]
  }

  lemma RehashOneMore(next: Hasher, seed: Hash, base: seq<Log>, i: nat, fix: nat, last: Hash)
    requires i <= fix < |base|
    requires last == if fix == i then seed else Rehashed(next, seed, base, i, fix)[fix - 1].hash
    ensures var logs := Rehashed(next, seed, base, i, fix);
            && logs[fix] == base[fix]
            && logs[fix := logs[fix].(hash := next(last, logs[fix].key, logs[fix].body))]
              == Rehashed(next, seed, base, i, fix + 1)
  {
    var x := base[fix];
    var done := Rehash(next, seed, base[i..fix]);
    var y := x.(hash := next(LastHash(seed, done), x.key, x.body));
    assert Rehash(next, seed, base[i..fix + 1]) == done + [y] by {
      RehashSnoc(next, seed, base[i..fix], x);
      assert base[i..fix + 1] == base[i..fix] + [x];
    }
    assert base[fix..] == [x] + base[fix + 1..];
    UpdateMiddle(base[..i], done, x, base[fix + 1..], y);
  }

  lemma UpdateMiddle(a: seq<Log>, b: seq<Log>, x: Log, c: seq<Log>, y: Log)
    ensures var s := a + b + ([x] + c);
            && s[|a| + |b|] == x && s[|a| + |b| := y] == a + (b + [y]) + c
            && (b != [] ==> s[|a| + |b| - 1] == b[|b| - 1])
  {}

  /** Removing one log after `n` is removing `n + 1`. */
  lemma PopManyOneMore(s: Core, n: nat)
    requires n < |s.logs| && Sorted(s.logs)
    ensures PopMany(PopMany(s, n), 1) == PopMany(s, n + 1)
  {
    assert s.logs[n..][1..] == s.logs[n + 1..];
    assert s.popped + s.logs[..n] + s.logs[n..][..1] == s.popped + s.logs[..n + 1];
    assert s.logs[..0] == [];
  }
}
