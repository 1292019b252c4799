/** `wal_client` (include/distributed_system/wal_client.h): a client as a class over a `Wal`, whose
    methods refine the functions of `WalReception`. */
module WalClient {
  import opened Wrappers
  import opened WalCommon
  import opened WalChain
  import opened WalSpec
  import opened WalObject
  import R = WalReception

  class Client {
    const wal: Wal
    const needSnapshot: bool
    const interval: int
    const retryInterval: int
    // Whether the n-th subscribe request succeeds; without the callback no request is sent.
    const request: Option<nat -> bool>

    var finished: Option<Key>
    var gotSnapshot: bool
    var nextHeartbeat: int
    var requests: nat

    // The keys that got through the guard of ReceiveLog.
    ghost var passed: seq<Key>

    ghost function State(): R.Client
      reads this, wal
    {
      R.Client(wal.State(), finished, gotSnapshot, passed)
    }

    ghost function Setup(): R.Setup {
      R.Setup(wal.vt, wal.conf, needSnapshot)
    }

    constructor (vt: VTable, conf: Configure, needSnapshot: bool, now: int,
                 interval: int, retryInterval: int, request: Option<nat -> bool>)
      requires vt.Settles()
      ensures fresh(wal) && wal.vt == vt && wal.conf == conf && wal.Idle() && State() == R.FRESH
      ensures this.needSnapshot == needSnapshot && nextHeartbeat == now && requests == 0
      ensures this.interval == interval && this.retryInterval == retryInterval && this.request == request
    {
      wal := new Wal(vt, conf);
      this.needSnapshot, this.interval, this.retryInterval, this.request :=
        needSnapshot, interval, retryInterval, request;
      finished, gotSnapshot, nextHeartbeat, requests, passed := None, false, now, 0, [];
    }

    /** Whether a received log fails the hash check. */
    method Mismatches(log: Log) returns (yes: bool)
      requires Sorted(wal.logs)
      ensures yes == !R.HashMatches(wal.vt, wal.logs, log)
    {
      yes := false;
      if wal.vt.setHash && wal.vt.getHash && wal.vt.calcHash {
        var before := wal.GetHashCodeBefore(log.key);
        yes := ValidHash(before) && wal.vt.next(before, log.key, log.body) != log.hash;
      }
    }

    method SetLastFinishedLogKey(key: Key)
      modifies this`finished
      ensures finished == Some(key)
    {
      finished := Some(key);
    }

    /** Receive a log that is assumed to leave no hole; `None` is the null pointer. From inside a callback the
        log is queued. */
    method ReceiveLog(log: Option<Log>) returns (code: Code)
      requires wal.Valid()
      requires !wal.inAction ==> wal.Idle()
      requires !wal.inAction && log.Some? && R.Admits(Setup(), State(), log.value) ==>
                 Returns(wal.vt, wal.conf, wal.State(), log.value)
      modifies this`finished, this`passed, wal
      ensures wal.Valid() && wal.inAction == old(wal.inAction) && wal.running == old(wal.running)
      ensures !wal.inAction ==> wal.Idle()
      ensures log.None? ==> code == InvalidParam && State() == old(State())
      ensures log.Some? && !wal.inAction ==> (State(), code) == R.ReceiveLog(Setup(), old(State()), log.value)
      ensures log.Some? && wal.inAction ==> (State(), code) == R.ReceiveInside(Setup(), old(State()), log.value)
    {
      if log.None? { return InvalidParam; }
      if needSnapshot && !gotSnapshot { return ClientRequireSnapshot; }
      var bad := Mismatches(log.value);
      if bad { return HashCodeMismatch; }
      if finished.Some? && !(finished.value < log.value.key) { return Ignore; }
      SetLastFinishedLogKey(log.value.key);
      passed := passed + [log.value.key];
      code := wal.EmplaceBack(log);
    }

    /** Receive a log that may fill a hole. */
    method ReceiveHoleLog(log: Option<Log>) returns (code: Code)
      requires wal.Valid()
      requires !wal.inAction ==> wal.Idle()
      requires !wal.inAction && log.Some? && R.AdmitsHole(Setup(), State(), log.value) ==>
                 Returns(wal.vt, wal.conf, wal.State(), log.value)
      modifies this`finished, wal
      ensures wal.Valid() && wal.inAction == old(wal.inAction) && wal.running == old(wal.running)
      ensures !wal.inAction ==> wal.Idle()
      ensures log.None? ==> code == InvalidParam && State() == old(State())
      ensures log.Some? && !wal.inAction ==> (State(), code) == R.ReceiveHoleLog(Setup(), old(State()), log.value)
      ensures log.Some? && wal.inAction ==> (State(), code) == R.ReceiveHoleInside(Setup(), old(State()), log.value)
    {
      if log.None? { return InvalidParam; }
      if needSnapshot && !gotSnapshot { return ClientRequireSnapshot; }
      var bad := Mismatches(log.value);
      if bad { return HashCodeMismatch; }
      if !(finished.Some? && !(finished.value < log.value.key)) {
        SetLastFinishedLogKey(log.value.key);
      }
      code := wal.EmplaceBack(log);
    }

    /** Assign logs; the assign event moves the last-finished key up to the last of them. */
    method AssignLogs(source: seq<Log>)
      requires wal.vt.Settles() && !wal.inAction && !wal.running && wal.pending == []
      modifies this`finished, wal
      ensures State() == R.AssignLogs(old(State()), source)
      ensures wal.Idle() <==> Ordered(wal.vt, source)
    {
      wal.AssignLogs(source);
      if wal.logs != [] {
        var key := wal.logs[|wal.logs| - 1].key;
        if finished.None? {
          SetLastFinishedLogKey(key);
        } else if finished.value < key {
          SetLastFinishedLogKey(key);
        }
      }
    }

    /** Receive a snapshot; `verdict` is what the user's callback returns for it. */
    method ReceiveSnapshot(verdict: Code) returns (code: Code)
      modifies this`gotSnapshot
      ensures code == verdict
      ensures State() == old(State()).(gotSnapshot := old(gotSnapshot) || verdict in {Ok, Ignore, Pending, Merge})
    {
      code := verdict;
      if AtLeastOk(code) { gotSnapshot := true; }
    }

    ghost predicate Due(now: int)
      reads this`nextHeartbeat
    {
      now >= nextHeartbeat
    }

    /** When the heartbeat after one at `now` is due, if its request is the n-th. */
    function NextHeartbeat(now: int, n: nat): (t: int)
      ensures now < t
    {
      var wait := if request.Some? && !request.value(n) then retryInterval else interval;
      if now + wait <= now then now + DEFAULT_INTERVAL else now + wait
    }

    /** The heartbeat's part in what a stretch of ticking did: one request and a new due time if it was
        due at the start, nothing otherwise. */
    twostate predicate Beaten(now: int)
      reads this`nextHeartbeat, this`requests
    {
      if old(Due(now)) then
        && nextHeartbeat == NextHeartbeat(now, old(requests))
        && requests == old(requests) + if request.Some? then 1 else 0
      else nextHeartbeat == old(nextHeartbeat) && requests == old(requests)
    }

    /** Collect expired logs and send a due heartbeat until nothing is left to do or the event budget
        is spent. A tick always ends, with exactly one heartbeat if one was due, and removes from the front
        only what may be collected. */
    method Tick(now: int, maxEvent: nat) returns (count: nat)
      requires wal.Idle()
      modifies this`nextHeartbeat, this`requests, wal
      ensures wal.Idle() && finished == old(finished)
      ensures Collected(wal.vt, wal.conf, now, old(wal.State()), wal.State())
      ensures Beaten(now) && now < nextHeartbeat
      ensures count == |old(wal.logs)| - |wal.logs| + if old(Due(now)) then 1 else 0
      ensures count < (if maxEvent == 0 then SIZE_MAX else maxEvent) ==>
                GcCount(wal.vt, wal.conf, now, None, wal.logs, 1) == 0
    {
      var budget := if maxEvent == 0 then SIZE_MAX else maxEvent;
      var hasEvent := true;
      count := 0;
      ghost var first := true;
      CollectedNothing(wal.vt, wal.conf, now, wal.State());
      while count < budget && hasEvent
        invariant wal.Idle() && Collected(wal.vt, wal.conf, now, old(wal.State()), wal.State())
        invariant first ==> count == 0 && hasEvent && wal.logs == old(wal.logs)
        invariant first ==> nextHeartbeat == old(nextHeartbeat) && requests == old(requests)
        invariant !first ==> Beaten(now) && now < nextHeartbeat
        invariant !first ==> count == |old(wal.logs)| - |wal.logs| + if old(Due(now)) then 1 else 0
        invariant !hasEvent ==> GcCount(wal.vt, wal.conf, now, None, wal.logs, 1) == 0
        decreases |wal.logs|, now >= nextHeartbeat, hasEvent
      {
        hide Ordered;
        ghost var before := wal.State();
        var events := TickRound(now, if budget > 16 then budget / 16 else budget);
        CollectedTwice(wal.vt, wal.conf, now, old(wal.State()), before, wal.State());
        hasEvent := events > 0;
        count := count + events;
        first := false;
      }
    }

    /** One turn of the loop of Tick: what can be collected within the round, then the heartbeat if it
        is due. */
    method TickRound(now: int, round: nat) returns (count: nat)
      requires wal.Idle() && round > 0
      modifies this`nextHeartbeat, this`requests, wal
      ensures wal.Idle() && Collected(wal.vt, wal.conf, now, old(wal.State()), wal.State())
      ensures Beaten(now) && now < nextHeartbeat
      ensures count == |old(wal.logs)| - |wal.logs| + if old(Due(now)) then 1 else 0
      ensures count == 0 ==> GcCount(wal.vt, wal.conf, now, None, wal.logs, 1) == 0
    {
      ghost var before := wal.State();
      count := wal.CollectExpired(now, None, round);
      NothingCollectable(wal.vt, wal.conf, before, now, round);
      if now >= nextHeartbeat {
        Heartbeat(now);
        count := count + 1;
      }
    }

    /** Send the subscribe request that is due and arm the next one. */
    method Heartbeat(now: int)
      modifies this`nextHeartbeat, this`requests
      ensures nextHeartbeat == NextHeartbeat(now, old(requests))
      ensures var wait := if request.Some? && !request.value(old(requests)) then retryInterval else interval;
              nextHeartbeat == now + if 0 < wait then wait else 180_000_000_000
      ensures requests == old(requests) + if request.Some? then 1 else 0
    {
      if request.Some? {
        var ok := request.value(requests);
        requests := requests + 1;
        if ok { nextHeartbeat := now + interval; } else { nextHeartbeat := now + retryInterval; }
      } else {
        nextHeartbeat := now + interval;
      }
      if nextHeartbeat <= now { nextHeartbeat := now + DEFAULT_INTERVAL; }
    }
  }

  /** From `a` to `b` logs were removed from the front, each when it was due for collection, and nothing else
      changed. */
  ghost predicate Collected(vt: VTable, conf: Configure, now: int, a: Core, b: Core) {
    var n := |a.logs| - |b.logs|;
    && 0 <= n && b == PopMany(a, n)
    && forall i :: 0 <= i < n ==> Collectable(vt, conf, now, None, |a.logs| - i, a.logs[i])
  }

  lemma CollectedNothing(vt: VTable, conf: Configure, now: int, s: Core)
    ensures Collected(vt, conf, now, s, s)
  {}

  lemma CollectedTwice(vt: VTable, conf: Configure, now: int, a: Core, b: Core, c: Core)
    requires Collected(vt, conf, now, a, b) && Collected(vt, conf, now, b, c) && Sorted(a.logs)
    ensures Collected(vt, conf, now, a, c)
  {
    hide Collectable, Sorted;
    var m, n := |a.logs| - |b.logs|, |b.logs| - |c.logs|;
    PopTwice(a, m, n);
    assert b.logs == a.logs[m..];
    DueTwice(vt, conf, now, a.logs, m, n);
  }

  lemma DueTwice(vt: VTable, conf: Configure, now: int, logs: seq<Log>, m: nat, n: nat)
    requires m + n <= |logs|
    requires forall i :: 0 <= i < m ==> Collectable(vt, conf, now, None, |logs| - i, logs[i])
    requires forall i :: 0 <= i < n ==> Collectable(vt, conf, now, None, |logs| - m - i, logs[m..][i])
    ensures forall i :: 0 <= i < m + n ==> Collectable(vt, conf, now, None, |logs| - i, logs[i])
  {
    hide Collectable;
    forall i | m <= i < m + n ensures Collectable(vt, conf, now, None, |logs| - i, logs[i]) {
      assert logs[m..][i - m] == logs[i] && |logs| - m - (i - m) == |logs| - i;
    }
  }

  lemma PopTwice(s: Core, m: nat, n: nat)
    requires m + n <= |s.logs| && Sorted(s.logs)
    ensures PopMany(PopMany(s, m), n) == PopMany(s, m + n)
  {
    if 0 < m && 0 < n {
      assert s.logs[m..][n..] == s.logs[m + n..];
      assert s.popped + s.logs[..m] + s.logs[m..][..n] == s.popped + s.logs[..m + n];
    }
  }

  /** A collection that removes nothing within a positive limit had nothing to remove. */
  lemma NothingCollectable(vt: VTable, conf: Configure, s: Core, now: int, limit: nat)
    requires limit > 0
    ensures var after := Gc(vt, conf, s, now, None, limit);
            Collected(vt, conf, now, s, after) &&
            (|after.logs| == |s.logs| ==> GcCount(vt, conf, now, None, s.logs, 1) == 0)
  {
    var n := GcCount(vt, conf, now, None, s.logs, limit);
    assert |PopMany(s, n).logs| == |s.logs| - n;
  }

  /** Three minutes in nanosecond ticks. */
  const DEFAULT_INTERVAL := 3 * 60 * 1_000_000_000
}
