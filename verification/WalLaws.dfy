/** What one push, one collection and one received log do, told from the callbacks, the settings and the logs
    alone. The functions of `WalSpec` and `WalReception` that compute these are not mentioned here, except for
    the push as a whole. */
module WalLaws {
  import opened Wrappers
  import opened WalCommon
  import opened WalChain
  import opened WalSpec
  import P = WalPublication
  import C = WalReception

  // ---------------------------------------------------------------- one push

  /** Key `k` is not held and belongs at place `i`. */
  ghost predicate Between(logs: seq<Log>, k: Key, i: nat) {
    && i <= |logs|
    && (forall j :: 0 <= j < i ==> logs[j].key < k) && (forall j :: i <= j < |logs| ==> k < logs[j].key)
  }

  /** The log the callbacks are given: with the hash that follows the log before it, if there are hashes. */
  function Given(vt: VTable, logs: seq<Log>, i: nat, m: Log): Log
    requires i <= |logs|
  {
    if vt.setHash && vt.getHash && vt.calcHash
    then m.(hash := vt.next(if i == 0 then 0 else logs[i - 1].hash, m.key, m.body)) else m
  }

  /** The callback group that serves a log with this action case. */
  ghost predicate Serves(vt: VTable, action: int, d: Delegate) {
    d == if action in vt.delegates && (vt.delegates[action].patch || vt.delegates[action].action)
         then vt.delegates[action] else vt.fallback
  }

  /** How a push ends whose callbacks left the log as `x`, pushed `made` and brought the invocations to
      `calls`. The log is kept if they succeeded, or anyway if the configuration accepts logs and all hash
      callbacks are set. A kept log takes its place, and on_log_added runs on it if it is set; nothing else
      changes but the hashes behind it. */
  ghost predicate Ends(vt: VTable, conf: Configure, s: Core, m: Log, i: nat, good: bool,
                       x: Log, calls: nat, made: seq<Log>, r: Core)
    requires i <= |s.logs|
  {
    var kept := good || (conf.accept && vt.setHash && vt.getHash && vt.calcHash);
    var told := if kept && vt.onAdded then vt.callback(calls, x).pushes else [];
    && r.applied == s.applied + [m] && r.popped == s.popped && r.removed == s.removed && r.ignore == s.ignore
    && r.calls == calls + (if kept && vt.onAdded then 1 else 0)
    && r.pending == s.pending + made + told && r.queued == s.queued + made + told
    && r.added == s.added + (if kept then [x] else [])
    && (if kept then Placed(s.logs, i, x, r.logs) else r.logs == s.logs)
  }

  ghost predicate Placed(before: seq<Log>, i: nat, x: Log, after: seq<Log>) {
    && i <= |before| && |after| == |before| + 1 && after[..i] == before[..i] && after[i] == x
    && forall j :: i <= j < |before| ==> after[j + 1] == before[j].(hash := after[j + 1].hash)
  }

  lemma SealedAsGiven(vt: VTable, s: Core, m: Log, i: nat)
    requires Between(s.logs, m.key, i)
    ensures FirstAtLeast(s.logs, m.key) == i && !Holds(s.logs, m.key)
    ensures Seal(vt, s.logs, i, m) == Given(vt, s.logs, i, m)
  {
    FirstAtLeastUnique(s.logs, m.key, i);
  }

  lemma StoreEnds(vt: VTable, conf: Configure, s: Core, m: Log, i: nat, run: Redone)
    requires i <= |s.logs|
    ensures var acted := Enqueue(s.(applied := s.applied + [m]), run.calls, run.pushes);
            Ends(vt, conf, s, m, i, run.code == Ok, run.log, run.calls, run.pushes,
                 if Accepts(vt, conf, run.code) then Store(vt, acted, i, run.log) else acted)
  {
    hide Insert, Redo;
    InsertKeepsOthers(vt, s.logs, i, run.log);
    assert s.pending + run.pushes + [] == s.pending + run.pushes && s.queued + run.pushes + [] == s.queued + run.pushes;
    assert s.added + [] == s.added;
  }

  /** From what the callbacks did to how the push ends. */
  lemma PushEnds(vt: VTable, conf: Configure, s: Core, m: Log, i: nat)
    requires Between(s.logs, m.key, i)
    ensures var run := Redo(vt, s.calls, Given(vt, s.logs, i, m));
            var (r, code) := PushOne(vt, conf, s, m);
            && code == run.code
            && Ends(vt, conf, s, m, i, run.code == Ok, run.log, run.calls, run.pushes, r)
  {
    hide Insert, Redo, Ends, Store, Seal, Holds, Enqueue, Accepts;
    SealedAsGiven(vt, s, m, i);
    StoreEnds(vt, conf, s, m, i, Redo(vt, s.calls, Given(vt, s.logs, i, m)));
  }

  /** A log without readable meta data runs no callback; the error is the result, or a callback error if there is
      nothing at all. */
  lemma MetaFails(vt: VTable, conf: Configure, s: Core, m: Log, i: nat)
    requires Between(s.logs, m.key, i) && !vt.meta(m.key, m.body).Meta?
    ensures var (r, code) := PushOne(vt, conf, s, m); var meta := vt.meta(m.key, m.body);
            && code == (if meta.MetaError? then meta.code else CallbackError)
            && Ends(vt, conf, s, m, i, code == Ok, Given(vt, s.logs, i, m), s.calls, [], r)
  {
    hide Ends;
    PushEnds(vt, conf, s, m, i);
  }

  /** A patch that fails is the last callback: its code is the result, and the action does not run. */
  lemma PatchFails(vt: VTable, conf: Configure, s: Core, m: Log, i: nat, d: Delegate)
    requires Between(s.logs, m.key, i) && vt.meta(m.key, m.body).Meta?
    requires Serves(vt, vt.meta(m.key, m.body).action, d) && d.patch
    requires vt.callback(s.calls, Given(vt, s.logs, i, m)).code != Ok
    ensures var given := Given(vt, s.logs, i, m); var patch := vt.callback(s.calls, given);
            var (r, code) := PushOne(vt, conf, s, m);
            && code == patch.code
            && Ends(vt, conf, s, m, i, false, given.(payload := patch.payload), s.calls + 1, patch.pushes, r)
  {
    hide Ends;
    PushEnds(vt, conf, s, m, i);
  }

  /** The action runs on what a successful patch left, and its code is the result; without an action that of the
      patch is. */
  lemma PatchSucceeds(vt: VTable, conf: Configure, s: Core, m: Log, i: nat, d: Delegate)
    requires Between(s.logs, m.key, i) && vt.meta(m.key, m.body).Meta?
    requires Serves(vt, vt.meta(m.key, m.body).action, d) && d.patch
    requires vt.callback(s.calls, Given(vt, s.logs, i, m)).code == Ok
    ensures var patch := vt.callback(s.calls, Given(vt, s.logs, i, m));
            var x := Given(vt, s.logs, i, m).(payload := patch.payload);
            var act := vt.callback(s.calls + 1, x);
            var (r, code) := PushOne(vt, conf, s, m);
            if d.action then
              code == act.code
              && Ends(vt, conf, s, m, i, act.code == Ok, x, s.calls + 2, patch.pushes + act.pushes, r)
            else code == Ok && Ends(vt, conf, s, m, i, true, x, s.calls + 1, patch.pushes, r)
  {
    hide Ends;
    PushEnds(vt, conf, s, m, i);
  }

  /** Without a patch the action runs on the log as it is; without either the result is that no action is set. */
  lemma NoPatch(vt: VTable, conf: Configure, s: Core, m: Log, i: nat, d: Delegate)
    requires Between(s.logs, m.key, i) && vt.meta(m.key, m.body).Meta?
    requires Serves(vt, vt.meta(m.key, m.body).action, d) && !d.patch
    ensures var x := Given(vt, s.logs, i, m); var act := vt.callback(s.calls, x);
            var (r, code) := PushOne(vt, conf, s, m);
            if d.action then
              code == act.code && Ends(vt, conf, s, m, i, act.code == Ok, x, s.calls + 1, act.pushes, r)
            else code == ActionNotSet && Ends(vt, conf, s, m, i, false, x, s.calls, [], r)
  {
    hide Ends;
    PushEnds(vt, conf, s, m, i);
  }

  /** A log whose key is held runs no callback but merge, which is given the held log first; the held log
      keeps key, body and hash. */
  lemma HeldMerges(vt: VTable, conf: Configure, s: Core, m: Log, i: nat)
    requires Sorted(s.logs) && i < |s.logs| && s.logs[i].key == m.key
    ensures var merged := if vt.merge.Some?
                          then s.logs[i := s.logs[i].(payload := vt.merge.value(s.logs[i], m))] else s.logs;
            PushOne(vt, conf, s, m) == (s.(logs := merged, applied := s.applied + [m]), Merge)
  {
    FirstAtLeastUnique(s.logs, m.key, i);
  }

  /** A push up to and including the ignore key applies nothing; any other is applied before all it sets off. */
  lemma IgnoredExactly(vt: VTable, conf: Configure, s: Core, m: Log)
    requires vt.Settles() && s.pending == []
    ensures var (r, code) := Emplace(vt, conf, s, m);
            if s.ignore.Some? && m.key <= s.ignore.value then
              code == Ignore && r.applied == s.applied && r.added == s.added && r.calls == s.calls
              && r.queued == s.queued
            else code == PushOne(vt, conf, s, m).1 && s.applied + [m] <= r.applied
  {
    EmplaceFifo(vt, conf, s, m);
  }

  /** After a push the log holds the last `maxSize` of the logs it would hold without a limit, and the others are
      removed in order. */
  lemma TrimExactly(vt: VTable, conf: Configure, s: Core, m: Log)
    requires vt.Settles()
    ensures var r, free := Emplace(vt, conf, s, m).0, Emplace(vt, conf.(maxSize := 0), s, m).0;
            && |r.logs| == (if 0 < conf.maxSize < |free.logs| then conf.maxSize else |free.logs|)
            && free.logs == free.logs[..|free.logs| - |r.logs|] + r.logs
            && r.popped == free.popped + free.logs[..|free.logs| - |r.logs|]
            && r.added == free.added && r.applied == free.applied
  {
    hide PushOne;
    var open := conf.(maxSize := 0);
    var first := if Ignored(s, m) then s else PushOne(vt, conf, s, m).0;
    assert PushOne(vt, conf, s, m) == PushOne(vt, open, s, m) by { SizeUnused(vt, conf, s, m); }
    DrainSizeUnused(vt, conf, first);
    var drained := Drain(vt, conf, first);
    assert Emplace(vt, open, s, m).0 == drained;
    assert drained.logs[..0] == [] && drained.popped + [] == drained.popped;
  }

  lemma SizeUnused(vt: VTable, conf: Configure, s: Core, m: Log)
    ensures PushOne(vt, conf, s, m) == PushOne(vt, conf.(maxSize := 0), s, m)
  {
    hide Insert, Redo;
  }

  lemma {:induction false} DrainSizeUnused(vt: VTable, conf: Configure, s: Core)
    requires vt.Settles()
    ensures Drain(vt, conf, s) == Drain(vt, conf.(maxSize := 0), s)
    decreases if s.calls < vt.quiet then vt.quiet - s.calls else 0, |s.pending|
  {
    hide PushOne;
    if s.pending != [] {
      var rest := s.(pending := s.pending[1..]);
      PushOneSettles(vt, conf, rest, s.pending[0]);
      SizeUnused(vt, conf, rest, s.pending[0]);
      DrainSizeUnused(vt, conf, PushOne(vt, conf, rest, s.pending[0]).0);
    }
  }

  // ---------------------------------------------------------------- removal

  /** The last-removed key is the greatest key removed so far. */
  ghost predicate RemovedIsGreatest(s: Core) {
    && (s.removed.None? <==> s.popped == [])
    && (s.removed.Some? ==>
          && (exists l :: l in s.popped && l.key == s.removed.value)
          && (forall l :: l in s.popped ==> l.key <= s.removed.value))
  }

  lemma PopGreatest(s: Core, n: nat)
    requires Sorted(s.logs) && n <= |s.logs| && RemovedIsGreatest(s)
    ensures RemovedIsGreatest(PopMany(s, n))
  {
    if n > 0 {
      var r, last := PopMany(s, n), s.logs[n - 1];
      assert last == s.logs[..n][n - 1] && last in s.logs[..n];
      forall l | l in s.logs[..n] ensures l.key <= last.key {
        var j :| 0 <= j < n && s.logs[..n][j] == l;
      }
      assert forall l :: l in r.popped <==> l in s.popped || l in s.logs[..n];
      if s.removed.Some? && last.key < s.removed.value {
        var l :| l in s.popped && l.key == s.removed.value;
        assert l in r.popped;
      } else {
        assert last in r.popped;
      }
    }
  }

  lemma EmplaceGreatest(vt: VTable, conf: Configure, s: Core, m: Log)
    requires vt.Settles() && Ordered(vt, s.logs) && RemovedIsGreatest(s)
    ensures RemovedIsGreatest(Emplace(vt, conf, s, m).0)
  {
    var first := if Ignored(s, m) then s else PushOne(vt, conf, s, m).0;
    PushOneOrdered(vt, conf, s, m);
    PushOneBalance(vt, conf, s, m, 0);
    DrainOrdered(vt, conf, first);
    DrainRemoved(vt, conf, first);
    var drained := Drain(vt, conf, first);
    PopGreatest(drained, Excess(conf, drained));
  }

  /** Over any run of a publisher. */
  lemma {:induction false} RunRemoved(vt: VTable, conf: Configure, enableHole: bool, ops: seq<P.Op>)
    requires vt.Settles()
    ensures RemovedIsGreatest(P.Run(vt, conf, enableHole, ops).core)
  {
    if ops != [] {
      RunRemoved(vt, conf, enableHole, ops[..|ops| - 1]);
      var s := P.Run(vt, conf, enableHole, ops[..|ops| - 1]).core;
      match ops[|ops| - 1]
      case Push(log) => EmplaceGreatest(vt, conf, s, log);
      case Collect(now, hold, limit) => PopGreatest(s, GcCount(vt, conf, now, hold, s.logs, limit));
      case Broadcast(_) =>
      case IgnoreUpTo(_) =>
    }
  }

  /** With `size` logs left, this first one is due: the log is over its size limit, or nothing is known of the log,
      or it has expired and is not held. Without settings of its own a log starts to be collected above 128 logs,
      is over its limit above 512, and expires after seven days. */
  ghost predicate Due(vt: VTable, conf: Configure, now: int, hold: Option<Key>, size: nat, l: Log) {
    && (if conf.gcSize > 0 then conf.gcSize else 128) < size
    && (|| (if conf.maxSize > 0 then conf.maxSize else 512) < size
        || !vt.meta(l.key, l.body).Meta?
        || (&& vt.meta(l.key, l.body).time + (if conf.expire > 0 then conf.expire else 604_800_000_000_000) <= now
            && (hold.Some? ==> vt.meta(l.key, l.body).key <= hold.value)))
  }

  /** A collection removes a log if and only if it and all before it are due, within the limit. */
  lemma GcExactly(vt: VTable, conf: Configure, s: Core, now: int, hold: Option<Key>, limit: nat, i: nat)
    requires i < |s.logs|
    ensures var r := Gc(vt, conf, s, now, hold, limit);
            && |r.logs| <= |s.logs| && r.logs == s.logs[|s.logs| - |r.logs|..]
            && (i < |s.logs| - |r.logs| <==>
                  i < limit && forall j :: 0 <= j <= i ==> Due(vt, conf, now, hold, |s.logs| - j, s.logs[j]))
  {
    var n := GcCount(vt, conf, now, hold, s.logs, limit);
    assert PopMany(s, n).logs == s.logs[n..];
    forall j | 0 <= j < |s.logs|
      ensures Collectable(vt, conf, now, hold, |s.logs| - j, s.logs[j])
         <==> Due(vt, conf, now, hold, |s.logs| - j, s.logs[j])
    {}
    if i < n { assert forall j :: 0 <= j <= i ==> Due(vt, conf, now, hold, |s.logs| - j, s.logs[j]); }
    if n <= i && i < limit { assert !Due(vt, conf, now, hold, |s.logs| - n, s.logs[n]); }
  }

  // ---------------------------------------------------------------- one received log

  /** The hash the log before place `i` has, 0 if there is none. */
  function Before(logs: seq<Log>, i: nat): Hash
    requires i <= |logs|
  {
    if i == 0 then 0 else logs[i - 1].hash
  }

  /** The key belongs at place `i`, or is the key held there. */
  ghost predicate At(logs: seq<Log>, k: Key, i: nat) {
    && Sorted(logs) && i <= |logs| && (i > 0 ==> logs[i - 1].key < k)
    && forall j :: i <= j < |logs| ==> k <= logs[j].key
  }

  /** The log has another hash than the client computes for its place. */
  ghost predicate Contradicts(vt: VTable, logs: seq<Log>, i: nat, m: Log)
    requires i <= |logs|
  {
    && vt.setHash && vt.getHash && vt.calcHash
    && Before(logs, i) != 0 && m.hash != vt.next(Before(logs, i), m.key, m.body)
  }

  /** A received log is refused without a snapshot, else if it contradicts the log before its place, else if its key
      is finished; each refusal changes nothing and has its own code. Any other log is pushed, finished or not. */
  lemma ReceiveExactly(su: C.Setup, c: C.Client, m: Log, i: nat)
    requires su.vt.Settles() && At(c.core.logs, m.key, i)
    ensures var r := C.ReceiveLog(su, c, m);
            if su.needSnapshot && !c.gotSnapshot then r == (c, ClientRequireSnapshot)
            else if Contradicts(su.vt, c.core.logs, i, m) then r == (c, HashCodeMismatch)
            else if c.finished.Some? && m.key <= c.finished.value then r == (c, Ignore)
            else
              && (r.0.core, r.1) == Emplace(su.vt, su.conf, c.core, m)
              && r.0 == c.(core := r.0.core, finished := Some(m.key), passed := c.passed + [m.key])
  {
    FirstAtLeastUnique(c.core.logs, m.key, i);
  }

  /** A hole log is refused for want of a snapshot or for its hash, at whatever place it belongs, and else pushed;
      the last-finished key becomes the greater one. */
  lemma ReceiveHoleExactly(su: C.Setup, c: C.Client, m: Log, i: nat)
    requires su.vt.Settles() && At(c.core.logs, m.key, i)
    ensures var r := C.ReceiveHoleLog(su, c, m);
            if su.needSnapshot && !c.gotSnapshot then r == (c, ClientRequireSnapshot)
            else if Contradicts(su.vt, c.core.logs, i, m) then r == (c, HashCodeMismatch)
            else
              && (r.0.core, r.1) == Emplace(su.vt, su.conf, c.core, m)
              && r.0.gotSnapshot == c.gotSnapshot && r.0.passed == c.passed && r.0.finished.Some?
              && r.0.finished.value == if c.finished.Some? && m.key < c.finished.value then c.finished.value else m.key
  {
    FirstAtLeastUnique(c.core.logs, m.key, i);
  }

  /** Behind a log with a real hash, a log is refused for its hash if and only if it is not the one computed there. */
  lemma HashDecides(su: C.Setup, c: C.Client, m: Log, i: nat)
    requires su.vt.Settles() && su.vt.setHash && su.vt.getHash && su.vt.calcHash
    requires !(su.needSnapshot && !c.gotSnapshot) && c.core.pending == []
    requires At(c.core.logs, m.key, i) && 0 < i && c.core.logs[i - 1].hash != 0
    ensures C.ReceiveHoleLog(su, c, m) == (c, HashCodeMismatch)
       <==> m.hash != su.vt.next(c.core.logs[i - 1].hash, m.key, m.body)
    ensures C.ReceiveLog(su, c, m) == (c, HashCodeMismatch)
       <==> m.hash != su.vt.next(c.core.logs[i - 1].hash, m.key, m.body)
  {
    hide Emplace;
    ReceiveExactly(su, c, m, i);
    ReceiveHoleExactly(su, c, m, i);
    IgnoredExactly(su.vt, su.conf, c.core, m);
    assert Contradicts(su.vt, c.core.logs, i, m) <==> m.hash != su.vt.next(c.core.logs[i - 1].hash, m.key, m.body);
    var r, code := Emplace(su.vt, su.conf, c.core, m).0, Emplace(su.vt, su.conf, c.core, m).1;
    assert |c.core.applied + [m]| == |c.core.applied| + 1;
    assert !(r == c.core && code == HashCodeMismatch);
  }

  /** From inside a callback the same logs get through, and wait in the queue. */
  lemma ReceiveInsideExactly(su: C.Setup, c: C.Client, m: Log, i: nat)
    requires At(c.core.logs, m.key, i)
    ensures var r, h := C.ReceiveInside(su, c, m), C.ReceiveHoleInside(su, c, m);
            var waits := c.core.(pending := c.core.pending + [m], queued := c.core.queued + [m]);
            if su.needSnapshot && !c.gotSnapshot then r == h == (c, ClientRequireSnapshot)
            else if Contradicts(su.vt, c.core.logs, i, m) then r == h == (c, HashCodeMismatch)
            else
              && (if c.finished.Some? && m.key <= c.finished.value then r == (c, Ignore) && h.0.finished == c.finished
                  else r.0.finished == h.0.finished == Some(m.key) && r.0.core == waits && r.1 == Pending)
              && h.0.core == waits && h.1 == Pending
  {
    FirstAtLeastUnique(c.core.logs, m.key, i);
  }

  /** A client that needs a snapshot takes no log before one is accepted, unless logs are assigned. */
  lemma {:induction false} NothingBeforeSnapshot(su: C.Setup, ops: seq<C.Op>)
    requires su.vt.Settles() && su.needSnapshot
    requires forall op :: op in ops ==> !op.Assign? && op != C.ReceiveSnapshot(true)
    ensures C.Run(su, ops) == C.FRESH
  {
    if ops != [] {
      NothingBeforeSnapshot(su, ops[..|ops| - 1]);
      assert ops[|ops| - 1] in ops;
      assert GcCount(su.vt, su.conf, 0, None, [], 0) == 0;
    }
  }

  /** Assigning logs puts the last-finished key at the greater of the old one and the last assigned one. */
  lemma AssignExactly(c: C.Client, source: seq<Log>)
    ensures var r := C.AssignLogs(c, source);
            && r.core == c.core.(logs := source) && r.gotSnapshot == c.gotSnapshot && r.passed == c.passed
            && (source == [] ==> r.finished == c.finished)
            && (source != [] ==>
                  && r.finished.Some?
                  && (c.finished.None? ==> r.finished.value == source[|source| - 1].key)
                  && (c.finished.Some? ==>
                        && r.finished.value in {c.finished.value, source[|source| - 1].key}
                        && r.finished.value >= c.finished.value && r.finished.value >= source[|source| - 1].key))
  {}
}
