/** The write-ahead log as functions on values: what one push, the drain of queued pushes and the
    trimming of the front mean. `WalObject` refines these with loops and fields; the laws of the log
    are proved here, over all callbacks. */
module WalSpec {
  import opened Wrappers
  import opened WalCommon
  import opened WalChain

  /** The state of a `wal_object`, with its history: `added` lists every log it accepted, `popped`
      every log it removed, `applied` every log it tried to apply and `queued` every log pushed from
      inside a callback, each in order. */
  datatype Core = Core(
    logs: seq<Log>, pending: seq<Log>, removed: Option<Key>, ignore: Option<Key>, calls: nat,
    added: seq<Log>, popped: seq<Log>, applied: seq<Log>, queued: seq<Log>)

  /** What running the callbacks of one log leaves behind. */
  datatype Redone = Redone(code: Code, log: Log, calls: nat, pushes: seq<Log>)

  function RunDelegate(vt: VTable, d: Delegate, calls: nat, log: Log): (r: Redone)
    ensures r.log == log.(payload := r.log.payload)
    ensures calls <= r.calls && (r.calls == calls ==> r.pushes == [])
  {
    if d.patch then
      var patch := vt.callback(calls, log);
      var patched := log.(payload := patch.payload);
      if patch.code != Ok || !d.action then Redone(patch.code, patched, calls + 1, patch.pushes)
      else
        var action := vt.callback(calls + 1, patched);
        Redone(action.code, patched, calls + 2, patch.pushes + action.pushes)
    else if d.action then
      var action := vt.callback(calls, log);
      Redone(action.code, log, calls + 1, action.pushes)
    else Redone(ActionNotSet, log, calls, [])
  }

  /** The delegate group that serves an action case: the registered one if it has any callback. */
  function DelegateFor(vt: VTable, action: int): Delegate {
    if action in vt.delegates && (vt.delegates[action].patch || vt.delegates[action].action)
    then vt.delegates[action] else vt.fallback
  }

  function Redo(vt: VTable, calls: nat, log: Log): (r: Redone)
    ensures r.log == log.(payload := r.log.payload)
    ensures calls <= r.calls && (r.calls == calls ==> r.pushes == [])
  {
    match vt.meta(log.key, log.body)
    case MetaError(code) => Redone(code, log, calls, [])
    case MetaNone => Redone(CallbackError, log, calls, [])
    case Meta(_, _, action) => RunDelegate(vt, DelegateFor(vt, action), calls, log)
  }

  /** Pushes made by a callback wait in the queue. */
  function Enqueue(s: Core, calls: nat, pushes: seq<Log>): Core {
    s.(calls := calls, pending := s.pending + pushes, queued := s.queued + pushes)
  }

  /** A log that failed its action is still accepted if the log is hashed and configured so. */
  predicate Accepts(vt: VTable, conf: Configure, code: Code) {
    code == Ok || (conf.accept && vt.Hashed())
  }

  /** The log with the hash it gets at index `i`. */
  function Seal(vt: VTable, logs: seq<Log>, i: nat, log: Log): Log
    requires i <= |logs|
  {
    if vt.Hashed() then log.(hash := vt.next(HashBefore(logs, i), log.key, log.body)) else log
  }

  function Insert(vt: VTable, logs: seq<Log>, i: nat, log: Log): seq<Log>
    requires i <= |logs|
  {
    logs[..i] + [log] + if vt.Hashed() then Rehash(vt.next, log.hash, logs[i..]) else logs[i..]
  }

  predicate Holds(logs: seq<Log>, k: Key) {
    var i := FirstAtLeast(logs, k); i < |logs| && logs[i].key == k
  }

  function MergeInto(vt: VTable, logs: seq<Log>, log: Log): seq<Log>
    requires Holds(logs, log.key)
  {
    var i := FirstAtLeast(logs, log.key);
    if vt.merge.Some? then logs[i := logs[i].(payload := vt.merge.value(logs[i], log))] else logs
  }

  /** Apply one log: merge it, reject it, or insert it at its place and re-hash what follows. */
  function Apply(vt: VTable, conf: Configure, s: Core, log: Log): (r: (Core, Code))
    ensures s.calls <= r.0.calls
    ensures s.pending <= r.0.pending && (r.0.calls == s.calls ==> r.0.pending == s.pending)
  {
    if Holds(s.logs, log.key) then
      (s.(logs := MergeInto(vt, s.logs, log)), Merge)
    else
      var i := FirstAtLeast(s.logs, log.key);
      var run := Redo(vt, s.calls, Seal(vt, s.logs, i, log));
      var acted := Enqueue(s, run.calls, run.pushes);
      if Accepts(vt, conf, run.code) then (Store(vt, acted, i, run.log), run.code)
      else (acted, run.code)
  }

  /** Put an accepted log at index `i`, then tell on_log_added, whose pushes are queued too. */
  function Store(vt: VTable, s: Core, i: nat, log: Log): Core
    requires i <= |s.logs|
  {
    var stored := s.(logs := Insert(vt, s.logs, i, log), added := s.added + [log]);
    if vt.onAdded then Enqueue(stored, s.calls + 1, vt.callback(s.calls, log).pushes) else stored
  }

  function PushOne(vt: VTable, conf: Configure, s: Core, log: Log): (r: (Core, Code))
    ensures s.calls <= r.0.calls
    ensures s.pending <= r.0.pending && (r.0.calls == s.calls ==> r.0.pending == s.pending)
  {
    Apply(vt, conf, s.(applied := s.applied + [log]), log)
  }

  lemma PushOneSettles(vt: VTable, conf: Configure, s: Core, log: Log)
    requires vt.Settles()
    ensures vt.quiet <= s.calls ==> PushOne(vt, conf, s, log).0.pending == s.pending
  {}

  /** No callback pushes a log below the ignore key. */
  ghost predicate PushesAbove(vt: VTable, ignore: Option<Key>) {
    ignore.Some? ==> forall n, l, p :: p in vt.callback(n, l).pushes ==> ignore.value <= p.key
  }

  /** No callback pushes. */
  ghost predicate Silent(vt: VTable) {
    forall n, l :: vt.callback(n, l).pushes == []
  }

  /** Apply the queued pushes first-in first-out, together with those they push in turn. */
  ghost function Drain(vt: VTable, conf: Configure, s: Core): (r: Core)
    requires vt.Settles()
    ensures r.pending == []
    decreases if s.calls < vt.quiet then vt.quiet - s.calls else 0, |s.pending|
  {
    if s.pending == [] then s
    else
      var rest := s.(pending := s.pending[1..]);
      PushOneSettles(vt, conf, rest, s.pending[0]);
      Drain(vt, conf, PushOne(vt, conf, rest, s.pending[0]).0)
  }

  /** The greatest removed key, once `k` is removed too. */
  function Raise(removed: Option<Key>, k: Key): Option<Key> {
    if removed.Some? && k < removed.value then removed else Some(k)
  }

  /** Remove the first `n` logs. */
  function PopMany(s: Core, n: nat): Core
    requires n <= |s.logs|
  {
    if n == 0 then s
    else s.(logs := s.logs[n..], popped := s.popped + s.logs[..n], removed := Raise(s.removed, s.logs[n - 1].key))
  }

  function Excess(conf: Configure, s: Core): nat {
    if 0 < conf.maxSize < |s.logs| then |s.logs| - conf.maxSize else 0
  }

  predicate Ignored(s: Core, log: Log) { s.ignore.Some? && log.key <= s.ignore.value }

  /** An outermost push: apply the log unless it is ignored, drain the queue, trim to the size limit. */
  ghost function Emplace(vt: VTable, conf: Configure, s: Core, log: Log): (Core, Code)
    requires vt.Settles()
  {
    var first := if Ignored(s, log) then (s, Ignore) else PushOne(vt, conf, s, log);
    var drained := Drain(vt, conf, first.0);
    (PopMany(drained, Excess(conf, drained)), first.1)
  }

  // ---------------------------------------------------------------- what every step keeps

  /** Strictly sorted, and chained when hashes are on. */
  ghost predicate Ordered(vt: VTable, logs: seq<Log>) {
    Sorted(logs) && (vt.Hashed() ==> Chained(vt.next, logs))
  }

  /** Splicing a log between two sorted, chained runs keeps both properties when the hashes meet. */
  lemma SpliceOrdered(vt: VTable, front: seq<Log>, log: Log, tail: seq<Log>)
    requires Ordered(vt, front) && Ordered(vt, tail)
    requires forall i :: 0 <= i < |front| ==> front[i].key < log.key
    requires forall i :: 0 <= i < |tail| ==> log.key < tail[i].key
    requires vt.Hashed() && front != [] ==> log.hash == vt.next(front[|front| - 1].hash, log.key, log.body)
    requires vt.Hashed() && tail != [] ==> tail[0].hash == vt.next(log.hash, tail[0].key, tail[0].body)
    ensures Ordered(vt, front + [log] + tail)
  {
    var r := front + [log] + tail;
    assert forall i :: |front| < i < |r| ==> r[i] == tail[i - |front| - 1];
  }

  /** Order and chain survive an insertion at the search position. */
  lemma InsertOrdered(vt: VTable, logs: seq<Log>, i: nat, log: Log, stored: Log)
    requires Ordered(vt, logs) && !Holds(logs, log.key) && i == FirstAtLeast(logs, log.key)
    requires stored == Seal(vt, logs, i, log).(payload := stored.payload)
    ensures Ordered(vt, Insert(vt, logs, i, stored))
  {
    hide Rehash;
    HalvesOrdered(vt, logs, i, log.key);
    if vt.Hashed() { RehashOrdered(vt, stored.hash, logs[i..]); }
    var tail := if vt.Hashed() then Rehash(vt.next, stored.hash, logs[i..]) else logs[i..];
    hide Ordered, FirstAtLeast, Holds;
    SpliceOrdered(vt, logs[..i], stored, tail);
  }

  lemma HalvesOrdered(vt: VTable, logs: seq<Log>, i: nat, k: Key)
    requires Ordered(vt, logs) && !Holds(logs, k) && i == FirstAtLeast(logs, k)
    ensures Ordered(vt, logs[..i]) && Ordered(vt, logs[i..])
    ensures forall j :: 0 <= j < |logs[..i]| ==> logs[..i][j].key < k
    ensures forall j :: 0 <= j < |logs[i..]| ==> k < logs[i..][j].key
  {
    hide FirstAtLeast;
  }

  lemma RehashOrdered(vt: VTable, seed: Hash, logs: seq<Log>)
    requires Sorted(logs)
    ensures var r := Rehash(vt.next, seed, logs);
            && Ordered(vt, r) && |r| == |logs| && (forall j :: 0 <= j < |r| ==> r[j].key == logs[j].key)
            && (r != [] ==> r[0].hash == vt.next(seed, r[0].key, r[0].body))
  {
    hide Rehash;
  }

  lemma PopManyOrdered(vt: VTable, s: Core, n: nat)
    requires Ordered(vt, s.logs) && n <= |s.logs|
    ensures Ordered(vt, PopMany(s, n).logs)
  {}

  lemma PushOneOrdered(vt: VTable, conf: Configure, s: Core, log: Log)
    requires Ordered(vt, s.logs)
    ensures Ordered(vt, PushOne(vt, conf, s, log).0.logs)
  {
    if !Holds(s.logs, log.key) {
      var i := FirstAtLeast(s.logs, log.key);
      InsertOrdered(vt, s.logs, i, log, Redo(vt, s.calls, Seal(vt, s.logs, i, log)).log);
    }
  }

  lemma {:induction false} DrainOrdered(vt: VTable, conf: Configure, s: Core)
    requires vt.Settles() && Ordered(vt, s.logs)
    ensures Ordered(vt, Drain(vt, conf, s).logs)
    decreases if s.calls < vt.quiet then vt.quiet - s.calls else 0, |s.pending|
  {
    if s.pending != [] {
      var rest := s.(pending := s.pending[1..]);
      PushOneSettles(vt, conf, rest, s.pending[0]);
      PushOneOrdered(vt, conf, rest, s.pending[0]);
      DrainOrdered(vt, conf, PushOne(vt, conf, rest, s.pending[0]).0);
    }
  }

  /** The hash chain and the strict order survive every outermost push, however its callbacks behave:
      append, hole insertion, merge, rejection, forced acceptance, queued pushes and trimming. The
      queue ends empty and the size limit holds. */
  lemma EmplaceOrdered(vt: VTable, conf: Configure, s: Core, log: Log)
    requires vt.Settles() && Ordered(vt, s.logs)
    ensures var r := Emplace(vt, conf, s, log).0;
            && Ordered(vt, r.logs) && r.pending == []
            && (0 < conf.maxSize ==> |r.logs| <= conf.maxSize)
  {
    PushOneOrdered(vt, conf, s, log);
    var first := if Ignored(s, log) then s else PushOne(vt, conf, s, log).0;
    DrainOrdered(vt, conf, first);
  }

  /** A log accepted into the middle takes its place and nothing else moves: every other record keeps
      its key, body and payload, and the logs before it keep their hashes as well. */
  lemma InsertKeepsOthers(vt: VTable, logs: seq<Log>, i: nat, log: Log)
    requires i <= |logs|
    ensures var r := Insert(vt, logs, i, log);
            && |r| == |logs| + 1 && r[..i] == logs[..i] && r[i] == log
            && (forall j :: i <= j < |logs| ==> r[j + 1] == logs[j].(hash := r[j + 1].hash))
            && (!vt.Hashed() ==> r[i + 1..] == logs[i..])
  {
    var r := Insert(vt, logs, i, log);
    assert r[i + 1..] == if vt.Hashed() then Rehash(vt.next, log.hash, logs[i..]) else logs[i..];
    forall j | i <= j < |logs| ensures r[j + 1] == logs[j].(hash := r[j + 1].hash) {
      assert r[j + 1] == r[i + 1..][j - i];
    }
  }

  lemma AppendIsInsert(vt: VTable, logs: seq<Log>, log: Log)
    ensures Insert(vt, logs, |logs|, log) == logs + [log]
  {
    assert logs[..|logs|] == logs && logs[|logs|..] == [];
  }

  /** How an accepted log got there: at its search position, with the hash of that place. */
  lemma PushOneAccepted(vt: VTable, conf: Configure, s: Core, log: Log)
    requires PushOne(vt, conf, s, log).0.added != s.added
    ensures var r := PushOne(vt, conf, s, log).0;
            var i := FirstAtLeast(s.logs, log.key);
            && !Holds(s.logs, log.key) && |r.added| == |s.added| + 1
            && var x := r.added[|s.added|];
               && x == Seal(vt, s.logs, i, log).(payload := x.payload)
               && r.added == s.added + [x] && r.logs == Insert(vt, s.logs, i, x) && r.popped == s.popped
  {
    assert !Holds(s.logs, log.key);
    var i := FirstAtLeast(s.logs, log.key);
    var run := Redo(vt, s.calls, Seal(vt, s.logs, i, log));
    assert PushOne(vt, conf, s, log).0.added == s.added + [run.log];
  }

  // ---------------------------------------------------------------- first in, first out

  /** What callbacks push while one log is applied goes to the end of the queue, in order. */
  lemma PushOneQueues(vt: VTable, conf: Configure, s: Core, log: Log)
    ensures var r := PushOne(vt, conf, s, log).0;
            && s.queued <= r.queued && r.pending == s.pending + r.queued[|s.queued|..]
            && r.applied == s.applied + [log]
  {
    var r := PushOne(vt, conf, s, log).0;
    if !Holds(s.logs, log.key) {
      var run := Redo(vt, s.calls, Seal(vt, s.logs, FirstAtLeast(s.logs, log.key), log));
      var made := run.pushes
        + if Accepts(vt, conf, run.code) && vt.onAdded then vt.callback(run.calls, run.log).pushes else [];
      assert r.queued == s.queued + made && r.pending == s.pending + made;
    }
  }

  /** Queued pushes are applied in the order they were made, after those already queued. */
  lemma {:induction false} DrainFifo(vt: VTable, conf: Configure, s: Core)
    requires vt.Settles()
    ensures var r := Drain(vt, conf, s);
            s.queued <= r.queued && r.applied == s.applied + s.pending + r.queued[|s.queued|..]
    decreases if s.calls < vt.quiet then vt.quiet - s.calls else 0, |s.pending|
  {
    if s.pending != [] {
      var rest := s.(pending := s.pending[1..]);
      PushOneSettles(vt, conf, rest, s.pending[0]);
      PushOneQueues(vt, conf, rest, s.pending[0]);
      var t := PushOne(vt, conf, rest, s.pending[0]).0;
      DrainFifo(vt, conf, t);
      SpliceQueue(s.applied, s.pending, s.queued, t.queued, Drain(vt, conf, s).queued);
    }
  }

  lemma SpliceQueue<T>(applied: seq<T>, pending: seq<T>, q0: seq<T>, q1: seq<T>, q2: seq<T>)
    requires pending != [] && q0 <= q1 <= q2
    ensures applied + [pending[0]] + (pending[1..] + q1[|q0|..]) + q2[|q1|..] == applied + pending + q2[|q0|..]
  {
    assert q2[|q0|..] == q1[|q0|..] + q2[|q1|..];
    assert pending == [pending[0]] + pending[1..];
  }

  /** Re-entrant pushes run first-in first-out after the log whose callbacks made them. */
  lemma EmplaceFifo(vt: VTable, conf: Configure, s: Core, log: Log)
    requires vt.Settles() && s.pending == []
    ensures var r := Emplace(vt, conf, s, log).0;
            && s.queued <= r.queued
            && r.applied == s.applied + (if Ignored(s, log) then [] else [log]) + r.queued[|s.queued|..]
  {
    var first := if Ignored(s, log) then s else PushOne(vt, conf, s, log).0;
    PushOneQueues(vt, conf, s, log);
    DrainFifo(vt, conf, first);
    assert Emplace(vt, conf, s, log).0.queued == Drain(vt, conf, first).queued;
    SpliceQueue(s.applied, [log], s.queued, first.queued, Drain(vt, conf, first).queued);
  }

  // ---------------------------------------------------------------- nothing is lost or made up

  /** The account of a log: whatever was accepted is either still held or was removed, key by key;
      and no removed key is above the last-removed key. */
  ghost predicate Accounted(s: Core) {
    && (forall k :: Count(s.added, k) == Count(s.logs, k) + Count(s.popped, k))
    && (forall i :: 0 <= i < |s.popped| ==> s.removed.Some? && s.popped[i].key <= s.removed.value)
  }

  ghost predicate Consistent(vt: VTable, s: Core) {
    Ordered(vt, s.logs) && Accounted(s)
  }

  lemma InsertCount(vt: VTable, logs: seq<Log>, i: nat, log: Log, k: Key)
    requires i <= |logs|
    ensures Count(Insert(vt, logs, i, log), k) == Count(logs, k) + Count([log], k)
  {
    var tail := if vt.Hashed() then Rehash(vt.next, log.hash, logs[i..]) else logs[i..];
    CountSameKeys(tail, logs[i..], k);
    CountConcat(logs[..i], [log], k);
    CountConcat(logs[..i] + [log], tail, k);
    CountConcat(logs[..i], logs[i..], k);
    assert logs == logs[..i] + logs[i..];
  }

  /** One push adds to the held logs just what it accepts. */
  lemma PushOneBalance(vt: VTable, conf: Configure, s: Core, log: Log, k: Key)
    ensures var r := PushOne(vt, conf, s, log).0;
            && s.added <= r.added && r.popped == s.popped && r.removed == s.removed && r.ignore == s.ignore
            && Count(r.logs, k) + Count(s.added, k) == Count(s.logs, k) + Count(r.added, k)
  {
    var r := PushOne(vt, conf, s, log).0;
    if Holds(s.logs, log.key) {
      CountSameKeys(r.logs, s.logs, k);
    } else {
      var i := FirstAtLeast(s.logs, log.key);
      var run := Redo(vt, s.calls, Seal(vt, s.logs, i, log));
      InsertCount(vt, s.logs, i, run.log, k);
      CountConcat(s.added, [run.log], k);
    }
  }

  /** So does the drain of the queue. */
  lemma {:induction false} DrainBalance(vt: VTable, conf: Configure, s: Core, k: Key)
    requires vt.Settles()
    ensures var r := Drain(vt, conf, s);
            Count(r.logs, k) + Count(s.added, k) == Count(s.logs, k) + Count(r.added, k)
    decreases if s.calls < vt.quiet then vt.quiet - s.calls else 0, |s.pending|
  {
    if s.pending != [] {
      var rest := s.(pending := s.pending[1..]);
      PushOneSettles(vt, conf, rest, s.pending[0]);
      PushOneBalance(vt, conf, rest, s.pending[0], k);
      DrainBalance(vt, conf, PushOne(vt, conf, rest, s.pending[0]).0, k);
    }
  }

  lemma PushOneAccounted(vt: VTable, conf: Configure, s: Core, log: Log)
    requires Accounted(s)
    ensures Accounted(PushOne(vt, conf, s, log).0)
  {
    forall k { PushOneBalance(vt, conf, s, log, k); }
    PushOneBalance(vt, conf, s, log, log.key);
  }

  lemma DrainAccounted(vt: VTable, conf: Configure, s: Core)
    requires vt.Settles() && Accounted(s)
    ensures Accounted(Drain(vt, conf, s))
  {
    forall k { DrainBalance(vt, conf, s, k); }
    DrainRemoved(vt, conf, s);
  }

  /** Removing from the front keeps order, chain and account, and the last-removed key never falls. */
  lemma PopManyConsistent(vt: VTable, s: Core, n: nat)
    requires Consistent(vt, s) && n <= |s.logs|
    ensures Consistent(vt, PopMany(s, n))
    ensures s.removed.Some? ==> PopMany(s, n).removed.Some? && s.removed.value <= PopMany(s, n).removed.value
  {
    var r := PopMany(s, n);
    forall k ensures Count(r.added, k) == Count(r.logs, k) + Count(r.popped, k) {
      assert s.logs == s.logs[..n] + s.logs[n..];
      CountConcat(s.logs[..n], s.logs[n..], k);
      CountConcat(s.popped, s.logs[..n], k);
    }
  }

  lemma {:induction false} DrainRemoved(vt: VTable, conf: Configure, s: Core)
    requires vt.Settles()
    ensures var r := Drain(vt, conf, s);
            && r.removed == s.removed && r.popped == s.popped && r.ignore == s.ignore
            && s.added <= r.added && s.calls <= r.calls
    decreases if s.calls < vt.quiet then vt.quiet - s.calls else 0, |s.pending|
  {
    if s.pending != [] {
      var rest := s.(pending := s.pending[1..]);
      PushOneSettles(vt, conf, rest, s.pending[0]);
      DrainRemoved(vt, conf, PushOne(vt, conf, rest, s.pending[0]).0);
    }
  }

  /** Every outermost push keeps the account and never lowers the last-removed key. */
  lemma EmplaceConsistent(vt: VTable, conf: Configure, s: Core, log: Log)
    requires vt.Settles() && Consistent(vt, s)
    ensures var r := Emplace(vt, conf, s, log).0;
            && Consistent(vt, r) && r.pending == [] && s.added <= r.added && s.popped <= r.popped
            && r.ignore == s.ignore
            && (s.removed.Some? ==> r.removed.Some? && s.removed.value <= r.removed.value)
            && (0 < conf.maxSize ==> |r.logs| <= conf.maxSize)
  {
    PushOneOrdered(vt, conf, s, log);
    PushOneAccounted(vt, conf, s, log);
    var first := if Ignored(s, log) then s else PushOne(vt, conf, s, log).0;
    DrainOrdered(vt, conf, first);
    DrainAccounted(vt, conf, first);
    DrainRemoved(vt, conf, first);
    TrimConsistent(vt, conf, Drain(vt, conf, first));
  }

  lemma TrimConsistent(vt: VTable, conf: Configure, s: Core)
    requires Consistent(vt, s)
    ensures var r := PopMany(s, Excess(conf, s));
            && Consistent(vt, r) && r.pending == s.pending && s.added == r.added && s.popped <= r.popped
            && r.ignore == s.ignore
            && (s.removed.Some? ==> r.removed.Some? && s.removed.value <= r.removed.value)
            && (0 < conf.maxSize ==> |r.logs| <= conf.maxSize)
  {
    PopManyConsistent(vt, s, Excess(conf, s));
  }

  // ---------------------------------------------------------------- the ignore key in the queue

  /** One turn of the loop that drains the queue: an entry below the ignore key is looked at and left
      where it is. */
  function DrainTurn(vt: VTable, conf: Configure, s: Core): Core
    requires s.pending != []
  {
    if s.ignore.Some? && s.pending[0].key < s.ignore.value then s
    else PushOne(vt, conf, s.(pending := s.pending[1..]), s.pending[0]).0
  }

  /** The loop after at most `n` turns. */
  function Turns(vt: VTable, conf: Configure, s: Core, n: nat): Core
    decreases n
  {
    if n == 0 || s.pending == [] then s else Turns(vt, conf, DrainTurn(vt, conf, s), n - 1)
  }

  /** No log is below the ignore key. */
  ghost predicate NoneBelow(ignore: Option<Key>, logs: seq<Log>) {
    ignore.Some? ==> forall p :: p in logs ==> ignore.value <= p.key
  }

  /** Neither what is queued nor what callbacks push while the queue drains is below the ignore key. */
  ghost predicate Drains(vt: VTable, conf: Configure, s: Core)
    requires vt.Settles()
  {
    DrainFifo(vt, conf, s);
    NoneBelow(s.ignore, s.pending + Drain(vt, conf, s).queued[|s.queued|..])
  }

  /** So an outermost push returns. */
  ghost predicate Returns(vt: VTable, conf: Configure, s: Core, log: Log)
    requires vt.Settles()
  {
    Drains(vt, conf, if Ignored(s, log) then s else PushOne(vt, conf, s, log).0)
  }

  lemma NoneBelowCons(ignore: Option<Key>, p: Log, logs: seq<Log>)
    ensures NoneBelow(ignore, [p] + logs) <==> NoneBelow(ignore, [p]) && NoneBelow(ignore, logs)
  {
    assert forall q :: q in [p] + logs <==> q in [p] || q in logs;
    assert p in [p];
  }

  /** What is queued at `q0`, then pushed up to `q1`, then up to `q2`, taken one head at a time. */
  lemma QueueCons<T>(pending: seq<T>, q0: seq<T>, q1: seq<T>, q2: seq<T>)
    requires pending != [] && q0 <= q1 <= q2
    ensures pending + q2[|q0|..] == [pending[0]] + (pending[1..] + q1[|q0|..] + q2[|q1|..])
  {
    SpliceQueue([], pending, q0, q1, q2);
    assert [] + pending + q2[|q0|..] == pending + q2[|q0|..];
  }

  lemma DrainsStep(vt: VTable, conf: Configure, s: Core)
    requires vt.Settles() && s.pending != []
    ensures var t := PushOne(vt, conf, s.(pending := s.pending[1..]), s.pending[0]).0;
            && Drain(vt, conf, s) == Drain(vt, conf, t)
            && (Drains(vt, conf, s) <==> NoneBelow(s.ignore, [s.pending[0]]) && Drains(vt, conf, t))
  {
    var rest := s.(pending := s.pending[1..]);
    var t := PushOne(vt, conf, rest, s.pending[0]).0;
    PushOneSettles(vt, conf, rest, s.pending[0]);
    PushOneQueues(vt, conf, rest, s.pending[0]);
    PushOneBalance(vt, conf, rest, s.pending[0], 0);
    var r := Drain(vt, conf, t);
    DrainFifo(vt, conf, t);
    QueueCons(s.pending, s.queued, t.queued, r.queued);
    NoneBelowCons(s.ignore, s.pending[0], t.pending + r.queued[|t.queued|..]);
  }

  lemma {:induction false} TurnsNeeded(vt: VTable, conf: Configure, s: Core) returns (n: nat)
    requires vt.Settles() && Drains(vt, conf, s)
    ensures Turns(vt, conf, s, n).pending == []
    decreases if s.calls < vt.quiet then vt.quiet - s.calls else 0, |s.pending|
  {
    n := 0;
    if s.pending != [] {
      DrainsStep(vt, conf, s);
      PushOneSettles(vt, conf, s.(pending := s.pending[1..]), s.pending[0]);
      n := TurnsNeeded(vt, conf, DrainTurn(vt, conf, s));
      n := n + 1;
    }
  }

  /** A loop that has ended met nothing below the ignore key and has done what `Drain` says. */
  lemma {:induction false} EndedDrained(vt: VTable, conf: Configure, s: Core, n: nat)
    requires vt.Settles() && Turns(vt, conf, s, n).pending == []
    ensures Drains(vt, conf, s) && Turns(vt, conf, s, n) == Drain(vt, conf, s)
    decreases n
  {
    if s.pending != [] {
      hide PushOne, Drains;
      EndedDrained(vt, conf, DrainTurn(vt, conf, s), n - 1);
      DrainsStep(vt, conf, s);
      PushOneSettles(vt, conf, s.(pending := s.pending[1..]), s.pending[0]);
    }
  }

  /** The loop that drains the queue ends if and only if neither what is queued nor anything pushed on
      the way is below the ignore key. */
  lemma DrainEnds(vt: VTable, conf: Configure, s: Core)
    requires vt.Settles()
    ensures (exists n: nat :: Turns(vt, conf, s, n).pending == []) <==> Drains(vt, conf, s)
  {
    if n: nat :| Turns(vt, conf, s, n).pending == [] { EndedDrained(vt, conf, s, n); }
    if Drains(vt, conf, s) { var n := TurnsNeeded(vt, conf, s); }
  }

  /** A log whose callbacks never push below the ignore key always drains, and so does one without an
      ignore key. */
  lemma {:induction false} AboveDrains(vt: VTable, conf: Configure, s: Core)
    requires vt.Settles() && PushesAbove(vt, s.ignore) && NoneBelow(s.ignore, s.pending)
    ensures Drains(vt, conf, s)
    decreases if s.calls < vt.quiet then vt.quiet - s.calls else 0, |s.pending|
  {
    DrainFifo(vt, conf, s);
    if s.pending != [] {
      var rest := s.(pending := s.pending[1..]);
      PushOneSettles(vt, conf, rest, s.pending[0]);
      PushOneAbove(vt, conf, rest, s.pending[0]);
      AboveDrains(vt, conf, PushOne(vt, conf, rest, s.pending[0]).0);
      DrainsStep(vt, conf, s);
      assert s.pending[0] in s.pending;
    }
  }

  lemma PushOneAbove(vt: VTable, conf: Configure, s: Core, log: Log)
    requires PushesAbove(vt, s.ignore) && NoneBelow(s.ignore, s.pending)
    ensures var r := PushOne(vt, conf, s, log).0; r.ignore == s.ignore && NoneBelow(r.ignore, r.pending)
  {
    if !Holds(s.logs, log.key) {
      var run := Redo(vt, s.calls, Seal(vt, s.logs, FirstAtLeast(s.logs, log.key), log));
      assert NoneBelow(s.ignore, run.pushes);
    }
  }

  /** A log with ignore key 5 whose first action pushes key 1. */
  function PushingBelow(): (vt: VTable)
    ensures vt.Settles()
  {
    VTable(false, false, false, (h, k, b) => 0, (k, b) => Meta(0, k, 0), None, map[], Delegate(false, true), false,
           (n: nat, l) => Outcome(Ok, 0, if n == 0 then [Log(1, 0, 0, 0)] else []), 1)
  }

  /** Pushing key 7 there never returns: however many turns the loop takes, the queue is not empty. */
  lemma PushNeverReturns(n: nat)
    ensures var conf, s := Configure(0, 0, 0, false), Core([], [], None, Some(5), 0, [], [], [], []);
            && !Returns(PushingBelow(), conf, s, Log(7, 0, 0, 0))
            && Turns(PushingBelow(), conf, PushOne(PushingBelow(), conf, s, Log(7, 0, 0, 0)).0, n).pending != []
  {
    var conf, s := Configure(0, 0, 0, false), Core([], [], None, Some(5), 0, [], [], [], []);
    var t := PushOne(PushingBelow(), conf, s, Log(7, 0, 0, 0)).0;
    assert t.pending == [Log(1, 0, 0, 0)] && t.ignore == Some(5);
    DrainsStep(PushingBelow(), conf, t);
    if Turns(PushingBelow(), conf, t, n).pending == [] { DrainEnds(PushingBelow(), conf, t); }
  }

  // ---------------------------------------------------------------- collecting expired logs

  /** Seven days in nanosecond ticks. */
  const DEFAULT_EXPIRE := 7 * 24 * 3600 * 1_000_000_000
  const DEFAULT_MAX_SIZE := 512
  const DEFAULT_GC_SIZE := 128

  function ExpireOf(conf: Configure): int { if 0 < conf.expire then conf.expire else DEFAULT_EXPIRE }
  function MaxSizeOf(conf: Configure): nat { if 0 < conf.maxSize then conf.maxSize else DEFAULT_MAX_SIZE }
  function GcSizeOf(conf: Configure): nat { if 0 < conf.gcSize then conf.gcSize else DEFAULT_GC_SIZE }

  /** The oldest of `size` logs may be collected now. */
  predicate Collectable(vt: VTable, conf: Configure, now: int, hold: Option<Key>, size: nat, log: Log) {
    && GcSizeOf(conf) < size
    && (MaxSizeOf(conf) < size
        || match vt.meta(log.key, log.body)
           case Meta(time, key, _) => time + ExpireOf(conf) <= now && !(hold.Some? && hold.value < key)
           case _ => true)
  }

  /** How many logs one collection removes: the longest collectable prefix, at most `limit`. */
  function GcCount(vt: VTable, conf: Configure, now: int, hold: Option<Key>, logs: seq<Log>, limit: nat): (n: nat)
    ensures n <= |logs| && n <= limit
    ensures forall i :: 0 <= i < n ==> Collectable(vt, conf, now, hold, |logs| - i, logs[i])
    ensures n < limit && n < |logs| ==> !Collectable(vt, conf, now, hold, |logs| - n, logs[n])
  {
    if logs == [] || limit == 0 || !Collectable(vt, conf, now, hold, |logs|, logs[0]) then 0
    else 1 + GcCount(vt, conf, now, hold, logs[1..], limit - 1)
  }

  lemma GcCountUnique(vt: VTable, conf: Configure, now: int, hold: Option<Key>, logs: seq<Log>, limit: nat, n: nat)
    requires n <= |logs| && n <= limit
    requires forall i :: 0 <= i < n ==> Collectable(vt, conf, now, hold, |logs| - i, logs[i])
    requires n < limit && n < |logs| ==> !Collectable(vt, conf, now, hold, |logs| - n, logs[n])
    ensures n == GcCount(vt, conf, now, hold, logs, limit)
  {}

  function Gc(vt: VTable, conf: Configure, s: Core, now: int, hold: Option<Key>, limit: nat): Core {
    PopMany(s, GcCount(vt, conf, now, hold, s.logs, limit))
  }

  /** The key in a log's meta data is the log's key. */
  ghost predicate MetaAgrees(vt: VTable) {
    forall k, b :: vt.meta(k, b).Meta? ==> vt.meta(k, b).key == k
  }

  /** Collection removes a prefix, keeps the threshold, keeps the account, and raises the last-removed
      key to cover what it removed. Within the size limit and with readable meta data it removes only
      expired logs that are not held. */
  lemma GcSafe(vt: VTable, conf: Configure, s: Core, now: int, hold: Option<Key>, limit: nat)
    requires Consistent(vt, s)
    ensures var r := Gc(vt, conf, s, now, hold, limit);
            var n := |s.logs| - |r.logs|;
            && Consistent(vt, r)
            && 0 <= n <= limit && r.logs == s.logs[n..] && r.popped == s.popped + s.logs[..n]
            && (|r.logs| >= GcSizeOf(conf) || r.logs == s.logs)
            && (s.removed.Some? ==> r.removed.Some? && s.removed.value <= r.removed.value)
            && (MetaAgrees(vt) && |s.logs| <= MaxSizeOf(conf)
                && (forall l :: l in s.logs ==> vt.meta(l.key, l.body).Meta?) ==>
                forall i :: 0 <= i < n ==>
                  && vt.meta(s.logs[i].key, s.logs[i].body).time + ExpireOf(conf) <= now
                  && (hold.Some? ==> s.logs[i].key <= hold.value))
  {
    var n := GcCount(vt, conf, now, hold, s.logs, limit);
    PopManyConsistent(vt, s, n);
    if n > 0 {
      assert Collectable(vt, conf, now, hold, |s.logs| - (n - 1), s.logs[n - 1]);
    }
    assert PopMany(s, 0).logs == s.logs[0..];
  }
}
