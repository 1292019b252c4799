/** What a client does with the logs it receives, as values: the hash check, the last-finished key and
    what they guarantee over a whole run. */
module WalReception {
  import opened Wrappers
  import opened WalCommon
  import opened WalChain
  import opened WalSpec

  /** A client's log and its last-finished key. `passed` lists the keys that got through the guard of
      `receive_log`, oldest first. */
  datatype Client = Client(core: Core, finished: Option<Key>, gotSnapshot: bool, passed: seq<Key>)

  /** The client's vtable and configuration. */
  datatype Setup = Setup(vt: VTable, conf: Configure, needSnapshot: bool)

  /** The hash check: a log must carry the hash computed from the hash before its place, if there is a
      real one. */
  predicate HashMatches(vt: VTable, logs: seq<Log>, log: Log) {
    vt.Hashed() ==>
      var before := HashBefore(logs, FirstAtLeast(logs, log.key));
      ValidHash(before) ==> vt.next(before, log.key, log.body) == log.hash
  }

  predicate Finished(c: Client, k: Key) { c.finished.Some? && k <= c.finished.value }

  /** A log gets through the snapshot guard and the hash check. */
  predicate AdmitsHole(su: Setup, c: Client, log: Log) {
    !(su.needSnapshot && !c.gotSnapshot) && HashMatches(su.vt, c.core.logs, log)
  }

  /** And through the last-finished guard. */
  predicate Admits(su: Setup, c: Client, log: Log) { AdmitsHole(su, c, log) && !Finished(c, log.key) }

  /** Receive a log that is assumed to leave no hole. */
  ghost function ReceiveLog(su: Setup, c: Client, log: Log): (Client, Code)
    requires su.vt.Settles()
  {
    if su.needSnapshot && !c.gotSnapshot then (c, ClientRequireSnapshot)
    else if !HashMatches(su.vt, c.core.logs, log) then (c, HashCodeMismatch)
    else if Finished(c, log.key) then (c, Ignore)
    else
      var r := Emplace(su.vt, su.conf, c.core, log);
      (c.(core := r.0, finished := Some(log.key), passed := c.passed + [log.key]), r.1)
  }

  /** Receive a log that may fill a hole; the last-finished key only ever moves up. */
  ghost function ReceiveHoleLog(su: Setup, c: Client, log: Log): (Client, Code)
    requires su.vt.Settles()
  {
    if su.needSnapshot && !c.gotSnapshot then (c, ClientRequireSnapshot)
    else if !HashMatches(su.vt, c.core.logs, log) then (c, HashCodeMismatch)
    else
      var r := Emplace(su.vt, su.conf, c.core, log);
      (c.(core := r.0, finished := if Finished(c, log.key) then c.finished else Some(log.key)), r.1)
  }

  /** Receive a log from inside one of the client's own callbacks: past the same guards it waits in the queue. */
  function ReceiveInside(su: Setup, c: Client, log: Log): (Client, Code) {
    if su.needSnapshot && !c.gotSnapshot then (c, ClientRequireSnapshot)
    else if !HashMatches(su.vt, c.core.logs, log) then (c, HashCodeMismatch)
    else if Finished(c, log.key) then (c, Ignore)
    else
      (c.(core := Enqueue(c.core, c.core.calls, [log]), finished := Some(log.key), passed := c.passed + [log.key]),
       Pending)
  }

  function ReceiveHoleInside(su: Setup, c: Client, log: Log): (Client, Code) {
    if su.needSnapshot && !c.gotSnapshot then (c, ClientRequireSnapshot)
    else if !HashMatches(su.vt, c.core.logs, log) then (c, HashCodeMismatch)
    else
      (c.(core := Enqueue(c.core, c.core.calls, [log]),
          finished := if Finished(c, log.key) then c.finished else Some(log.key)),
       Pending)
  }

  /** Replace all logs; the last-finished key moves up to the last of them. */
  function AssignLogs(c: Client, source: seq<Log>): Client {
    c.(core := c.core.(logs := source),
       finished := if source == [] || Finished(c, source[|source| - 1].key) then c.finished
                   else Some(source[|source| - 1].key))
  }

  function Collect(su: Setup, c: Client, now: int, limit: nat): Client {
    c.(core := Gc(su.vt, su.conf, c.core, now, None, limit))
  }

  datatype Op =
    | Receive(log: Log)
    | ReceiveHole(log: Log)
    | Assign(source: seq<Log>)
    | CollectLogs(now: int, limit: nat)
    | ReceiveSnapshot(accepted: bool)

  ghost function Step(su: Setup, c: Client, op: Op): Client
    requires su.vt.Settles()
  {
    match op
    case Receive(log) => ReceiveLog(su, c, log).0
    case ReceiveHole(log) => ReceiveHoleLog(su, c, log).0
    case Assign(source) => AssignLogs(c, source)
    case CollectLogs(now, limit) => Collect(su, c, now, limit)
    case ReceiveSnapshot(accepted) => c.(gotSnapshot := c.gotSnapshot || accepted)
  }

  const FRESH := Client(Core([], [], None, None, 0, [], [], [], []), None, false, [])

  ghost function Run(su: Setup, ops: seq<Op>): (c: Client)
    requires su.vt.Settles()
    ensures c.core.pending == []
  {
    if ops == [] then FRESH else Step(su, Run(su, ops[..|ops| - 1]), ops[|ops| - 1])
  }

  // ---------------------------------------------------------------- what a push may bring

  ghost predicate KeysUpTo(logs: seq<Log>, k: Key) { forall l :: l in logs ==> l.key <= k }

  /** The logs a push makes the log accept: the pushed one and those its callbacks push. */
  ghost function Accepted(su: Setup, core: Core, log: Log): seq<Log>
    requires su.vt.Settles()
  {
    EmplaceBalance(su.vt, su.conf, core, log, 0);
    Emplace(su.vt, su.conf, core, log).0.added[|core.added|..]
  }

  /** Key by key, a push holds or trims away what was held and what it accepted. */
  lemma EmplaceBalance(vt: VTable, conf: Configure, s: Core, log: Log, k: Key)
    requires vt.Settles()
    ensures var r := Emplace(vt, conf, s, log).0;
            var drained := Drain(vt, conf, if Ignored(s, log) then s else PushOne(vt, conf, s, log).0);
            && s.added <= r.added && r.added == drained.added
            && Count(drained.logs, k) == Count(s.logs, k) + Count(r.added[|s.added|..], k)
  {
    hide PushOne, Drain;
    var first := if Ignored(s, log) then s else PushOne(vt, conf, s, log).0;
    var drained := Drain(vt, conf, first);
    PushOneBalance(vt, conf, s, log, k);
    DrainBalance(vt, conf, first, k);
    DrainRemoved(vt, conf, first);
    assert drained.added == s.added + drained.added[|s.added|..];
    CountConcat(s.added, drained.added[|s.added|..], k);
  }

  /** The pushes that callbacks make while an outermost push is under way. */
  ghost function Pushed(su: Setup, core: Core, log: Log): seq<Log>
    requires su.vt.Settles() && core.pending == []
  {
    EmplaceFifo(su.vt, su.conf, core, log);
    Emplace(su.vt, su.conf, core, log).0.queued[|core.queued|..]
  }

  lemma UpToByCount(logs: seq<Log>, a: seq<Log>, b: seq<Log>, k: Key)
    requires forall x :: Count(logs, x) == Count(a, x) + Count(b, x)
    ensures KeysUpTo(logs, k) <==> KeysUpTo(a, k) && KeysUpTo(b, k)
  {
    if KeysUpTo(logs, k) {
      forall l | l in a || l in b ensures l.key <= k {
        CountMember(a, l.key);
        CountMember(b, l.key);
        CountMember(logs, l.key);
      }
    }
    if KeysUpTo(a, k) && KeysUpTo(b, k) {
      forall l | l in logs ensures l.key <= k {
        CountMember(a, l.key);
        CountMember(b, l.key);
        CountMember(logs, l.key);
      }
    }
  }

  lemma CountMember(logs: seq<Log>, k: Key)
    ensures 0 < Count(logs, k) <==> exists l :: l in logs && l.key == k
  {
    CountPositive(logs, k);
    if l :| l in logs && l.key == k { var i :| 0 <= i < |logs| && logs[i] == l; }
  }

  /** Trimming leaves the last log, which is the greatest. */
  lemma TrimmedUpTo(logs: seq<Log>, n: nat, k: Key)
    requires Sorted(logs) && (n < |logs| || n == 0)
    ensures n <= |logs| && (KeysUpTo(logs[n..], k) <==> KeysUpTo(logs, k))
  {
    if n < |logs| {
      var last := logs[|logs| - 1];
      assert last in logs[n..] by { assert logs[n..][|logs| - 1 - n] == last; }
      forall l | l in logs ensures l.key <= last.key {
        var i :| 0 <= i < |logs| && logs[i] == l;
      }
    }
  }

  /** After a push a key bounds the log if and only if it bounded the log before and bounds what the
      push made the log accept. */
  lemma EmplaceBound(su: Setup, s: Core, log: Log, k: Key)
    requires su.vt.Settles() && Ordered(su.vt, s.logs)
    ensures KeysUpTo(Emplace(su.vt, su.conf, s, log).0.logs, k) <==>
              KeysUpTo(s.logs, k) && KeysUpTo(Accepted(su, s, log), k)
  {
    var first := if Ignored(s, log) then s else PushOne(su.vt, su.conf, s, log).0;
    var drained := Drain(su.vt, su.conf, first);
    PushOneOrdered(su.vt, su.conf, s, log);
    DrainOrdered(su.vt, su.conf, first);
    forall x { EmplaceBalance(su.vt, su.conf, s, log, x); }
    UpToByCount(drained.logs, s.logs, Accepted(su, s, log), k);
    TrimmedUpTo(drained.logs, Excess(su.conf, drained), k);
  }

  /** A log that accepts whatever its actions say, as clients do by default, accepts or merges every
      push. */
  lemma PushOneTaken(su: Setup, s: Core, log: Log, k: Key)
    requires su.conf.accept && su.vt.Hashed()
    ensures KeysUpTo(PushOne(su.vt, su.conf, s, log).0.logs, k) <==> KeysUpTo(s.logs, k) && log.key <= k
  {
    var r := PushOne(su.vt, su.conf, s, log).0;
    var i := FirstAtLeast(s.logs, log.key);
    forall x { PushOneBalance(su.vt, su.conf, s, log, x); }
    if Holds(s.logs, log.key) {
      assert s.logs[i] in s.logs && r.added == s.added;
      forall x ensures Count(r.logs, x) == Count(s.logs, x) + Count([], x) {
        PushOneBalance(su.vt, su.conf, s, log, x);
      }
      UpToByCount(r.logs, s.logs, [], k);
    } else {
      var run := Redo(su.vt, s.calls, Seal(su.vt, s.logs, i, log));
      assert r.added == s.added + [run.log];
      forall x ensures Count(r.logs, x) == Count(s.logs, x) + Count([run.log], x) {
        PushOneBalance(su.vt, su.conf, s, log, x);
        CountConcat(s.added, [run.log], x);
      }
      UpToByCount(r.logs, s.logs, [run.log], k);
      assert run.log in [run.log];
    }
  }

  lemma {:induction false} DrainTaken(su: Setup, s: Core, k: Key)
    requires su.vt.Settles() && su.conf.accept && su.vt.Hashed()
    ensures var r := Drain(su.vt, su.conf, s);
            && s.queued <= r.queued
            && (KeysUpTo(r.logs, k) <==> KeysUpTo(s.logs, k) && KeysUpTo(s.pending + r.queued[|s.queued|..], k))
    decreases if s.calls < su.vt.quiet then su.vt.quiet - s.calls else 0, |s.pending|
  {
    DrainFifo(su.vt, su.conf, s);
    if s.pending != [] {
      var rest := s.(pending := s.pending[1..]);
      var t := PushOne(su.vt, su.conf, rest, s.pending[0]).0;
      PushOneSettles(su.vt, su.conf, rest, s.pending[0]);
      PushOneQueues(su.vt, su.conf, rest, s.pending[0]);
      PushOneTaken(su, rest, s.pending[0], k);
      DrainTaken(su, t, k);
      var r := Drain(su.vt, su.conf, t);
      QueueCons(s.pending, s.queued, t.queued, r.queued);
      UpToCons(s.pending[0], t.pending + r.queued[|t.queued|..], k);
    } else {
      assert s.pending + s.queued[|s.queued|..] == [];
    }
  }

  lemma UpToCons(l: Log, logs: seq<Log>, k: Key)
    ensures KeysUpTo([l] + logs, k) <==> l.key <= k && KeysUpTo(logs, k)
  {
    assert forall x :: x in [l] + logs <==> x == l || x in logs;
  }

  /** There the pushes alone decide: the pushed key bounds the log afterwards if and only if no callback
      pushed a greater key. */
  lemma EmplaceTaken(su: Setup, s: Core, log: Log, k: Key)
    requires su.vt.Settles() && su.conf.accept && su.vt.Hashed()
    requires Ordered(su.vt, s.logs) && s.pending == [] && KeysUpTo(s.logs, k) && log.key <= k
    ensures var r := Emplace(su.vt, su.conf, s, log).0;
            && s.queued <= r.queued
            && (KeysUpTo(r.logs, k) <==> KeysUpTo(r.queued[|s.queued|..], k))
  {
    var first := if Ignored(s, log) then s else PushOne(su.vt, su.conf, s, log).0;
    var drained := Drain(su.vt, su.conf, first);
    assert s.queued <= first.queued && first.pending == first.queued[|s.queued|..] && KeysUpTo(first.logs, k) by {
      PushOneTaken(su, s, log, k);
      PushOneQueues(su.vt, su.conf, s, log);
    }
    assert Ordered(su.vt, drained.logs) by {
      PushOneOrdered(su.vt, su.conf, s, log);
      DrainOrdered(su.vt, su.conf, first);
    }
    DrainTaken(su, first, k);
    QueueTail(s.queued, first.queued, drained.queued);
    TrimmedUpTo(drained.logs, Excess(su.conf, drained), k);
  }

  lemma QueueTail<T>(q0: seq<T>, q1: seq<T>, q2: seq<T>)
    requires q0 <= q1 <= q2
    ensures q1[|q0|..] + q2[|q1|..] == q2[|q0|..]
  {}

  // ---------------------------------------------------------------- monotonicity

  ghost predicate StrictlyUp(keys: seq<Key>) { forall i, j :: 0 <= i < j < |keys| ==> keys[i] < keys[j] }

  /** The client's log is ordered, the last-finished key bounds every retained key, and the keys that
      passed the guard rise strictly up to it. */
  ghost predicate Monotone(vt: VTable, c: Client) {
    && Ordered(vt, c.core.logs) && c.core.pending == []
    && (c.core.logs != [] ==> c.finished.Some? && KeysUpTo(c.core.logs, c.finished.value))
    && StrictlyUp(c.passed)
    && (c.passed != [] ==> c.finished.Some? && c.passed[|c.passed| - 1] <= c.finished.value)
  }

  ghost predicate NotBelow(before: Option<Key>, after: Option<Key>) {
    before.Some? ==> after.Some? && before.value <= after.value
  }

  /** While a callback runs the queue need not be empty: the last-finished key bounds what waits in it as well. */
  ghost predicate MonotoneInside(vt: VTable, c: Client) {
    && Monotone(vt, c.(core := c.core.(pending := [])))
    && (c.core.pending != [] ==> c.finished.Some? && KeysUpTo(c.core.pending, c.finished.value))
  }

  /** What a callback receives, unlike what it pushes, never goes past the last-finished key. */
  lemma InsideMonotone(su: Setup, c: Client, log: Log)
    requires MonotoneInside(su.vt, c)
    ensures var r := ReceiveInside(su, c, log).0; MonotoneInside(su.vt, r) && NotBelow(c.finished, r.finished)
    ensures var r := ReceiveHoleInside(su, c, log).0; MonotoneInside(su.vt, r) && NotBelow(c.finished, r.finished)
  {
    hide Ordered, HashMatches;
    assert forall x :: x in c.core.pending + [log] <==> x in c.core.pending || x == log;
  }

  /** What an operation must bring for the client to stay monotone: accepted logs no greater than the
      key the client then calls finished, and assigned logs in order. */
  ghost predicate Within(su: Setup, c: Client, op: Op)
    requires su.vt.Settles()
  {
    match op
    case Receive(log) => Admits(su, c, log) ==> KeysUpTo(Accepted(su, c.core, log), log.key)
    case ReceiveHole(log) =>
      AdmitsHole(su, c, log) ==>
        KeysUpTo(Accepted(su, c.core, log), if Finished(c, log.key) then c.finished.value else log.key)
    case Assign(source) => Ordered(su.vt, source)
    case _ => true
  }

  lemma ReceiveMonotone(su: Setup, c: Client, log: Log)
    requires su.vt.Settles() && Monotone(su.vt, c)
    ensures var r := ReceiveLog(su, c, log).0;
            && NotBelow(c.finished, r.finished)
            && (Monotone(su.vt, r) <==> Within(su, c, Receive(log)))
  {
    hide Emplace, Ordered;
    if Admits(su, c, log) {
      EmplaceOrdered(su.vt, su.conf, c.core, log);
      EmplaceBound(su, c.core, log, log.key);
    }
  }

  lemma ReceiveHoleMonotone(su: Setup, c: Client, log: Log)
    requires su.vt.Settles() && Monotone(su.vt, c)
    ensures var r := ReceiveHoleLog(su, c, log).0;
            && NotBelow(c.finished, r.finished)
            && (Monotone(su.vt, r) <==> Within(su, c, ReceiveHole(log)))
  {
    if AdmitsHole(su, c, log) {
      var top := if Finished(c, log.key) then c.finished.value else log.key;
      EmplaceOrdered(su.vt, su.conf, c.core, log);
      EmplaceBound(su, c.core, log, top);
      assert ReceiveHoleLog(su, c, log).0 == c.(core := Emplace(su.vt, su.conf, c.core, log).0, finished := Some(top));
    }
  }

  /** No operation lowers the last-finished key, and an operation keeps the client monotone if and only
      if what it brings is within bounds. */
  lemma StepMonotone(su: Setup, c: Client, op: Op)
    requires su.vt.Settles() && Monotone(su.vt, c)
    ensures NotBelow(c.finished, Step(su, c, op).finished)
    ensures Monotone(su.vt, Step(su, c, op)) <==> Within(su, c, op)
  {
    match op
    case Receive(log) => ReceiveMonotone(su, c, log);
    case ReceiveHole(log) => ReceiveHoleMonotone(su, c, log);
    case Assign(source) => AssignMonotone(su, c, source);
    case CollectLogs(now, limit) =>
      PopManyOrdered(su.vt, c.core, GcCount(su.vt, su.conf, now, None, c.core.logs, limit));
    case _ =>
  }

  lemma AssignMonotone(su: Setup, c: Client, source: seq<Log>)
    requires Monotone(su.vt, c)
    ensures Monotone(su.vt, AssignLogs(c, source)) <==> Ordered(su.vt, source)
  {
    if Ordered(su.vt, source) && source != [] {
      TrimmedUpTo(source, 0, source[|source| - 1].key);
      forall l | l in source ensures l.key <= source[|source| - 1].key {
        var i :| 0 <= i < |source| && source[i] == l;
      }
    }
  }

  ghost predicate MonotoneThroughout(su: Setup, ops: seq<Op>)
    requires su.vt.Settles()
  {
    Monotone(su.vt, Run(su, ops)) && (ops != [] ==> MonotoneThroughout(su, ops[..|ops| - 1]))
  }

  ghost predicate WithinThroughout(su: Setup, ops: seq<Op>)
    requires su.vt.Settles()
  {
    ops != [] ==> Within(su, Run(su, ops[..|ops| - 1]), ops[|ops| - 1]) && WithinThroughout(su, ops[..|ops| - 1])
  }

  /** A run of a client is monotone all the way, so that no key passes the guard of `receive_log` twice and
      the last-finished key bounds the log, if and only if every operation is within bounds. */
  lemma {:induction false} RunMonotone(su: Setup, ops: seq<Op>)
    requires su.vt.Settles()
    ensures MonotoneThroughout(su, ops) <==> WithinThroughout(su, ops)
  {
    if ops != [] {
      RunMonotone(su, ops[..|ops| - 1]);
      if MonotoneThroughout(su, ops[..|ops| - 1]) {
        StepMonotone(su, Run(su, ops[..|ops| - 1]), ops[|ops| - 1]);
      }
    }
  }

  /** What an operation of a client that accepts whatever its actions say must bring, in terms of the pushes
      its callbacks make. */
  ghost predicate PushesWithin(su: Setup, c: Client, op: Op)
    requires su.vt.Settles() && c.core.pending == []
  {
    match op
    case Receive(log) => Admits(su, c, log) ==> KeysUpTo(Pushed(su, c.core, log), log.key)
    case ReceiveHole(log) =>
      AdmitsHole(su, c, log) ==>
        KeysUpTo(Pushed(su, c.core, log), if Finished(c, log.key) then c.finished.value else log.key)
    case Assign(source) => Ordered(su.vt, source)
    case _ => true
  }

  /** For such a client, as clients are by default, the pushes decide. */
  lemma TakenWithin(su: Setup, c: Client, op: Op)
    requires su.vt.Settles() && su.conf.accept && su.vt.Hashed() && Monotone(su.vt, c)
    ensures Within(su, c, op) <==> PushesWithin(su, c, op)
  {
    if op.Receive? || op.ReceiveHole? {
      var log := op.log;
      var top := if Finished(c, log.key) then c.finished.value else log.key;
      if AdmitsHole(su, c, log) && (c.core.logs != [] ==> KeysUpTo(c.core.logs, top)) {
        EmplaceBound(su, c.core, log, top);
        EmplaceTaken(su, c.core, log, top);
      }
    }
  }

  ghost predicate PushesWithinThroughout(su: Setup, ops: seq<Op>)
    requires su.vt.Settles()
  {
    ops != [] ==>
      PushesWithin(su, Run(su, ops[..|ops| - 1]), ops[|ops| - 1]) && PushesWithinThroughout(su, ops[..|ops| - 1])
  }

  /** So a run of such a client is monotone all the way if and only if no callback ever pushes a key above
      the one the client then calls finished. */
  lemma {:induction false} RunTaken(su: Setup, ops: seq<Op>)
    requires su.vt.Settles() && su.conf.accept && su.vt.Hashed()
    ensures MonotoneThroughout(su, ops) <==> PushesWithinThroughout(su, ops)
  {
    if ops != [] {
      var front, op := ops[..|ops| - 1], ops[|ops| - 1];
      RunTaken(su, front);
      if Monotone(su.vt, Run(su, front)) {
        TakenWithin(su, Run(su, front), op);
        StepMonotone(su, Run(su, front), op);
      }
    }
  }

  /** Callbacks push no key above that of the log they run for. */
  ghost predicate PushesBelow(vt: VTable) {
    forall n, l, p :: p in vt.callback(n, l).pushes ==> p.key <= l.key
  }

  lemma PushOneUpTo(vt: VTable, conf: Configure, s: Core, log: Log, k: Key)
    requires PushesBelow(vt) && KeysUpTo(s.logs, k) && KeysUpTo(s.pending, k) && log.key <= k
    ensures var r := PushOne(vt, conf, s, log).0; KeysUpTo(r.logs, k) && KeysUpTo(r.pending, k)
  {
    var r := PushOne(vt, conf, s, log).0;
    var i := FirstAtLeast(s.logs, log.key);
    if !Holds(s.logs, log.key) {
      var sealed := Seal(vt, s.logs, i, log);
      var run := Redo(vt, s.calls, sealed);
      RedoUpTo(vt, s.calls, sealed, k);
      InsertKeepsOthers(vt, s.logs, i, run.log);
      var logs := Insert(vt, s.logs, i, run.log);
      forall j | 0 <= j < |logs| ensures logs[j].key <= k {
        if j < i { assert logs[..i][j] == s.logs[j]; }
        if i < j { assert logs[j].key == s.logs[j - 1].key; }
      }
    }
  }

  lemma RedoUpTo(vt: VTable, calls: nat, log: Log, k: Key)
    requires PushesBelow(vt) && log.key <= k
    ensures KeysUpTo(Redo(vt, calls, log).pushes, k)
  {}

  lemma {:induction false} DrainUpTo(vt: VTable, conf: Configure, s: Core, k: Key)
    requires vt.Settles() && PushesBelow(vt) && KeysUpTo(s.logs, k) && KeysUpTo(s.pending, k)
    ensures KeysUpTo(Drain(vt, conf, s).logs, k)
    decreases if s.calls < vt.quiet then vt.quiet - s.calls else 0, |s.pending|
  {
    if s.pending != [] {
      var rest := s.(pending := s.pending[1..]);
      PushOneSettles(vt, conf, rest, s.pending[0]);
      PushOneUpTo(vt, conf, rest, s.pending[0], k);
      DrainUpTo(vt, conf, PushOne(vt, conf, rest, s.pending[0]).0, k);
    }
  }

  /** Callbacks that push downwards keep every operation of a monotone client within bounds. */
  lemma BelowWithin(su: Setup, c: Client, op: Op)
    requires su.vt.Settles() && PushesBelow(su.vt) && Monotone(su.vt, c)
    requires op.Assign? ==> Ordered(su.vt, op.source)
    ensures Within(su, c, op)
  {
    if op.Receive? || op.ReceiveHole? {
      var log := op.log;
      var top := if Finished(c, log.key) then c.finished.value else log.key;
      var first := if Ignored(c.core, log) then c.core else PushOne(su.vt, su.conf, c.core, log).0;
      PushOneUpTo(su.vt, su.conf, c.core, log, top);
      DrainUpTo(su.vt, su.conf, first, top);
      EmplaceBound(su, c.core, log, top);
    }
  }

  /** So every run of such a client is monotone. */
  lemma {:induction false} BelowMonotone(su: Setup, ops: seq<Op>)
    requires su.vt.Settles() && PushesBelow(su.vt)
    requires forall op :: op in ops && op.Assign? ==> Ordered(su.vt, op.source)
    ensures MonotoneThroughout(su, ops)
  {
    if ops != [] {
      BelowMonotone(su, ops[..|ops| - 1]);
      assert ops[|ops| - 1] in ops;
      BelowWithin(su, Run(su, ops[..|ops| - 1]), ops[|ops| - 1]);
      StepMonotone(su, Run(su, ops[..|ops| - 1]), ops[|ops| - 1]);
    }
  }

  /** A log that passes the guard goes to the end of the log. */
  lemma PassedGuardAppends(vt: VTable, c: Client, log: Log)
    requires Monotone(vt, c) && !Finished(c, log.key)
    ensures FirstAtLeast(c.core.logs, log.key) == |c.core.logs| && !Holds(c.core.logs, log.key)
  {
    FirstAtLeastUnique(c.core.logs, log.key, |c.core.logs|);
  }

  /** A client whose first action pushes a log with key 9. */
  function Pushing(): Setup {
    Setup(
      VTable(false, false, false, (h, k, b) => 0, (k, b) => Meta(0, k, 0), None, map[], Delegate(false, true), false,
             (n: nat, l) => Outcome(Ok, 0, if n == 0 then [Log(9, 0, 0, 0)] else []), 1),
      Configure(0, 0, 0, false), false)
  }

  /** Out of bounds the last-finished key falls below the log: a push from inside an action goes past it. */
  lemma PushedPastFinished()
    ensures Pushing().vt.Settles()
    ensures var c := ReceiveLog(Pushing(), FRESH, Log(1, 0, 0, 0)).0;
            c.finished == Some(1) && c.core.logs == [Log(1, 0, 0, 0), Log(9, 0, 0, 0)]
  {
    var su, one, nine := Pushing(), Log(1, 0, 0, 0), Log(9, 0, 0, 0);
    var first := PushOne(su.vt, su.conf, FRESH.core, one).0;
    assert first == Core([one], [nine], None, None, 1, [one], [], [one], [nine]);
    NineFollows(first);
  }

  lemma NineFollows(s: Core)
    requires s == Core([Log(1, 0, 0, 0)], [Log(9, 0, 0, 0)], None, None, 1, [Log(1, 0, 0, 0)], [], [Log(1, 0, 0, 0)],
                       [Log(9, 0, 0, 0)])
    ensures Drain(Pushing().vt, Pushing().conf, s).logs == [Log(1, 0, 0, 0), Log(9, 0, 0, 0)]
  {
    var su, nine := Pushing(), Log(9, 0, 0, 0);
    FirstAtLeastUnique(s.logs, 9, 1);
    var second := PushOne(su.vt, su.conf, s.(pending := s.pending[1..]), nine).0;
    assert second.logs == [Log(1, 0, 0, 0), nine] && second.pending == [];
    assert Drain(su.vt, su.conf, s) == Drain(su.vt, su.conf, second) == second;
  }

  lemma PushedOutOfBounds()
    ensures !Within(Pushing(), FRESH, Receive(Log(1, 0, 0, 0)))
  {
    PushedPastFinished();
    var c := ReceiveLog(Pushing(), FRESH, Log(1, 0, 0, 0)).0;
    assert c.core.logs[1] in c.core.logs;
    ReceiveMonotone(Pushing(), FRESH, Log(1, 0, 0, 0));
  }
}
