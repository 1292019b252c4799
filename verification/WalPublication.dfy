/** What a publisher does with its log, as values: which logs a broadcast hands out, where every
    accepted log ends up over a whole run, and how a subscription request is answered. */
module WalPublication {
  import opened Wrappers
  import opened WalCommon
  import opened WalChain
  import opened WalSpec

  /** The publisher's view of its log. `sent` is everything handed to `send_logs` for the live
      subscribers, `skipped` what a broadcast passed over because nobody was subscribed, and `lost`
      the logs removed from the front before any broadcast reached them. */
  datatype Pub = Pub(
    core: Core, bound: Option<Key>, holes: seq<Log>,
    sent: seq<Log>, skipped: seq<Log>, lost: seq<Log>)

  const FRESH := Pub(Core([], [], None, None, 0, [], [], [], []), None, [], [], [], [])

  /** A key no broadcast has reached yet. */
  predicate Unreached(bound: Option<Key>, k: Key) { bound.Some? ==> bound.value < k }

  /** A key below the broadcast bound: a log that arrives with it is a hole log. */
  predicate Passed(bound: Option<Key>, k: Key) { bound.Some? && k < bound.value }

  function Over(logs: seq<Log>, bound: Option<Key>): seq<Log> {
    if logs == [] then []
    else (if Unreached(bound, logs[0].key) then [logs[0]] else []) + Over(logs[1..], bound)
  }

  function HolesIn(logs: seq<Log>, bound: Option<Key>): seq<Log> {
    if logs == [] then []
    else (if Passed(bound, logs[0].key) then [logs[0]] else []) + HolesIn(logs[1..], bound)
  }

  lemma {:induction false} HolesInSnoc(logs: seq<Log>, bound: Option<Key>, log: Log)
    ensures HolesIn(logs + [log], bound) == HolesIn(logs, bound) + if Passed(bound, log.key) then [log] else []
  {
    if logs == [] {
      assert logs + [log] == [log];
    } else {
      assert (logs + [log])[1..] == logs[1..] + [log];
      HolesInSnoc(logs[1..], bound, log);
      var head := if Passed(bound, logs[0].key) then [logs[0]] else [];
      var last := if Passed(bound, log.key) then [log] else [];
      assert head + (HolesIn(logs[1..], bound) + last) == (head + HolesIn(logs[1..], bound)) + last;
    }
  }

  /** Index of the first log the next broadcast hands out. */
  function FirstUnsent(logs: seq<Log>, bound: Option<Key>): (i: nat)
    ensures i <= |logs|
  {
    if bound.Some? then FirstAbove(logs, bound.value) else 0
  }

  /** An operation on the publisher; a broadcast is live if somebody is subscribed. */
  datatype Op =
    | Push(log: Log)
    | Collect(now: int, hold: Option<Key>, limit: nat)
    | Broadcast(live: bool)
    | IgnoreUpTo(key: Key)

  /** Follow the log to its new state: new hole logs are listed, removed unsent logs are lost. */
  function Follow(p: Pub, core: Core, enableHole: bool): Pub
    requires p.core.added <= core.added && p.core.popped <= core.popped
  {
    p.(core := core,
       holes := p.holes + if enableHole then HolesIn(core.added[|p.core.added|..], p.bound) else [],
       lost := p.lost + Over(core.popped[|p.core.popped|..], p.bound))
  }

  function Sent(p: Pub, live: bool): Pub {
    var batch := p.core.logs[FirstUnsent(p.core.logs, p.bound)..];
    var out := batch + p.holes;
    p.(holes := [],
       sent := if live then p.sent + out else p.sent,
       skipped := if live then p.skipped else p.skipped + out,
       bound := if batch == [] then p.bound else Some(batch[|batch| - 1].key))
  }

  /** The publisher after one operation. */
  ghost function Step(vt: VTable, conf: Configure, enableHole: bool, p: Pub, op: Op): Pub
    requires vt.Settles() && Consistent(vt, p.core)
  {
    match op
    case Push(log) =>
      EmplaceConsistent(vt, conf, p.core, log);
      Follow(p, Emplace(vt, conf, p.core, log).0, enableHole)
    case Collect(now, hold, limit) =>
      GcSafe(vt, conf, p.core, now, hold, limit);
      Follow(p, Gc(vt, conf, p.core, now, hold, limit), enableHole)
    case Broadcast(live) => Sent(p, live)
    case IgnoreUpTo(key) => p.(core := p.core.(ignore := Some(key)))
  }

  lemma StepConsistent(vt: VTable, conf: Configure, enableHole: bool, p: Pub, op: Op)
    requires vt.Settles() && Consistent(vt, p.core)
    ensures var q := Step(vt, conf, enableHole, p, op);
            Consistent(vt, q.core) && p.core.added <= q.core.added
  {
    match op
    case Push(log) => PushConsistent(vt, conf, enableHole, p, log);
    case Collect(now, hold, limit) => CollectConsistent(vt, conf, enableHole, p, now, hold, limit);
    case Broadcast(_) =>
    case IgnoreUpTo(_) =>
  }

  lemma PushConsistent(vt: VTable, conf: Configure, enableHole: bool, p: Pub, log: Log)
    requires vt.Settles() && Consistent(vt, p.core)
    ensures var core := Step(vt, conf, enableHole, p, Push(log)).core;
            core == Emplace(vt, conf, p.core, log).0 && Consistent(vt, core) && p.core.added <= core.added
  {
    EmplaceConsistent(vt, conf, p.core, log);
  }

  lemma CollectConsistent(vt: VTable, conf: Configure, enableHole: bool, p: Pub,
                          now: int, hold: Option<Key>, limit: nat)
    requires vt.Settles() && Consistent(vt, p.core)
    ensures var core := Step(vt, conf, enableHole, p, Collect(now, hold, limit)).core;
            core == Gc(vt, conf, p.core, now, hold, limit) && Consistent(vt, core) && p.core.added == core.added
  {
    GcSafe(vt, conf, p.core, now, hold, limit);
  }

  /** A run of operations, oldest first. */
  ghost function Run(vt: VTable, conf: Configure, enableHole: bool, ops: seq<Op>): (p: Pub)
    requires vt.Settles()
    ensures Consistent(vt, p.core)
  {
    if ops == [] then FRESH
    else
      var before := Run(vt, conf, enableHole, ops[..|ops| - 1]);
      StepConsistent(vt, conf, enableHole, before, ops[|ops| - 1]);
      Step(vt, conf, enableHole, before, ops[|ops| - 1])
  }

  // ---------------------------------------------------------------- exactly once

  lemma {:induction false} CountOver(logs: seq<Log>, bound: Option<Key>, k: Key)
    ensures Count(Over(logs, bound), k) == if Unreached(bound, k) then Count(logs, k) else 0
  {
    if logs != [] {
      CountOver(logs[1..], bound, k);
      CountConcat(if Unreached(bound, logs[0].key) then [logs[0]] else [], Over(logs[1..], bound), k);
    }
  }

  lemma {:induction false} CountHolesIn(logs: seq<Log>, bound: Option<Key>, k: Key)
    ensures Count(HolesIn(logs, bound), k) == if Passed(bound, k) then Count(logs, k) else 0
  {
    if logs != [] {
      CountHolesIn(logs[1..], bound, k);
      CountConcat(if Passed(bound, logs[0].key) then [logs[0]] else [], HolesIn(logs[1..], bound), k);
    }
  }

  /** What the next broadcast hands out from the log: every unreached log and nothing else. */
  lemma CountBatch(logs: seq<Log>, bound: Option<Key>, k: Key)
    requires Sorted(logs)
    ensures var i := FirstUnsent(logs, bound);
            && Count(logs[i..], k) == (if Unreached(bound, k) then Count(logs, k) else 0)
            && (i < |logs| && logs[|logs| - 1].key < k ==> Count(logs, k) == 0)
  {
    var i := FirstUnsent(logs, bound);
    assert logs == logs[..i] + logs[i..];
    CountConcat(logs[..i], logs[i..], k);
    BatchAbove(logs, bound);
    if Unreached(bound, k) { CountAbsent(logs[..i], k); } else { CountAbsent(logs[i..], k); }
    if i < |logs| && logs[|logs| - 1].key < k { CountAbove(logs, k); }
  }

  lemma BatchAbove(logs: seq<Log>, bound: Option<Key>)
    requires Sorted(logs)
    ensures var i := FirstUnsent(logs, bound);
            && (forall l :: l in logs[..i] ==> !Unreached(bound, l.key))
            && (forall l :: l in logs[i..] ==> Unreached(bound, l.key))
  {}

  lemma CountAbove(logs: seq<Log>, k: Key)
    requires Sorted(logs) && logs != [] && logs[|logs| - 1].key < k
    ensures Count(logs, k) == 0
  {
    forall l | l in logs ensures l.key != k {
      var j :| 0 <= j < |logs| && logs[j] == l;
    }
    CountAbsent(logs, k);
  }

  /** Every accepted log is in exactly one of five places: sent, skipped, waiting in the hole list,
      waiting above the bound, or lost; and the bound is the key of an accepted log. */
  ghost predicate Placed(p: Pub) {
    && (forall k :: Count(p.core.added, k) ==
          Count(p.sent, k) + Count(p.skipped, k) + Count(p.holes, k) + Count(Over(p.core.logs, p.bound), k)
          + Count(p.lost, k))
    && (p.bound.Some? ==> 0 < Count(p.core.added, p.bound.value))
  }

  /** No key was accepted twice. */
  ghost predicate KeysFresh(core: Core) { forall k :: Count(core.added, k) <= 1 }

  lemma FollowPlaced(vt: VTable, p: Pub, core: Core)
    requires Consistent(vt, p.core) && Consistent(vt, core) && Placed(p) && KeysFresh(core)
    requires p.core.added <= core.added && p.core.popped <= core.popped
    ensures Placed(Follow(p, core, true))
  {
    var q := Follow(p, core, true);
    var added := core.added[|p.core.added|..];
    var popped := core.popped[|p.core.popped|..];
    assert core.added == p.core.added + added && core.popped == p.core.popped + popped;
    forall k ensures Count(q.core.added, k) ==
        Count(q.sent, k) + Count(q.skipped, k) + Count(q.holes, k) + Count(Over(q.core.logs, q.bound), k)
        + Count(q.lost, k)
    {
      FollowCount(p, core, added, popped, k);
    }
    if p.bound.Some? { CountConcat(p.core.added, added, p.bound.value); }
  }

  lemma FollowCount(p: Pub, core: Core, added: seq<Log>, popped: seq<Log>, k: Key)
    requires core.added == p.core.added + added && core.popped == p.core.popped + popped
    requires Accounted(p.core) && Accounted(core) && Placed(p) && Count(core.added, k) <= 1
    ensures Count(core.added, k) ==
        Count(p.sent, k) + Count(p.skipped, k) + Count(p.holes + HolesIn(added, p.bound), k)
        + Count(Over(core.logs, p.bound), k) + Count(p.lost + Over(popped, p.bound), k)
  {
    CountConcat(p.core.added, added, k);
    CountConcat(p.core.popped, popped, k);
    CountConcat(p.holes, HolesIn(added, p.bound), k);
    CountConcat(p.lost, Over(popped, p.bound), k);
    CountHolesIn(added, p.bound, k);
    CountOver(popped, p.bound, k);
    CountOver(core.logs, p.bound, k);
    CountOver(p.core.logs, p.bound, k);
  }

  /** A broadcast moves every unreached log and every hole log, and leaves no log above the bound. */
  lemma SentCount(p: Pub, live: bool, k: Key)
    requires Sorted(p.core.logs)
    ensures var q := Sent(p, live);
            && Count(Over(q.core.logs, q.bound), k) == 0 && Count(q.holes, k) == 0
            && Count(q.sent, k) + Count(q.skipped, k)
            == Count(p.sent, k) + Count(p.skipped, k) + Count(Over(p.core.logs, p.bound), k) + Count(p.holes, k)
  {
    var q := Sent(p, live);
    var batch := p.core.logs[FirstUnsent(p.core.logs, p.bound)..];
    CountBatch(p.core.logs, p.bound, k);
    CountConcat(batch, p.holes, k);
    CountConcat(p.sent, batch + p.holes, k);
    CountConcat(p.skipped, batch + p.holes, k);
    CountOver(p.core.logs, p.bound, k);
    CountOver(p.core.logs, q.bound, k);
  }

  lemma SentPlaced(vt: VTable, p: Pub, live: bool)
    requires Consistent(vt, p.core) && Placed(p)
    ensures Placed(Sent(p, live))
    ensures forall k :: Count(Over(Sent(p, live).core.logs, Sent(p, live).bound), k) == 0
  {
    assert Sorted(p.core.logs);
    hide Count, Over, FirstUnsent, Consistent, Sorted, Chained;
    var q := Sent(p, live);
    var batch := p.core.logs[FirstUnsent(p.core.logs, p.bound)..];
    forall k { SentCount(p, live, k); }
    if batch != [] {
      var last := p.core.logs[|p.core.logs| - 1];
      assert batch[|batch| - 1] == last;
      CountPositive(p.core.logs, last.key);
    }
  }

  lemma {:induction false} RunPlaced(vt: VTable, conf: Configure, ops: seq<Op>)
    requires vt.Settles() && KeysFresh(Run(vt, conf, true, ops).core)
    ensures Placed(Run(vt, conf, true, ops))
  {
    if ops != [] {
      var op := ops[|ops| - 1];
      var p := Run(vt, conf, true, ops[..|ops| - 1]);
      var q := Run(vt, conf, true, ops);
      StepConsistent(vt, conf, true, p, op);
      assert q.core.added == p.core.added + q.core.added[|p.core.added|..];
      forall k ensures Count(p.core.added, k) <= 1 {
        CountConcat(p.core.added, q.core.added[|p.core.added|..], k);
      }
      RunPlaced(vt, conf, ops[..|ops| - 1]);
      match op
      case Push(log) =>
        EmplaceConsistent(vt, conf, p.core, log);
        FollowPlaced(vt, p, q.core);
      case Collect(now, hold, limit) =>
        GcSafe(vt, conf, p.core, now, hold, limit);
        FollowPlaced(vt, p, q.core);
      case Broadcast(live) => SentPlaced(vt, p, live);
      case IgnoreUpTo(_) =>
    }
  }

  lemma {:induction false} RunSkipsNothing(vt: VTable, conf: Configure, ops: seq<Op>)
    requires vt.Settles() && forall op :: op in ops && op.Broadcast? ==> op.live
    ensures Run(vt, conf, true, ops).skipped == []
  {
    if ops != [] {
      RunSkipsNothing(vt, conf, ops[..|ops| - 1]);
      assert ops[|ops| - 1] in ops;
    }
  }

  // ---------------------------------------------------------------- with the content it was accepted with

  ghost predicate Known(added: seq<Log>, l: Log) { exists a :: a in added && SameContent(a, l) }

  ghost predicate AllKnown(added: seq<Log>, logs: seq<Log>) { forall l :: l in logs ==> Known(added, l) }

  lemma KnownGrows(a: seq<Log>, b: seq<Log>, logs: seq<Log>)
    requires a <= b && AllKnown(a, logs)
    ensures AllKnown(b, logs)
  {
    forall l | l in logs ensures Known(b, l) {
      var x :| x in a && SameContent(x, l);
      assert x in b;
    }
  }

  lemma PushOneKnown(vt: VTable, conf: Configure, s: Core, log: Log)
    requires AllKnown(s.added, s.logs)
    ensures var r := PushOne(vt, conf, s, log).0; s.added <= r.added && AllKnown(r.added, r.logs)
  {
    var r := PushOne(vt, conf, s, log).0;
    PushOneBalance(vt, conf, s, log, 0);
    KnownGrows(s.added, r.added, s.logs);
    var i := FirstAtLeast(s.logs, log.key);
    if r.added != s.added {
      PushOneAccepted(vt, conf, s, log);
      InsertKeepsOthers(vt, s.logs, i, r.added[|s.added|]);
    }
    forall j | 0 <= j < |r.logs| ensures Known(r.added, r.logs[j]) {
      if r.added != s.added && j == i {
        assert r.added[|s.added|] in r.added;
      } else {
        var l := s.logs[if r.added != s.added && j > i then j - 1 else j];
        assert l in s.logs && SameContent(l, r.logs[j]);
        var a :| a in r.added && SameContent(a, l);
      }
    }
  }

  lemma {:induction false} DrainKnown(vt: VTable, conf: Configure, s: Core)
    requires vt.Settles() && AllKnown(s.added, s.logs)
    ensures AllKnown(Drain(vt, conf, s).added, Drain(vt, conf, s).logs)
    decreases if s.calls < vt.quiet then vt.quiet - s.calls else 0, |s.pending|
  {
    if s.pending != [] {
      var rest := s.(pending := s.pending[1..]);
      PushOneSettles(vt, conf, rest, s.pending[0]);
      PushOneKnown(vt, conf, rest, s.pending[0]);
      DrainKnown(vt, conf, PushOne(vt, conf, rest, s.pending[0]).0);
    }
  }

  lemma {:induction false} HolesMembers(logs: seq<Log>, bound: Option<Key>)
    ensures forall l :: l in HolesIn(logs, bound) ==> l in logs
  {
    if logs != [] { HolesMembers(logs[1..], bound); }
  }

  /** Everything the publisher holds, lists as a hole or has sent has the content of an accepted log. */
  ghost predicate KnownAll(p: Pub) {
    AllKnown(p.core.added, p.core.logs) && AllKnown(p.core.added, p.holes) && AllKnown(p.core.added, p.sent)
  }

  lemma FollowKnown(p: Pub, core: Core, enableHole: bool)
    requires KnownAll(p) && AllKnown(core.added, core.logs)
    requires p.core.added <= core.added && p.core.popped <= core.popped
    ensures KnownAll(Follow(p, core, enableHole))
  {
    KnownGrows(p.core.added, core.added, p.holes);
    KnownGrows(p.core.added, core.added, p.sent);
    var news := core.added[|p.core.added|..];
    HolesMembers(news, p.bound);
    forall l | l in HolesIn(news, p.bound) ensures Known(core.added, l) {
      assert l in core.added && SameContent(l, l);
    }
  }

  lemma StepKnown(vt: VTable, conf: Configure, enableHole: bool, p: Pub, op: Op)
    requires vt.Settles() && Consistent(vt, p.core) && KnownAll(p)
    ensures KnownAll(Step(vt, conf, enableHole, p, op))
  {
    match op
    case Push(log) =>
      hide Emplace, Follow, KnownAll, Consistent;
      EmplaceConsistent(vt, conf, p.core, log);
      KnownParts(p);
      EmplaceKnown(vt, conf, p.core, log);
      FollowKnown(p, Emplace(vt, conf, p.core, log).0, enableHole);
    case Collect(now, hold, limit) =>
      GcSafe(vt, conf, p.core, now, hold, limit);
      FollowKnown(p, Gc(vt, conf, p.core, now, hold, limit), enableHole);
    case Broadcast(live) => SentKnown(p, live);
    case IgnoreUpTo(_) =>
  }

  lemma KnownParts(p: Pub)
    requires KnownAll(p)
    ensures AllKnown(p.core.added, p.core.logs)
  {}

  lemma SentKnown(p: Pub, live: bool)
    requires KnownAll(p)
    ensures KnownAll(Sent(p, live))
  {
    var batch := p.core.logs[FirstUnsent(p.core.logs, p.bound)..];
    assert forall l :: l in p.sent + (batch + p.holes) ==> l in p.sent || l in p.core.logs || l in p.holes;
  }

  lemma EmplaceKnown(vt: VTable, conf: Configure, s: Core, log: Log)
    requires vt.Settles() && AllKnown(s.added, s.logs)
    ensures var r := Emplace(vt, conf, s, log).0; AllKnown(r.added, r.logs)
  {
    var first := if Ignored(s, log) then s else PushOne(vt, conf, s, log).0;
    PushOneKnown(vt, conf, s, log);
    DrainKnown(vt, conf, first);
    var drained := Drain(vt, conf, first);
    assert forall l :: l in PopMany(drained, Excess(conf, drained)).logs ==> l in drained.logs;
  }

  lemma {:induction false} RunKnown(vt: VTable, conf: Configure, enableHole: bool, ops: seq<Op>)
    requires vt.Settles()
    ensures KnownAll(Run(vt, conf, enableHole, ops))
  {
    if ops != [] {
      RunKnown(vt, conf, enableHole, ops[..|ops| - 1]);
      StepKnown(vt, conf, enableHole, Run(vt, conf, enableHole, ops[..|ops| - 1]), ops[|ops| - 1]);
    }
  }

  lemma {:induction false} CountOnce(logs: seq<Log>, a: Log, b: Log)
    requires a in logs && b in logs && a.key == b.key && Count(logs, a.key) <= 1
    ensures a == b
  {
    if a != logs[0] && b != logs[0] {
      CountOnce(logs[1..], a, b);
    } else if a != b {
      var other := if a == logs[0] then b else a;
      assert other in logs[1..];
      var i :| 0 <= i < |logs[1..]| && logs[1..][i] == other;
      CountPositive(logs[1..], a.key);
    }
  }

  /** Exactly-once broadcast. Over any run of pushes, collections and broadcasts to a non-empty set of
      subscribers, with hole logs enabled and no key accepted twice: once a broadcast ends the run,
      every accepted log has been handed out exactly once, unless it was removed from the front before
      any broadcast reached it, and then it was never handed out. What is handed out under its key has
      the content it was accepted with. */
  lemma ExactlyOnce(vt: VTable, conf: Configure, ops: seq<Op>, l: Log)
    requires vt.Settles() && KeysFresh(Run(vt, conf, true, ops + [Broadcast(true)]).core)
    requires forall op :: op in ops && op.Broadcast? ==> op.live
    requires l in Run(vt, conf, true, ops + [Broadcast(true)]).core.added
    ensures var p := Run(vt, conf, true, ops + [Broadcast(true)]);
            && Count(p.sent, l.key) + Count(p.lost, l.key) == 1
            && Count(p.lost, l.key) <= Count(p.core.popped, l.key)
            && (forall x :: x in p.sent && x.key == l.key ==> SameContent(x, l))
  {
    var all := ops + [Broadcast(true)];
    var p := Run(vt, conf, true, all);
    assert all[..|all| - 1] == ops;
    RunPlaced(vt, conf, all);
    RunSkipsNothing(vt, conf, all);
    var before := Run(vt, conf, true, ops);
    RunPlaced(vt, conf, ops);
    SentPlaced(vt, before, true);
    CountPositive(p.core.added, l.key);
    assert Count(Over(p.core.logs, p.bound), l.key) == 0;
    RunLoss(vt, conf, true, all, l.key);
    RunKnown(vt, conf, true, all);
    forall x | x in p.sent && x.key == l.key ensures SameContent(x, l) {
      var a :| a in p.core.added && SameContent(a, x);
      CountOnce(p.core.added, a, l);
    }
  }

  /** Only removed logs are lost. */
  lemma {:induction false} RunLoss(vt: VTable, conf: Configure, enableHole: bool, ops: seq<Op>, k: Key)
    requires vt.Settles()
    ensures var p := Run(vt, conf, enableHole, ops); Count(p.lost, k) <= Count(p.core.popped, k)
  {
    if ops != [] {
      RunLoss(vt, conf, enableHole, ops[..|ops| - 1], k);
      var p := Run(vt, conf, enableHole, ops[..|ops| - 1]);
      var q := Run(vt, conf, enableHole, ops);
      match ops[|ops| - 1]
      case Push(log) => EmplaceConsistent(vt, conf, p.core, log); PoppedLoss(p, q.core, enableHole, k);
      case Collect(now, hold, limit) =>
        GcSafe(vt, conf, p.core, now, hold, limit);
        PoppedLoss(p, q.core, enableHole, k);
      case Broadcast(_) =>
      case IgnoreUpTo(_) =>
    }
  }

  lemma PoppedLoss(p: Pub, core: Core, enableHole: bool, k: Key)
    requires p.core.added <= core.added && p.core.popped <= core.popped
    requires Count(p.lost, k) <= Count(p.core.popped, k)
    ensures Count(Follow(p, core, enableHole).lost, k) <= Count(core.popped, k)
  {
    var popped := core.popped[|p.core.popped|..];
    assert core.popped == p.core.popped + popped;
    CountConcat(p.core.popped, popped, k);
    CountConcat(p.lost, Over(popped, p.bound), k);
    CountOver(popped, p.bound, k);
  }

  // ---------------------------------------------------------------- when a log is lost

  lemma {:induction false} OverNothing(logs: seq<Log>, bound: Option<Key>)
    requires forall l :: l in logs ==> !Unreached(bound, l.key)
    ensures Over(logs, bound) == []
  {
    if logs != [] { OverNothing(logs[1..], bound); }
  }

  lemma {:induction false} OverSome(logs: seq<Log>, bound: Option<Key>, i: nat)
    requires i < |logs| && Unreached(bound, logs[i].key)
    ensures Over(logs, bound) != []
  {
    if i > 0 { OverSome(logs[1..], bound, i - 1); }
  }

  /** A push loses a log exactly when trimming begins with more logs above the bound than the size
      limit allows. */
  lemma PushLossless(vt: VTable, conf: Configure, enableHole: bool, p: Pub, log: Log)
    requires vt.Settles() && Consistent(vt, p.core)
    ensures var first := if Ignored(p.core, log) then p.core else PushOne(vt, conf, p.core, log).0;
            var logs := Drain(vt, conf, first).logs;
            Step(vt, conf, enableHole, p, Push(log)).lost == p.lost <==>
              conf.maxSize == 0 || |logs| - FirstUnsent(logs, p.bound) <= conf.maxSize
  {
    var first := if Ignored(p.core, log) then p.core else PushOne(vt, conf, p.core, log).0;
    PushOneOrdered(vt, conf, p.core, log);
    PushOneBalance(vt, conf, p.core, log, 0);
    DrainOrdered(vt, conf, first);
    DrainRemoved(vt, conf, first);
    var drained := Drain(vt, conf, first);
    hide PushOne, Drain, FirstAbove, FirstUnsent, Over, Accounted;
    PopLoss(p, drained, Excess(conf, drained));
  }

  /** Removing `n` logs loses one exactly if that reaches beyond the first unsent one. */
  lemma PopLoss(p: Pub, s: Core, n: nat)
    requires Sorted(s.logs) && s.popped == p.core.popped && n <= |s.logs|
    ensures var r := PopMany(s, n);
            && p.core.popped <= r.popped
            && (p.lost + Over(r.popped[|p.core.popped|..], p.bound) == p.lost <==> n <= FirstUnsent(s.logs, p.bound))
  {
    var popped := PopMany(s, n).popped[|p.core.popped|..];
    assert popped == s.logs[..n];
    var i := FirstUnsent(s.logs, p.bound);
    if n <= i {
      OverNothing(popped, p.bound);
    } else {
      OverSome(popped, p.bound, i);
      assert |p.lost + Over(popped, p.bound)| > |p.lost|;
    }
  }

  /** Logs no broadcast has reached. */
  function Unsent(p: Pub): int { |p.core.logs| - FirstUnsent(p.core.logs, p.bound) }

  /** A push would put the log into the log: it is not ignored, its key is not held, and its callbacks agree or
      are overruled. */
  predicate Lands(vt: VTable, conf: Configure, s: Core, log: Log) {
    && !Ignored(s, log) && !Holds(s.logs, log.key)
    && Accepts(vt, conf, Redo(vt, s.calls, Seal(vt, s.logs, FirstAtLeast(s.logs, log.key), log)).code)
  }

  /** An insertion adds one to the logs above the bound, if it is above the bound itself. */
  lemma InsertUnsent(vt: VTable, logs: seq<Log>, log: Log, bound: Option<Key>)
    requires Sorted(logs) && !Holds(logs, log.key)
    ensures var i := FirstAtLeast(logs, log.key);
            && |Insert(vt, logs, i, log)| == |logs| + 1
            && FirstUnsent(Insert(vt, logs, i, log), bound)
            == FirstUnsent(logs, bound) + if Unreached(bound, log.key) then 0 else 1
  {
    hide Insert, FirstAbove, FirstAtLeast;
    var i := FirstAtLeast(logs, log.key);
    InsertKeepsOthers(vt, logs, i, log);
    var r := Insert(vt, logs, i, log);
    if bound.Some? {
      forall j | 0 <= j < i ensures r[j].key == logs[j].key { assert r[j] == r[..i][j]; }
      forall j | i < j < |r| ensures r[j].key == logs[j - 1].key {
        assert r[j - 1 + 1] == logs[j - 1].(hash := r[j].hash);
      }
      ShiftAbove(logs, r, i, log.key, bound.value);
    }
  }

  lemma ShiftAbove(logs: seq<Log>, r: seq<Log>, i: nat, k: Key, bound: Key)
    requires Sorted(logs) && i == FirstAtLeast(logs, k) && |r| == |logs| + 1 && !Holds(logs, k)
    requires forall j :: 0 <= j < i ==> r[j].key == logs[j].key
    requires r[i].key == k && forall j :: i < j < |r| ==> r[j].key == logs[j - 1].key
    ensures FirstAbove(r, bound) == FirstAbove(logs, bound) + if bound < k then 0 else 1
  {
    hide FirstAbove, FirstAtLeast;
    var f := FirstAbove(logs, bound);
    var n := f + if bound < k then 0 else 1;
    assert if bound < k then f <= i else i <= f by {
      if i < |logs| { AboveFrom(logs, bound, i); }
      if f < |logs| && f < i { AboveFrom(logs, bound, f); }
      if i < f { AboveFrom(logs, bound, i); }
    }
    forall j | 0 <= j < |r| ensures if j < n then r[j].key <= bound else bound < r[j].key {
      if j != i { AboveFrom(logs, bound, if j < i then j else j - 1); }
    }
    FirstAboveUnique(r, bound, n);
  }

  lemma AboveFrom(logs: seq<Log>, bound: Key, j: nat)
    requires Sorted(logs) && j < |logs|
    ensures bound < logs[j].key <==> FirstAbove(logs, bound) <= j
  {}

  /** With callbacks that do not push, what there is before the push decides: it loses a log exactly when the logs
      no broadcast has reached, with the pushed one if that is accepted above the bound, exceed the size limit. */
  lemma SilentLossless(vt: VTable, conf: Configure, enableHole: bool, p: Pub, log: Log)
    requires vt.Settles() && Consistent(vt, p.core) && Silent(vt) && p.core.pending == []
    ensures Step(vt, conf, enableHole, p, Push(log)).lost == p.lost <==>
              conf.maxSize == 0
              || Unsent(p) + (if Lands(vt, conf, p.core, log) && Unreached(p.bound, log.key) then 1 else 0)
                 <= conf.maxSize
  {
    hide Insert, Step, Drain, PushOne, FirstUnsent;
    PushLossless(vt, conf, enableHole, p, log);
    if !Ignored(p.core, log) { SilentUnsent(vt, conf, p.core, log, p.bound); }
    DrainNothing(vt, conf, if Ignored(p.core, log) then p.core else PushOne(vt, conf, p.core, log).0);
  }

  lemma DrainNothing(vt: VTable, conf: Configure, s: Core)
    requires vt.Settles() && s.pending == []
    ensures Drain(vt, conf, s) == s
  {}

  /** What one push to such a log adds. */
  lemma SilentUnsent(vt: VTable, conf: Configure, s: Core, log: Log, bound: Option<Key>)
    requires Sorted(s.logs) && Silent(vt) && s.pending == [] && !Ignored(s, log)
    ensures var r := PushOne(vt, conf, s, log).0;
            && r.pending == []
            && |r.logs| - FirstUnsent(r.logs, bound) == |s.logs| - FirstUnsent(s.logs, bound)
               + if Lands(vt, conf, s, log) && Unreached(bound, log.key) then 1 else 0
  {
    hide Insert, FirstUnsent;
    var i := FirstAtLeast(s.logs, log.key);
    var run := Redo(vt, s.calls, Seal(vt, s.logs, i, log));
    assert run.pushes == [];
    if Lands(vt, conf, s, log) {
      InsertUnsent(vt, s.logs, run.log, bound);
    } else {
      UnsentSame(s.logs, PushOne(vt, conf, s, log).0.logs, bound);
    }
  }

  lemma UnsentSame(a: seq<Log>, b: seq<Log>, bound: Option<Key>)
    requires |a| == |b| && forall i :: 0 <= i < |a| ==> a[i].key == b[i].key
    ensures FirstUnsent(a, bound) == FirstUnsent(b, bound)
  {
    if bound.Some? { FirstAboveUnique(a, bound.value, FirstAbove(b, bound.value)); }
  }

  /** A collection from a fully broadcast log loses nothing, whatever it removes. */
  lemma CollectReached(vt: VTable, conf: Configure, enableHole: bool, p: Pub, now: int, hold: Option<Key>, limit: nat)
    requires vt.Settles() && Consistent(vt, p.core)
    requires forall l :: l in p.core.logs ==> !Unreached(p.bound, l.key)
    ensures Step(vt, conf, enableHole, p, Collect(now, hold, limit)).lost == p.lost
  {
    hide Gc, Consistent, HolesIn;
    GcSafe(vt, conf, p.core, now, hold, limit);
    var r := Gc(vt, conf, p.core, now, hold, limit);
    var n := |p.core.logs| - |r.logs|;
    assert r.popped[|p.core.popped|..] == p.core.logs[..n];
    OverNothing(p.core.logs[..n], p.bound);
  }

  /** So does one right after a broadcast. */
  lemma CollectAfterBroadcast(vt: VTable, conf: Configure, enableHole: bool, p: Pub, live: bool,
                              now: int, hold: Option<Key>, limit: nat)
    requires vt.Settles() && Consistent(vt, p.core)
    ensures var q := Sent(p, live); Step(vt, conf, enableHole, q, Collect(now, hold, limit)).lost == q.lost
  {
    SentReaches(p, live);
    CollectReached(vt, conf, enableHole, Sent(p, live), now, hold, limit);
  }

  lemma AllReached(logs: seq<Log>, bound: Option<Key>)
    requires Sorted(logs)
    ensures (forall l :: l in logs ==> !Unreached(bound, l.key)) <==> FirstUnsent(logs, bound) == |logs|
  {
    var i := FirstUnsent(logs, bound);
    if i < |logs| { assert logs[i] in logs; }
  }

  /** After a broadcast no log is above the bound. */
  lemma SentReaches(p: Pub, live: bool)
    requires Sorted(p.core.logs)
    ensures forall l :: l in p.core.logs ==> !Unreached(Sent(p, live).bound, l.key)
  {
    var i := FirstUnsent(p.core.logs, p.bound);
    var batch := p.core.logs[i..];
    if batch != [] {
      assert batch[|batch| - 1] == p.core.logs[|p.core.logs| - 1];
    }
  }

  /** Nor does a collection that holds at the broadcast bound, within the size limit and with readable
      meta data. */
  lemma CollectHeldAtBound(vt: VTable, conf: Configure, enableHole: bool, p: Pub, now: int, limit: nat)
    requires vt.Settles() && Consistent(vt, p.core) && MetaAgrees(vt) && p.bound.Some?
    requires |p.core.logs| <= MaxSizeOf(conf)
    requires forall l :: l in p.core.logs ==> vt.meta(l.key, l.body).Meta?
    ensures Step(vt, conf, enableHole, p, Collect(now, p.bound, limit)).lost == p.lost
  {
    GcSafe(vt, conf, p.core, now, p.bound, limit);
    var r := Gc(vt, conf, p.core, now, p.bound, limit);
    var n := |p.core.logs| - |r.logs|;
    assert r.popped[|p.core.popped|..] == p.core.logs[..n];
    OverNothing(p.core.logs[..n], p.bound);
  }

  // ---------------------------------------------------------------- answering a subscription

  /** What a live subscriber is sent when it asks for everything after a checkpoint. */
  datatype Reply = Snapshot | Logs(logs: seq<Log>)

  /** The answer to a request: `force` is the verdict of the user's own snapshot rule, `hash` the
      checkpoint's hash code if the request carries one. */
  function Answer(vt: VTable, core: Core, checkpoint: Key, hash: Option<Hash>, force: bool): Reply {
    if force then Snapshot
    else if core.removed.Some? && checkpoint < core.removed.value then Snapshot
    else
      var i := FirstAtLeast(core.logs, checkpoint);
      if i < |core.logs| && core.logs[i].key == checkpoint then
        if hash.Some? && vt.Hashed() && hash.value != core.logs[i].hash then Snapshot
        else Logs(core.logs[i + 1..])
      else Logs(core.logs[i..])
  }

  lemma AnswerIsSuffix(vt: VTable, core: Core, checkpoint: Key, hash: Option<Hash>, force: bool)
    requires Sorted(core.logs) && Answer(vt, core, checkpoint, hash, force).Logs?
    ensures Answer(vt, core, checkpoint, hash, force).logs == core.logs[FirstAbove(core.logs, checkpoint)..]
  {
    var i := FirstAtLeast(core.logs, checkpoint);
    FirstAboveUnique(core.logs, checkpoint, if i < |core.logs| && core.logs[i].key == checkpoint then i + 1 else i);
  }

  /** Catch-up is complete: an answer that is not a snapshot holds, in order, exactly the retained logs
      above the checkpoint, and every log above the checkpoint that was ever accepted is among them. */
  lemma CatchUpComplete(vt: VTable, conf: Configure, enableHole: bool, ops: seq<Op>,
                        checkpoint: Key, hash: Option<Hash>, force: bool)
    requires vt.Settles()
    requires Answer(vt, Run(vt, conf, enableHole, ops).core, checkpoint, hash, force).Logs?
    ensures var core := Run(vt, conf, enableHole, ops).core;
            var sent := Answer(vt, core, checkpoint, hash, force).logs;
            && sent == core.logs[FirstAbove(core.logs, checkpoint)..]
            && (forall k :: Count(sent, k) == if checkpoint < k then Count(core.added, k) else 0)
  {
    var core := Run(vt, conf, enableHole, ops).core;
    AnswerIsSuffix(vt, core, checkpoint, hash, force);
    forall k { AcceptedAbove(core, checkpoint, k); }
  }

  /** An accepted log above the last-removed key is still held. */
  lemma AcceptedAbove(core: Core, checkpoint: Key, k: Key)
    requires Sorted(core.logs) && Accounted(core)
    requires core.removed.Some? ==> core.removed.value <= checkpoint
    ensures Count(core.logs[FirstAbove(core.logs, checkpoint)..], k)
         == if checkpoint < k then Count(core.added, k) else 0
  {
    CountBatch(core.logs, Some(checkpoint), k);
    CountPositive(core.popped, k);
  }

  /** A snapshot is sent exactly when the user's rule asks for one, when the checkpoint is older than
      the last removed log, or when the publisher still holds the checkpoint log with another hash. */
  lemma SnapshotExactly(vt: VTable, core: Core, checkpoint: Key, hash: Option<Hash>, force: bool)
    requires Sorted(core.logs)
    ensures Answer(vt, core, checkpoint, hash, force).Snapshot? <==>
              || force
              || (core.removed.Some? && checkpoint < core.removed.value)
              || (hash.Some? && vt.Hashed()
                  && exists l :: l in core.logs && l.key == checkpoint && l.hash != hash.value)
  {
    var i := FirstAtLeast(core.logs, checkpoint);
    if l :| l in core.logs && l.key == checkpoint {
      var j :| 0 <= j < |core.logs| && core.logs[j] == l;
      assert i == j by { FirstAtLeastUnique(core.logs, checkpoint, j); }
    }
    if i < |core.logs| { assert core.logs[i] in core.logs; }
  }

  // ---------------------------------------------------------------- resuming from a checkpoint

  /** The whole chain, first log included, was computed by the hash callbacks. */
  ghost predicate Rooted(vt: VTable, logs: seq<Log>) {
    vt.Hashed() ==> exists seed :: ChainedFrom(vt.next, seed, logs)
  }

  lemma PushOneRooted(vt: VTable, conf: Configure, s: Core, log: Log)
    requires Ordered(vt, s.logs) && Rooted(vt, s.logs)
    ensures Rooted(vt, PushOne(vt, conf, s, log).0.logs)
  {
    PushOneOrdered(vt, conf, s, log);
    if vt.Hashed() {
      var seed :| ChainedFrom(vt.next, seed, s.logs);
      var r := PushOne(vt, conf, s, log).0;
      if r.logs != [] {
        var root := if s.logs != [] && r.logs[0].key == s.logs[0].key then seed else INITIAL_HASH;
        assert ChainedFrom(vt.next, root, r.logs);
      }
    }
  }

  lemma {:induction false} DrainRooted(vt: VTable, conf: Configure, s: Core)
    requires vt.Settles() && Ordered(vt, s.logs) && Rooted(vt, s.logs)
    ensures Rooted(vt, Drain(vt, conf, s).logs)
    decreases if s.calls < vt.quiet then vt.quiet - s.calls else 0, |s.pending|
  {
    if s.pending != [] {
      var rest := s.(pending := s.pending[1..]);
      PushOneSettles(vt, conf, rest, s.pending[0]);
      PushOneOrdered(vt, conf, rest, s.pending[0]);
      PushOneRooted(vt, conf, rest, s.pending[0]);
      DrainRooted(vt, conf, PushOne(vt, conf, rest, s.pending[0]).0);
    }
  }

  lemma PopManyRooted(vt: VTable, s: Core, n: nat)
    requires Ordered(vt, s.logs) && Rooted(vt, s.logs) && n <= |s.logs|
    ensures Rooted(vt, PopMany(s, n).logs)
  {
    if vt.Hashed() && 0 < n {
      assert ChainedFrom(vt.next, s.logs[n - 1].hash, s.logs[n..]);
    }
  }

  lemma {:induction false} RunRooted(vt: VTable, conf: Configure, enableHole: bool, ops: seq<Op>)
    requires vt.Settles()
    ensures Rooted(vt, Run(vt, conf, enableHole, ops).core.logs)
  {
    if ops == [] {
      assert ChainedFrom(vt.next, INITIAL_HASH, []);
    } else {
      RunRooted(vt, conf, enableHole, ops[..|ops| - 1]);
      var p := Run(vt, conf, enableHole, ops[..|ops| - 1]);
      match ops[|ops| - 1]
      case Push(log) =>
        var first := if Ignored(p.core, log) then p.core else PushOne(vt, conf, p.core, log).0;
        PushOneOrdered(vt, conf, p.core, log);
        PushOneRooted(vt, conf, p.core, log);
        DrainOrdered(vt, conf, first);
        DrainRooted(vt, conf, first);
        PopManyRooted(vt, Drain(vt, conf, first), Excess(conf, Drain(vt, conf, first)));
      case Collect(now, hold, limit) =>
        PopManyRooted(vt, p.core, GcCount(vt, conf, now, hold, p.core.logs, limit));
      case Broadcast(_) =>
      case IgnoreUpTo(_) =>
    }
  }

  /** Resume soundness. A client whose own chain ends in the checkpoint log asks with that log's hash.
      If the publisher holds the checkpoint log and does not answer with a snapshot, both hold the same
      records, walking back from the checkpoint as far as both reach. */
  lemma ResumeSound(vt: VTable, conf: Configure, enableHole: bool, ops: seq<Op>,
                    seed: Hash, client: seq<Log>, i: nat, force: bool, n: nat)
    requires vt.Settles() && vt.Hashed() && CollisionFree(vt.next)
    requires ChainedFrom(vt.next, seed, client) && client != []
    requires var logs := Run(vt, conf, enableHole, ops).core.logs;
             i < |logs| && logs[i].key == client[|client| - 1].key
    requires var last := client[|client| - 1];
             Answer(vt, Run(vt, conf, enableHole, ops).core, last.key, Some(last.hash), force).Logs?
    requires n <= i && n < |client|
    ensures SameRecord(Run(vt, conf, enableHole, ops).core.logs[i - n], client[|client| - 1 - n])
  {
    RunRooted(vt, conf, enableHole, ops);
    ResumeFrom(vt, Run(vt, conf, enableHole, ops).core, seed, client, i, force, n);
  }

  lemma ResumeFrom(vt: VTable, core: Core, seed: Hash, client: seq<Log>, i: nat, force: bool, n: nat)
    requires vt.Hashed() && CollisionFree(vt.next) && Sorted(core.logs) && Rooted(vt, core.logs)
    requires ChainedFrom(vt.next, seed, client) && client != []
    requires i < |core.logs| && core.logs[i].key == client[|client| - 1].key
    requires Answer(vt, core, client[|client| - 1].key, Some(client[|client| - 1].hash), force).Logs?
    requires n <= i && n < |client|
    ensures SameRecord(core.logs[i - n], client[|client| - 1 - n])
  {
    FirstAtLeastUnique(core.logs, core.logs[i].key, i);
    var root :| ChainedFrom(vt.next, root, core.logs);
    ChainsAgreeBackwards(vt.next, root, core.logs[..i + 1], seed, client, n);
  }
}
