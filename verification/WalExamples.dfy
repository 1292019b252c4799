/** Concrete inputs for what the other modules state for all inputs: a hash that is collision-free and never
    0, and inputs on which the claims that hold only under a condition fail. */
module WalExamples {
  import opened Wrappers
  import opened WalCommon
  import opened WalChain
  import opened WalSpec
  import P = WalPublication
  import C = WalReception
  import R = WalReplication
  import WalRoster

  // ---------------------------------------------------------------- a hash

  function Triangle(n: nat): nat { if n == 0 then 0 else n + Triangle(n - 1) }

  function Pair(x: nat, y: nat): nat { Triangle(x + y) + y }

  function Zigzag(i: int): nat { if i >= 0 then 2 * i else -2 * i - 1 }

  function Mix(h: Hash, k: Key, b: int): Hash { 1 + Pair(Pair(Zigzag(h), Zigzag(k)), Zigzag(b)) }

  lemma {:induction false} TriangleGap(a: nat, b: nat)
    requires a < b
    ensures Triangle(a) + a < Triangle(b)
  {
    if a + 1 < b { TriangleGap(a, b - 1); }
  }

  lemma PairInjective(x: nat, y: nat, v: nat, w: nat)
    requires Pair(x, y) == Pair(v, w)
    ensures x == v && y == w
  {
    if x + y < v + w { TriangleGap(x + y, v + w); }
    if v + w < x + y { TriangleGap(v + w, x + y); }
  }

  /** The hypotheses on the hash callbacks can be met. */
  lemma MixIsSound()
    ensures CollisionFree(Mix) && NeverInitial(Mix)
  {
    forall h1, k1, b1, h2, k2, b2 | Mix(h1, k1, b1) == Mix(h2, k2, b2) ensures h1 == h2 && k1 == k2 && b1 == b2 {
      PairInjective(Pair(Zigzag(h1), Zigzag(k1)), Zigzag(b1), Pair(Zigzag(h2), Zigzag(k2)), Zigzag(b2));
      PairInjective(Zigzag(h1), Zigzag(k1), Zigzag(h2), Zigzag(k2));
    }
  }

  // ---------------------------------------------------------------- clients and a publisher of two logs

  /** All hash callbacks set, one action that succeeds; its first `n` runs push a log with key 9. */
  function Hashing(next: Hasher, n: nat): (vt: VTable)
    ensures vt.Settles() && vt.Hashed() && vt.next == next
    ensures n == 0 ==> Silent(vt)
  {
    VTable(true, true, true, next, (k, b) => Meta(0, k, 0), None, map[], Delegate(false, true), false,
           (i: nat, l) => Outcome(Ok, 0, if i < n then [Log(9, 0, 0, 0)] else []), n)
  }

  const CONF := Configure(0, 0, 0, true)

  function First(next: Hasher): Log { Log(1, 0, 0, next(INITIAL_HASH, 1, 0)) }

  function Second(next: Hasher): Log { Log(2, 0, 0, next(First(next).hash, 2, 0)) }

  function TwoLogs(next: Hasher): Core {
    var both := [First(next), Second(next)];
    Core(both, [], None, None, 2, both, [], both, [])
  }

  lemma TwoLogsHistoric(next: Hasher)
    ensures var core := TwoLogs(next);
            && Consistent(Hashing(next, 0), core) && R.Historic(Hashing(next, 0), core) && R.AppendOnly(core)
  {
    var core := TwoLogs(next);
    assert core.added == core.logs;
    assert forall k :: Count(core.popped, k) == 0;
  }

  /** A client that holds the first log. */
  function Holding(next: Hasher): C.Client {
    C.Client(Core([First(next)], [], None, None, 0, [First(next)], [], [], []), Some(1), false, [1])
  }

  function Publisher(next: Hasher): R.Origin { R.Origin(Hashing(next, 0), CONF) }

  function PushingClient(next: Hasher): C.Setup { C.Setup(Hashing(next, 1), CONF, false) }

  /** The second log is on its way to the client that holds the first. */
  function OnItsWay(next: Hasher): R.System {
    R.System(P.FRESH.(core := TwoLogs(next)), Holding(next), {Second(next)})
  }

  lemma OnItsWaySafe(next: Hasher)
    requires CollisionFree(next) && NeverInitial(next)
    ensures R.AppendOnly(OnItsWay(next).pub.core) && R.Guarded(Publisher(next), PushingClient(next), OnItsWay(next))
  {
    var sys := OnItsWay(next);
    TwoLogsHistoric(next);
    assert R.SegmentAt(sys.pub.core.added, sys.client.core.logs, 0);
    assert SameRecord(Second(next), sys.pub.core.added[1]);
  }

  /** A client whose action pushes a log of its own when it is delivered the second one was safe, and then
      holds a log that is not the publisher's. */
  lemma PushingClientStrays(next: Hasher)
    requires CollisionFree(next) && NeverInitial(next)
    ensures R.Compatible(Publisher(next), PushingClient(next))
    ensures R.Guarded(Publisher(next), PushingClient(next), OnItsWay(next))
    ensures var r := R.Happen(Publisher(next), PushingClient(next), OnItsWay(next), R.Deliver(Second(next)));
            !R.Segment(r.pub.core.added, r.client.core.logs)
  {
    hide P.Step, Emplace;
    var su, c, m := PushingClient(next), Holding(next), Second(next);
    OnItsWaySafe(next);
    HoldingTakes(next);
    var r := C.ReceiveLog(su, c, m).0;
    C.EmplaceTaken(su, c.core, m, 2);
    SegmentUpTo(TwoLogs(next).added, r.core.logs, 2);
  }

  function Third(next: Hasher): Log { Log(9, 0, 0, next(Second(next).hash, 9, 0)) }

  /** Had the publisher itself accepted a log with that key and body next, the same delivery would leave the same
      client with a segment: what a client may push depends on the history. */
  lemma PushingClientFollows(next: Hasher)
    requires CollisionFree(next) && NeverInitial(next)
    ensures var su, c, m := PushingClient(next), Holding(next), Second(next);
            && !R.Alone(su, c.core, m)
            && R.Segment([First(next), Second(next), Third(next)], C.ReceiveLog(su, c, m).0.core.logs)
  {
    hide Emplace;
    var su, c, m := PushingClient(next), Holding(next), Second(next);
    var history := [First(next), Second(next), Third(next)];
    assert ChainedFrom(next, INITIAL_HASH, history) && Sorted(history);
    assert R.SegmentAt(history, c.core.logs, 0);
    HoldingTakes(next);
    HoldingPushes(next);
    var taken := R.Taken(c.core.logs, R.Brought(su, c.core, m));
    TakesBoth(c.core.logs, m, Log(9, 0, 0, 0));
    assert R.ContinuesAt(history, c.core.logs, taken, 0);
    R.DeliverKeepsSegment(su, c, history, m);
    StraysAlone(next);
  }

  lemma StraysAlone(next: Hasher)
    requires CollisionFree(next) && NeverInitial(next)
    ensures !R.Alone(PushingClient(next), Holding(next).core, Second(next))
  {
    hide Emplace;
    var su, c, m := PushingClient(next), Holding(next), Second(next);
    HoldingTakes(next);
    C.EmplaceTaken(su, c.core, m, 2);
    C.EmplaceBound(su, c.core, m, 2);
  }

  /** A log with one key takes two greater ones to its end. */
  lemma TakesBoth(logs: seq<Log>, a: Log, b: Log)
    requires |logs| == 1 && logs[0].key < a.key < b.key
    ensures R.Taken(logs, [a, b]) == logs + [a, b]
  {
    FirstAtLeastUnique(logs, a.key, 1);
    assert R.Take(logs, a) == logs + [a];
    FirstAtLeastUnique(logs + [a], b.key, 2);
    assert R.Take(logs + [a], b) == logs + [a, b];
    assert [a, b][1..] == [b] && R.Taken(logs + [a], [b]) == logs + [a, b];
  }

  lemma HoldingPushes(next: Hasher)
    ensures R.Brought(PushingClient(next), Holding(next).core, Second(next)) == [Second(next), Log(9, 0, 0, 0)]
  {
    var su, c, m := PushingClient(next), Holding(next), Second(next);
    FirstAtLeastUnique(c.core.logs, 2, 1);
    var t := PushOne(su.vt, su.conf, c.core, m).0;
    assert t.queued == [Log(9, 0, 0, 0)] == t.pending && t.calls == 1;
    DrainQuiet(su, t);
  }

  /** From the second run of the action on nothing is pushed. */
  lemma DrainQuiet(su: C.Setup, s: Core)
    requires su.vt.Settles() && su.vt.quiet <= s.calls && |s.pending| == 1
    ensures Drain(su.vt, su.conf, s).queued == s.queued
  {
    var t := PushOne(su.vt, su.conf, s.(pending := []), s.pending[0]).0;
    PushOneQueues(su.vt, su.conf, s.(pending := []), s.pending[0]);
    PushOneSettles(su.vt, su.conf, s.(pending := []), s.pending[0]);
    assert Drain(su.vt, su.conf, s) == Drain(su.vt, su.conf, t) == t;
  }

  /** A key that bounds the history bounds every segment of it. */
  lemma SegmentUpTo(history: seq<Log>, logs: seq<Log>, k: Key)
    requires C.KeysUpTo(history, k)
    ensures R.Segment(history, logs) ==> C.KeysUpTo(logs, k)
  {
    if lo: nat :| R.SegmentAt(history, logs, lo) {
      forall l | l in logs ensures l.key <= k {
        var i :| 0 <= i < |logs| && logs[i] == l;
        assert SameRecord(logs[i], history[lo + i]) && history[lo + i] in history;
      }
    }
  }

  lemma HoldingTakes(next: Hasher)
    ensures C.Admits(PushingClient(next), Holding(next), Second(next))
    ensures Log(9, 0, 0, 0) in C.ReceiveLog(PushingClient(next), Holding(next), Second(next)).0.core.queued
  {
    var su, c, m := PushingClient(next), Holding(next), Second(next);
    FirstAtLeastUnique(c.core.logs, 2, 1);
    var t := PushOne(su.vt, su.conf, c.core, m).0;
    assert t.queued == [Log(9, 0, 0, 0)];
    DrainFifo(su.vt, su.conf, t);
    assert Drain(su.vt, su.conf, t).queued[0] == Log(9, 0, 0, 0);
  }

  /** A client without logs that is delivered the second log accepts it and holds no segment. */
  lemma SecondLogFirst(next: Hasher)
    requires CollisionFree(next) && NeverInitial(next)
    ensures var su := C.Setup(Hashing(next, 0), CONF, false);
            var r := C.ReceiveLog(su, C.FRESH, Second(next)).0;
            r.core.logs != [] && !R.Segment(TwoLogs(next).added, r.core.logs)
  {
    var su, m := C.Setup(Hashing(next, 0), CONF, false), Second(next);
    TwoLogsHistoric(next);
    var t := PushOne(su.vt, su.conf, C.FRESH.core, m).0;
    assert t.pending == [] && |t.added| == 1 && Drain(su.vt, su.conf, t) == t;
    R.SilentAlone(su, C.FRESH.core, m);
    R.FirstLogDecides(su, C.FRESH, TwoLogs(next).added, m, 1);
    R.EmplaceAlone(su, C.FRESH.core, m);
  }

  // ---------------------------------------------------------------- losing an unsent log

  /** No hash callbacks, one action that succeeds and pushes nothing. */
  function Plain(): (vt: VTable)
    ensures vt.Settles()
  {
    VTable(false, false, false, (h, k, b) => 0, (k, b) => Meta(0, k, 0), None, map[], Delegate(false, true), false,
           (i: nat, l) => Outcome(Ok, 0, []), 0)
  }

  function OneLog(): P.Pub {
    P.FRESH.(core := Core([Log(1, 0, 0, 0)], [], None, None, 1, [Log(1, 0, 0, 0)], [], [Log(1, 0, 0, 0)], []))
  }

  /** With room for one log, pushing a second one before any broadcast loses the first. */
  lemma UnsentLogLost()
    ensures Consistent(Plain(), OneLog().core)
    ensures P.Step(Plain(), Configure(0, 1, 0, false), true, OneLog(), P.Push(Log(2, 0, 0, 0))).lost != OneLog().lost
  {
    assert OneLog().core.added == OneLog().core.logs && forall k :: Count(OneLog().core.popped, k) == 0;
    TwoHeld();
    hide P.Step, PushOne, Drain;
    P.PushLossless(Plain(), Configure(0, 1, 0, false), true, OneLog(), Log(2, 0, 0, 0));
  }

  lemma TwoHeld()
    ensures var conf, two := Configure(0, 1, 0, false), Log(2, 0, 0, 0);
            var t := PushOne(Plain(), conf, OneLog().core, two).0;
            !Ignored(OneLog().core, two) && |Drain(Plain(), conf, t).logs| == 2
  {
    FirstAtLeastUnique(OneLog().core.logs, 2, 1);
    var conf := Configure(0, 1, 0, false);
    var t := PushOne(Plain(), conf, OneLog().core, Log(2, 0, 0, 0)).0;
    assert t.pending == [] && |t.logs| == 2 && Drain(Plain(), conf, t) == t;
  }

  // ---------------------------------------------------------------- timers

  const ONE_SUBSCRIBER := WalRoster.Roster(map[1 := WalRoster.Beat(0, 5)], [WalRoster.Entry(1, 5)])

  /** Allocating the known key 1 at time 3 leaves its timer at 5 while its heartbeat allows 8. */
  lemma StaleTimer()
    ensures WalRoster.Paired(ONE_SUBSCRIBER) && WalRoster.Punctual(ONE_SUBSCRIBER, 5, 0)
    ensures !WalRoster.Punctual(WalRoster.Allocate(ONE_SUBSCRIBER, 1, 3, 5), 5, 3)
  {
    assert ONE_SUBSCRIBER.queue[1..] == [];
    WalRoster.AllocateKnownPunctual(ONE_SUBSCRIBER, 1, 5, 0, 3);
  }

  /** At time 5 its subscriber calls itself offline and is kept by a sweep. */
  lemma OfflineButKept()
    ensures WalRoster.IsOffline(ONE_SUBSCRIBER.beats[1], 5) && !WalRoster.Overdue(ONE_SUBSCRIBER, 1, 5)
    ensures 1 in WalRoster.ExpireAll(ONE_SUBSCRIBER, 5).beats
  {
    StaleTimer();
    WalRoster.OfflineOrOverdue(ONE_SUBSCRIBER, 5, 0, 5, 1);
    WalRoster.ExpireAllExact(ONE_SUBSCRIBER, 5, 0, 5);
  }
}
