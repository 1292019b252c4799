/** Hole logs: a log that a publisher accepts in the middle of what it holds changes the hash of every log
    behind it. A client that takes the same log with `receive_hole_log` re-hashes its own tail, and again holds
    the publisher's records. */
module WalHoles {
  import opened Wrappers
  import opened WalCommon
  import opened WalChain
  import opened WalSpec
  import C = WalReception

  /** `b` holds the records of `a` wherever both reach, its first log standing at place `d` of `a`, and does not
      reach further than `a`. */
  ghost predicate Covers(a: seq<Log>, b: seq<Log>, d: int) {
    && d + |b| <= |a|
    && forall j :: 0 <= j < |b| && 0 <= d + j ==> SameRecord(a[d + j], b[j])
  }

  ghost predicate SameRecords(a: seq<Log>, b: seq<Log>) {
    |a| == |b| && forall i :: 0 <= i < |a| ==> SameRecord(a[i], b[i])
  }

  /** Re-hashing two runs that begin with the same contents gives the same records as far as both reach. */
  lemma {:induction false} RehashAligned(next: Hasher, seed: Hash, a: seq<Log>, b: seq<Log>, n: nat)
    requires n < |a| && n < |b|
    requires forall i :: 0 <= i < |a| && i < |b| ==> SameContent(a[i], b[i])
    ensures SameRecord(Rehash(next, seed, a)[n], Rehash(next, seed, b)[n])
    decreases n
  {
    assert SameContent(a[0], b[0]);
    if n > 0 {
      forall i | 0 <= i < |a[1..]| && i < |b[1..]| ensures SameContent(a[1..][i], b[1..][i]) {
        assert SameContent(a[i + 1], b[i + 1]);
      }
      RehashAligned(next, next(seed, a[0].key, a[0].body), a[1..], b[1..], n - 1);
    }
  }

  /** The same record put behind the same record keeps the two in agreement, re-hashed tails included. */
  lemma InsertCovers(va: VTable, vb: VTable, a: seq<Log>, b: seq<Log>, d: int, i: nat, j: nat, x: Log, y: Log)
    requires va.Hashed() && vb.Hashed() && va.next == vb.next
    requires Covers(a, b, d) && j <= |b| && i == d + j && SameRecord(x, y)
    ensures Covers(Insert(va, a, i, x), Insert(vb, b, j, y), d)
  {
    var r, t := Insert(va, a, i, x), Insert(vb, b, j, y);
    forall k | 0 <= k < |t| && 0 <= d + k ensures SameRecord(r[d + k], t[k]) {
      if k < j {
        assert SameRecord(a[d + k], b[k]);
      } else if j < k {
        var n := k - j - 1;
        forall p | 0 <= p < |a[i..]| && p < |b[j..]| ensures SameContent(a[i..][p], b[j..][p]) {
          assert SameRecord(a[d + (j + p)], b[j + p]);
        }
        RehashAligned(va.next, x.hash, a[i..], b[j..], n);
        assert r[d + k] == Rehash(va.next, x.hash, a[i..])[n];
        assert t[k] == Rehash(vb.next, y.hash, b[j..])[n];
      }
    }
  }

  /** A push that accepts the pushed log and nothing else. */
  ghost predicate Only(vt: VTable, conf: Configure, s: Core, m: Log)
    requires vt.Settles()
  {
    var t := PushOne(vt, conf, s, m).0;
    !Ignored(s, m) && t.added != s.added && Drain(vt, conf, t).added == t.added
  }

  /** A drain that accepts nothing changes no record. */
  lemma {:induction false} DrainRejects(vt: VTable, conf: Configure, s: Core)
    requires vt.Settles() && Drain(vt, conf, s).added == s.added
    ensures SameRecords(Drain(vt, conf, s).logs, s.logs)
    decreases if s.calls < vt.quiet then vt.quiet - s.calls else 0, |s.pending|
  {
    hide PushOne;
    if s.pending != [] {
      var rest := s.(pending := s.pending[1..]);
      var t := PushOne(vt, conf, rest, s.pending[0]).0;
      PushOneSettles(vt, conf, rest, s.pending[0]);
      PushOneBalance(vt, conf, rest, s.pending[0], 0);
      DrainRemoved(vt, conf, t);
      assert t.added == s.added;
      RejectsRecords(vt, conf, rest, s.pending[0]);
      DrainRejects(vt, conf, t);
    }
  }

  lemma RejectsRecords(vt: VTable, conf: Configure, s: Core, log: Log)
    requires PushOne(vt, conf, s, log).0.added == s.added
    ensures SameRecords(PushOne(vt, conf, s, log).0.logs, s.logs)
  {}

  /** Such a push inserts the log, sealed for its place, and trims. */
  lemma EmplaceOnly(vt: VTable, conf: Configure, s: Core, m: Log)
    requires vt.Settles() && vt.Hashed() && Only(vt, conf, s, m)
    ensures var q, i := Emplace(vt, conf, s, m).0, FirstAtLeast(s.logs, m.key);
            && !Holds(s.logs, m.key) && |q.added| == |s.added| + 1 && q.logs != [] && q.ignore == s.ignore
            && var x := q.added[|s.added|];
               && SameRecord(x, Seal(vt, s.logs, i, m)) && q.added == s.added + [x]
               && |Insert(vt, s.logs, i, x)| == |s.logs| + 1 && |q.logs| <= |s.logs| + 1
               && (conf.maxSize == 0 ==> |q.logs| == |s.logs| + 1)
               && SameRecords(q.logs, Insert(vt, s.logs, i, x)[|s.logs| + 1 - |q.logs|..])
  {
    hide PushOne, Insert;
    var t := PushOne(vt, conf, s, m).0;
    PushOneAccepted(vt, conf, s, m);
    InsertKeepsOthers(vt, s.logs, FirstAtLeast(s.logs, m.key), t.added[|s.added|]);
    DrainRejects(vt, conf, t);
    PushOneBalance(vt, conf, s, m, 0);
    DrainRemoved(vt, conf, t);
    var drained := Drain(vt, conf, t);
    assert PopMany(drained, Excess(conf, drained)).logs == drained.logs[Excess(conf, drained)..];
  }

  /** Trimming both only shifts the places. */
  lemma TrimCovers(a: seq<Log>, b: seq<Log>, d: int, n: nat, k: nat, ta: seq<Log>, tb: seq<Log>)
    requires Covers(a, b, d) && n <= |a| && k <= |b| && SameRecords(ta, a[n..]) && SameRecords(tb, b[k..])
    ensures Covers(ta, tb, d - n + k)
  {
    forall j | 0 <= j < |tb| && 0 <= d - n + k + j ensures SameRecord(ta[d - n + k + j], tb[j]) {
      assert SameRecord(a[d + (k + j)], b[k + j]);
      assert SameRecord(ta[d - n + k + j], a[n..][d - n + k + j]) && SameRecord(tb[j], b[k..][j]);
    }
  }

  /** A client that takes logs, whatever its actions say, and whose callbacks do not push. */
  ghost predicate Taker(su: C.Setup, c: C.Client) {
    && su.vt.Settles() && su.vt.Hashed() && su.conf.accept && Silent(su.vt)
    && !(su.needSnapshot && !c.gotSnapshot) && Ordered(su.vt, c.core.logs) && c.core.pending == []
  }

  lemma TakerOnly(su: C.Setup, c: C.Client, x: Log)
    requires Taker(su, c) && !Ignored(c.core, x) && !Holds(c.core.logs, x.key)
    ensures Only(su.vt, su.conf, c.core, x)
  {
    hide Insert;
    var i := FirstAtLeast(c.core.logs, x.key);
    var run := Redo(su.vt, c.core.calls, Seal(su.vt, c.core.logs, i, x));
    assert run.pushes == [];
    var t := PushOne(su.vt, su.conf, c.core, x).0;
    assert t.pending == [] && |t.added| == |c.core.added| + 1;
  }

  /** The log that goes to place `i` of the publisher's log goes to place `i - d` of the client's, right behind
      the same record. */
  ghost predicate Inside(a: seq<Log>, b: seq<Log>, d: int, k: Key) {
    && FirstAtLeast(a, k) == d + FirstAtLeast(b, k) && 0 < FirstAtLeast(a, k) && 0 < FirstAtLeast(b, k)
  }

  /** Hole replication. The publisher accepts a log at any place behind a log that the client holds too. The
      client, which takes the publisher's copy with `receive_hole_log`, does not refuse it, and afterwards
      again holds the publisher's records, the re-hashed ones included, over all that both hold. */
  lemma HoleReplicated(vt: VTable, conf: Configure, s: Core, su: C.Setup, c: C.Client, m: Log, d: int)
    requires vt.Settles() && vt.Hashed() && su.vt.next == vt.next && Taker(su, c)
    requires Covers(s.logs, c.core.logs, d) && Inside(s.logs, c.core.logs, d, m.key)
    requires Only(vt, conf, s, m) && !Ignored(c.core, m)
    ensures var q := Emplace(vt, conf, s, m).0;
            && |q.added| == |s.added| + 1
            && var x := q.added[|s.added|]; var r := C.ReceiveHoleLog(su, c, x).0;
               && C.AdmitsHole(su, c, x) && SameContent(x, m) && Only(su.vt, su.conf, c.core, x)
               && |r.core.added| == |c.core.added| + 1 && SameRecord(r.core.added[|c.core.added|], x)
               && Covers(q.logs, r.core.logs, d - (|s.logs| - |q.logs|) + (|c.core.logs| - |r.core.logs|))
               && Taker(su, r) && q.logs != [] && r.core.logs != []
  {
    hide Insert, Only, Emplace, Silent;
    var i, j := FirstAtLeast(s.logs, m.key), FirstAtLeast(c.core.logs, m.key);
    EmplaceOnly(vt, conf, s, m);
    var q := Emplace(vt, conf, s, m).0;
    var x := q.added[|s.added|];
    assert SameRecord(s.logs[d + (j - 1)], c.core.logs[j - 1]);
    assert j < |c.core.logs| ==> SameRecord(s.logs[d + j], c.core.logs[j]);
    TakerOnly(su, c, x);
    EmplaceOnly(su.vt, su.conf, c.core, x);
    EmplaceOrdered(su.vt, su.conf, c.core, x);
    var r := Emplace(su.vt, su.conf, c.core, x).0;
    var y := r.added[|c.core.added|];
    InsertCovers(vt, su.vt, s.logs, c.core.logs, d, i, j, x, y);
    TrimCovers(Insert(vt, s.logs, i, x), Insert(su.vt, c.core.logs, j, y), d,
               |s.logs| + 1 - |q.logs|, |c.core.logs| + 1 - |r.logs|, q.logs, r.logs);
  }

  // ---------------------------------------------------------------- runs of pushes in any key order

  /** A publisher, and a client that is sent every log the publisher accepts and takes it with
      `receive_hole_log`. */
  datatype Pair = Pair(pub: Core, client: C.Client)

  ghost function Relay(vt: VTable, conf: Configure, su: C.Setup, p: Pair, m: Log): Pair
    requires vt.Settles() && su.vt.Settles()
  {
    var q := Emplace(vt, conf, p.pub, m).0;
    if |q.added| <= |p.pub.added| then p.(pub := q)
    else Pair(q, C.ReceiveHoleLog(su, p.client, q.added[|p.pub.added|]).0)
  }

  ghost function RelayAll(vt: VTable, conf: Configure, su: C.Setup, p: Pair, ms: seq<Log>): Pair
    requires vt.Settles() && su.vt.Settles()
    decreases ms
  {
    if ms == [] then p else RelayAll(vt, conf, su, Relay(vt, conf, su, p, ms[0]), ms[1..])
  }

  /** Both end in the same record and hold the same records backwards from there as far as both reach. */
  ghost predicate InStep(vt: VTable, su: C.Setup, p: Pair) {
    && vt.Settles() && vt.Hashed() && Silent(vt) && Ordered(vt, p.pub.logs) && p.pub.pending == []
    && Taker(su, p.client) && su.vt.next == vt.next
    && p.pub.logs != [] && p.client.core.logs != []
    && Covers(p.pub.logs, p.client.core.logs, |p.pub.logs| - |p.client.core.logs|)
  }

  /** The log belongs behind the first log of both, and the client does not ignore it. */
  predicate Behind(p: Pair, m: Log) {
    && p.pub.logs != [] && p.pub.logs[0].key < m.key
    && p.client.core.logs != [] && p.client.core.logs[0].key < m.key
    && !Ignored(p.client.core, m)
  }

  ghost predicate BehindAll(vt: VTable, conf: Configure, su: C.Setup, p: Pair, ms: seq<Log>)
    requires vt.Settles() && su.vt.Settles()
    decreases ms
  {
    ms != [] ==> Behind(p, ms[0]) && BehindAll(vt, conf, su, Relay(vt, conf, su, p, ms[0]), ms[1..])
  }

  lemma InsideByKey(va: VTable, vb: VTable, a: seq<Log>, b: seq<Log>, k: Key)
    requires Ordered(va, a) && Ordered(vb, b) && a != [] && b != [] && Covers(a, b, |a| - |b|)
    requires a[0].key < k && b[0].key < k
    ensures Inside(a, b, |a| - |b|, k)
  {
    var d, j := |a| - |b|, FirstAtLeast(b, k);
    forall n | 0 <= n < |a| ensures n < d + j <==> a[n].key < k {
      if n < d {
        assert SameRecord(a[d + 0], b[0]);
      } else {
        assert SameRecord(a[d + (n - d)], b[n - d]);
      }
    }
    FirstAtLeastUnique(a, k, d + j);
  }

  /** A push that accepts nothing only trims. */
  lemma EmplaceNothing(vt: VTable, conf: Configure, s: Core, m: Log)
    requires vt.Settles() && s.logs != [] && |Emplace(vt, conf, s, m).0.added| <= |s.added|
    ensures var q := Emplace(vt, conf, s, m).0;
            && q.logs != [] && |q.logs| <= |s.logs| && SameRecords(q.logs, s.logs[|s.logs| - |q.logs|..])
            && (conf.maxSize == 0 ==> |q.logs| == |s.logs|) && q.ignore == s.ignore
  {
    hide PushOne, Drain;
    var first := if Ignored(s, m) then s else PushOne(vt, conf, s, m).0;
    var drained := Drain(vt, conf, first);
    PushOneBalance(vt, conf, s, m, 0);
    DrainRemoved(vt, conf, first);
    var n := Excess(conf, drained);
    assert Emplace(vt, conf, s, m).0 == PopMany(drained, n);
    assert s.added == first.added == drained.added;
    if !Ignored(s, m) { RejectsRecords(vt, conf, s, m); }
    DrainRejects(vt, conf, first);
    forall i | 0 <= i < |s.logs| ensures SameRecord(drained.logs[i], s.logs[i]) {
      assert SameRecord(drained.logs[i], first.logs[i]) && SameRecord(first.logs[i], s.logs[i]);
    }
    assert PopMany(drained, n).logs == drained.logs[n..];
  }

  /** A push to a publisher whose callbacks do not push accepts the log or nothing. */
  lemma SilentOnly(vt: VTable, conf: Configure, s: Core, m: Log)
    requires vt.Settles() && Silent(vt) && s.pending == [] && |Emplace(vt, conf, s, m).0.added| > |s.added|
    ensures Only(vt, conf, s, m)
  {
    hide Insert;
    if !Ignored(s, m) {
      var i := FirstAtLeast(s.logs, m.key);
      var run := Redo(vt, s.calls, Seal(vt, s.logs, i, m));
      assert run.pushes == [];
      assert PushOne(vt, conf, s, m).0.pending == [];
    }
  }

  lemma RelayStep(vt: VTable, conf: Configure, su: C.Setup, p: Pair, m: Log)
    requires InStep(vt, su, p) && Behind(p, m)
    ensures InStep(vt, su, Relay(vt, conf, su, p, m))
  {
    hide Emplace, Silent, Covers, SameRecords, C.ReceiveHoleLog, Ordered, Only, Inside;
    var s, c := p.pub, p.client;
    var d := |s.logs| - |c.core.logs|;
    var q := Emplace(vt, conf, s, m).0;
    EmplaceOrdered(vt, conf, s, m);
    if |q.added| <= |s.added| {
      EmplaceNothing(vt, conf, s, m);
      SameSelf(c.core.logs);
      TrimCovers(s.logs, c.core.logs, d, |s.logs| - |q.logs|, 0, q.logs, c.core.logs);
    } else {
      SilentOnly(vt, conf, s, m);
      InsideByKey(vt, su.vt, s.logs, c.core.logs, m.key);
      HoleReplicated(vt, conf, s, su, c, m, d);
    }
  }

  lemma SameSelf(logs: seq<Log>)
    ensures SameRecords(logs, logs[0..])
  {}

  /** In step over a whole run. The publisher accepts what it is pushed in whatever key order, behind the first
      log of both; the client, sent each accepted log once, holds the publisher's records all along. */
  lemma {:induction false} HolesInStep(vt: VTable, conf: Configure, su: C.Setup, p: Pair, ms: seq<Log>)
    requires InStep(vt, su, p) && BehindAll(vt, conf, su, p, ms)
    ensures InStep(vt, su, RelayAll(vt, conf, su, p, ms))
    decreases ms
  {
    hide Relay, Behind, Covers;
    if ms != [] {
      RelayStep(vt, conf, su, p, ms[0]);
      HolesInStep(vt, conf, su, Relay(vt, conf, su, p, ms[0]), ms[1..]);
    }
  }

  /** Without a size limit the first log stays. */
  lemma FirstStays(vt: VTable, conf: Configure, s: Core, m: Log)
    requires vt.Settles() && vt.Hashed() && conf.maxSize == 0 && s.logs != [] && s.logs[0].key < m.key
    requires Only(vt, conf, s, m) || |Emplace(vt, conf, s, m).0.added| <= |s.added|
    ensures var q := Emplace(vt, conf, s, m).0;
            q.logs != [] && q.logs[0].key == s.logs[0].key && q.ignore == s.ignore
  {
    hide Emplace, Only;
    var q := Emplace(vt, conf, s, m).0;
    if |q.added| <= |s.added| {
      EmplaceNothing(vt, conf, s, m);
    } else {
      EmplaceOnly(vt, conf, s, m);
      var i, x := FirstAtLeast(s.logs, m.key), q.added[|s.added|];
      InsertKeepsOthers(vt, s.logs, i, x);
      assert Insert(vt, s.logs, i, x)[..i][0] == s.logs[0];
      assert SameRecord(q.logs[0], Insert(vt, s.logs, i, x)[0..][0]);
    }
  }

  lemma RelayStays(vt: VTable, conf: Configure, su: C.Setup, p: Pair, m: Log, n: Log)
    requires InStep(vt, su, p) && Behind(p, m) && Behind(p, n) && conf.maxSize == 0 && su.conf.maxSize == 0
    ensures Behind(Relay(vt, conf, su, p, m), n)
  {
    hide Emplace, Silent, Covers, SameRecords, Ordered, Only, Inside;
    var s, c := p.pub, p.client;
    var q := Emplace(vt, conf, s, m).0;
    if |q.added| <= |s.added| {
      FirstStays(vt, conf, s, m);
    } else {
      SilentOnly(vt, conf, s, m);
      FirstStays(vt, conf, s, m);
      InsideByKey(vt, su.vt, s.logs, c.core.logs, m.key);
      HoleReplicated(vt, conf, s, su, c, m, |s.logs| - |c.core.logs|);
      FirstStays(su.vt, su.conf, c.core, q.added[|s.added|]);
    }
  }

  lemma {:induction false} UnlimitedBehind(vt: VTable, conf: Configure, su: C.Setup, p: Pair, ms: seq<Log>)
    requires InStep(vt, su, p) && conf.maxSize == 0 && su.conf.maxSize == 0 && forall m :: m in ms ==> Behind(p, m)
    ensures BehindAll(vt, conf, su, p, ms)
    decreases ms
  {
    hide Relay, Behind, Covers;
    if ms != [] {
      var next := Relay(vt, conf, su, p, ms[0]);
      assert ms[0] in ms;
      RelayStep(vt, conf, su, p, ms[0]);
      forall n | n in ms[1..] ensures Behind(next, n) {
        assert n in ms;
        RelayStays(vt, conf, su, p, ms[0], n);
      }
      UnlimitedBehind(vt, conf, su, next, ms[1..]);
    }
  }

  /** Without size limits it is enough that every log belongs behind both first logs at the start. */
  lemma UnlimitedInStep(vt: VTable, conf: Configure, su: C.Setup, p: Pair, ms: seq<Log>)
    requires InStep(vt, su, p) && conf.maxSize == 0 && su.conf.maxSize == 0 && forall m :: m in ms ==> Behind(p, m)
    ensures InStep(vt, su, RelayAll(vt, conf, su, p, ms))
  {
    UnlimitedBehind(vt, conf, su, p, ms);
    HolesInStep(vt, conf, su, p, ms);
  }
}
