/** Replication: an append-only publisher, a client that receives logs with `receive_log`, and a
    network between them that drops, duplicates and reorders message copies. When the client holds a
    contiguous segment of the publisher's history, whatever happens. */
module WalReplication {
  import opened Wrappers
  import opened WalCommon
  import opened WalChain
  import opened WalSpec
  import P = WalPublication
  import C = WalReception

  // ---------------------------------------------------------------- the publisher's history

  /** The publisher only appends: every log it accepts has a greater key than all before. */
  ghost predicate AppendOnly(core: Core) { Sorted(core.added) }

  /** The history of an append-only publisher is one hash chain from the initial hash code; the logs it
      still holds are the end of that history, and it never forgets all of them. */
  ghost predicate Historic(vt: VTable, core: Core) {
    && |core.added| == |core.popped| + |core.logs|
    && (forall i :: 0 <= i < |core.popped| ==> SameRecord(core.popped[i], core.added[i]))
    && (forall i :: 0 <= i < |core.logs| ==> SameRecord(core.logs[i], core.added[|core.popped| + i]))
    && (core.added != [] ==> core.logs != [])
    && ChainedFrom(vt.next, INITIAL_HASH, core.added)
  }

  /** In an append-only publisher every held key is below the key accepted next. */
  lemma NextKeyAbove(vt: VTable, s: Core, x: Log)
    requires Historic(vt, s) && Sorted(s.added + [x])
    ensures FirstAtLeast(s.logs, x.key) == |s.logs|
  {
    var all := s.added + [x];
    forall i | 0 <= i < |s.logs| ensures s.logs[i].key < x.key {
      assert all[|s.popped| + i].key < all[|s.added|].key;
    }
    FirstAtLeastUnique(s.logs, x.key, |s.logs|);
  }

  lemma AppendHistoric(vt: VTable, s: Core, r: Core, x: Log)
    requires Historic(vt, s)
    requires r.added == s.added + [x] && r.logs == s.logs + [x] && r.popped == s.popped
    requires x.hash == vt.next(HashBefore(s.logs, |s.logs|), x.key, x.body)
    ensures Historic(vt, r)
  {
    if s.logs != [] { assert SameRecord(s.logs[|s.logs| - 1], s.added[|s.added| - 1]); }
  }

  lemma PushOneHistoric(vt: VTable, conf: Configure, s: Core, log: Log)
    requires vt.Hashed() && Historic(vt, s) && AppendOnly(PushOne(vt, conf, s, log).0)
    ensures Historic(vt, PushOne(vt, conf, s, log).0)
  {
    hide Insert, Redo;
    var r := PushOne(vt, conf, s, log).0;
    if r.added != s.added {
      PushOneAccepted(vt, conf, s, log);
      var x := r.added[|s.added|];
      NextKeyAbove(vt, s, x);
      AppendIsInsert(vt, s.logs, x);
      AppendHistoric(vt, s, r, x);
    } else {
      PushOneRejects(vt, conf, s, log);
    }
  }

  /** A push that accepts nothing changes no record. */
  lemma PushOneRejects(vt: VTable, conf: Configure, s: Core, log: Log)
    requires PushOne(vt, conf, s, log).0.added == s.added
    ensures var r := PushOne(vt, conf, s, log).0;
            && |r.logs| == |s.logs| && r.popped == s.popped
            && forall i :: 0 <= i < |s.logs| ==> SameRecord(r.logs[i], s.logs[i])
  {}

  lemma {:induction false} DrainHistoric(vt: VTable, conf: Configure, s: Core)
    requires vt.Settles() && vt.Hashed() && Historic(vt, s) && AppendOnly(Drain(vt, conf, s))
    ensures Historic(vt, Drain(vt, conf, s))
    decreases if s.calls < vt.quiet then vt.quiet - s.calls else 0, |s.pending|
  {
    hide PushOne;
    if s.pending != [] {
      var rest := s.(pending := s.pending[1..]);
      PushOneSettles(vt, conf, rest, s.pending[0]);
      var t := PushOne(vt, conf, rest, s.pending[0]).0;
      DrainRemoved(vt, conf, t);
      PrefixSorted(t.added, Drain(vt, conf, t).added);
      PushOneHistoric(vt, conf, rest, s.pending[0]);
      DrainHistoric(vt, conf, t);
    }
  }

  lemma PrefixSorted(a: seq<Log>, b: seq<Log>)
    requires a <= b && Sorted(b)
    ensures Sorted(a)
  {
    assert forall i :: 0 <= i < |a| ==> a[i] == b[i];
  }

  lemma PopManyHistoric(vt: VTable, s: Core, n: nat)
    requires Historic(vt, s) && (n < |s.logs| || n == 0)
    ensures Historic(vt, PopMany(s, n))
  {
    var r := PopMany(s, n);
    forall i | 0 <= i < |r.popped| ensures SameRecord(r.popped[i], r.added[i]) {
      if |s.popped| <= i { assert r.popped[i] == s.logs[i - |s.popped|]; }
    }
  }

  lemma PublishHistoric(vt: VTable, conf: Configure, p: P.Pub, op: P.Op)
    requires vt.Settles() && vt.Hashed() && Consistent(vt, p.core) && Historic(vt, p.core)
    requires AppendOnly(P.Step(vt, conf, false, p, op).core)
    ensures Historic(vt, P.Step(vt, conf, false, p, op).core)
  {
    match op
    case Push(log) =>
      var first := if Ignored(p.core, log) then p.core else PushOne(vt, conf, p.core, log).0;
      DrainRemoved(vt, conf, first);
      PrefixSorted(first.added, Drain(vt, conf, first).added);
      if !Ignored(p.core, log) { PushOneHistoric(vt, conf, p.core, log); }
      DrainHistoric(vt, conf, first);
      PopManyHistoric(vt, Drain(vt, conf, first), Excess(conf, Drain(vt, conf, first)));
    case Collect(now, hold, limit) =>
      var n := GcCount(vt, conf, now, hold, p.core.logs, limit);
      if n > 0 { assert Collectable(vt, conf, now, hold, |p.core.logs| - (n - 1), p.core.logs[n - 1]); }
      PopManyHistoric(vt, p.core, n);
    case Broadcast(_) =>
    case IgnoreUpTo(_) =>
  }

  /** Every run of an append-only publisher has such a history. */
  lemma {:induction false} RunHistoric(vt: VTable, conf: Configure, ops: seq<P.Op>)
    requires vt.Settles() && vt.Hashed() && AppendOnly(P.Run(vt, conf, false, ops).core)
    ensures Historic(vt, P.Run(vt, conf, false, ops).core)
  {
    if ops != [] {
      var before := P.Run(vt, conf, false, ops[..|ops| - 1]);
      P.StepConsistent(vt, conf, false, before, ops[|ops| - 1]);
      PrefixSorted(before.core.added, P.Run(vt, conf, false, ops).core.added);
      RunHistoric(vt, conf, ops[..|ops| - 1]);
      PublishHistoric(vt, conf, before, ops[|ops| - 1]);
    }
  }

  // ---------------------------------------------------------------- the client's segment

  /** The logs are the records of the history from index `lo` on. */
  ghost predicate SegmentAt(history: seq<Log>, logs: seq<Log>, lo: nat) {
    && lo + |logs| <= |history|
    && forall i :: 0 <= i < |logs| ==> SameRecord(logs[i], history[lo + i])
  }

  /** A non-empty contiguous part of the history, hashes included. */
  ghost predicate Segment(history: seq<Log>, logs: seq<Log>) {
    logs != [] && exists lo :: SegmentAt(history, logs, lo)
  }

  ghost predicate HashIn(history: seq<Log>, h: Hash) { exists j: nat :: j < |history| && history[j].hash == h }

  /** The hash the next log would be computed from. */
  function TopHash(logs: seq<Log>): Hash { HashBefore(logs, |logs|) }

  /** In a chain from the initial hash code, one hash belongs to one place. */
  lemma HashPlace(next: Hasher, history: seq<Log>, i: nat, j: nat)
    requires CollisionFree(next) && ChainedFrom(next, INITIAL_HASH, history) && Sorted(history)
    requires i < |history| && j < |history| && history[i].hash == history[j].hash
    ensures i == j
  {
    assert history[i].hash == next(HashBefore(history, i), history[i].key, history[i].body);
    assert history[j].hash == next(HashBefore(history, j), history[j].key, history[j].body);
    assert history[i].key == history[j].key;
  }

  lemma ChainIsReal(next: Hasher, seed: Hash, logs: seq<Log>)
    requires NeverInitial(next) && ChainedFrom(next, seed, logs)
    ensures forall i :: 0 <= i < |logs| ==> logs[i].hash != INITIAL_HASH
  {
    forall i | 0 <= i < |logs| ensures logs[i].hash != INITIAL_HASH {
      assert logs[i].hash == next(if i == 0 then seed else logs[i - 1].hash, logs[i].key, logs[i].body);
    }
  }

  /** A non-empty chain, from whatever seed, is a segment of the history if and only if its last hash is
      one of the history's. */
  lemma LastHashDecides(next: Hasher, history: seq<Log>, seed: Hash, logs: seq<Log>)
    requires CollisionFree(next) && NeverInitial(next) && ChainedFrom(next, INITIAL_HASH, history)
    requires logs != [] && ChainedFrom(next, seed, logs)
    ensures Segment(history, logs) <==> HashIn(history, TopHash(logs))
  {
    var last := |logs| - 1;
    if lo: nat :| SegmentAt(history, logs, lo) {
      assert SameRecord(logs[last], history[lo + last]);
    }
    if j: nat :| j < |history| && history[j].hash == TopHash(logs) {
      if j < last {
        ChainsAgreeBackwards(next, INITIAL_HASH, history[..j + 1], seed, logs, j);
        assert history[0].hash == next(INITIAL_HASH, history[0].key, history[0].body);
        assert logs[last - j].hash == next(logs[last - j - 1].hash, logs[last - j].key, logs[last - j].body);
        ChainIsReal(next, seed, logs);
        assert false;
      }
      forall i | 0 <= i < |logs| ensures SameRecord(logs[i], history[j - last + i]) {
        ChainsAgreeBackwards(next, INITIAL_HASH, history[..j + 1], seed, logs, last - i);
      }
      assert SegmentAt(history, logs, j - last);
    }
  }

  lemma SegmentRooted(vt: VTable, history: seq<Log>, logs: seq<Log>, lo: nat)
    requires ChainedFrom(vt.next, INITIAL_HASH, history) && SegmentAt(history, logs, lo)
    ensures P.Rooted(vt, logs)
  {
    forall i | 0 <= i < |logs|
      ensures logs[i].hash
           == vt.next(if i == 0 then HashBefore(history, lo) else logs[i - 1].hash, logs[i].key, logs[i].body)
    {
      assert SameRecord(logs[i], history[lo + i]);
      if i > 0 { assert SameRecord(logs[i - 1], history[lo + i - 1]); }
      assert history[lo + i].hash == vt.next(HashBefore(history, lo + i), history[lo + i].key, history[lo + i].body);
    }
    assert ChainedFrom(vt.next, HashBefore(history, lo), logs);
  }

  /** A push keeps the whole chain computed from some seed, and never empties the log. */
  lemma EmplaceRooted(vt: VTable, conf: Configure, s: Core, log: Log)
    requires vt.Settles() && Ordered(vt, s.logs) && P.Rooted(vt, s.logs)
    ensures P.Rooted(vt, Emplace(vt, conf, s, log).0.logs)
    ensures s.logs != [] ==> Emplace(vt, conf, s, log).0.logs != []
  {
    var first := if Ignored(s, log) then s else PushOne(vt, conf, s, log).0;
    var drained := Drain(vt, conf, first);
    PushOneOrdered(vt, conf, s, log);
    P.PushOneRooted(vt, conf, s, log);
    DrainOrdered(vt, conf, first);
    P.DrainRooted(vt, conf, first);
    P.PopManyRooted(vt, drained, Excess(conf, drained));
    if s.logs != [] {
      DrainNonEmpty(vt, conf, first);
    }
  }

  lemma {:induction false} DrainNonEmpty(vt: VTable, conf: Configure, s: Core)
    requires vt.Settles() && s.logs != []
    ensures Drain(vt, conf, s).logs != []
    decreases if s.calls < vt.quiet then vt.quiet - s.calls else 0, |s.pending|
  {
    if s.pending != [] {
      var rest := s.(pending := s.pending[1..]);
      PushOneSettles(vt, conf, rest, s.pending[0]);
      DrainNonEmpty(vt, conf, PushOne(vt, conf, rest, s.pending[0]).0);
    }
  }

  /** A push leaves a segment if and only if the last hash afterwards is one of the history's. */
  lemma EmplaceByHash(vt: VTable, conf: Configure, history: seq<Log>, s: Core, m: Log)
    requires vt.Settles() && vt.Hashed() && CollisionFree(vt.next) && NeverInitial(vt.next)
    requires ChainedFrom(vt.next, INITIAL_HASH, history)
    requires Ordered(vt, s.logs) && Segment(history, s.logs)
    ensures var logs := Emplace(vt, conf, s, m).0.logs; Segment(history, logs) <==> HashIn(history, TopHash(logs))
  {
    var lo :| SegmentAt(history, s.logs, lo);
    SegmentRooted(vt, history, s.logs, lo);
    EmplaceRooted(vt, conf, s, m);
    var logs := Emplace(vt, conf, s, m).0.logs;
    var seed :| ChainedFrom(vt.next, seed, logs);
    LastHashDecides(vt.next, history, seed, logs);
  }

  // ---------------------------------------------------------------- what a delivery brings

  /** The logs with one more at its place by key, unless the key is there already; hashes aside. */
  function Take(logs: seq<Log>, p: Log): seq<Log> {
    var i := FirstAtLeast(logs, p.key);
    if Holds(logs, p.key) then logs else logs[..i] + [p] + logs[i..]
  }

  function Taken(logs: seq<Log>, ps: seq<Log>): seq<Log>
    decreases ps
  {
    if ps == [] then logs else Taken(Take(logs, ps[0]), ps[1..])
  }

  /** Key by key and body by body the logs are those of the history from index `lo` on. They start where the
      client's logs started, or with the publisher's first record. */
  ghost predicate ContinuesAt(history: seq<Log>, base: seq<Log>, taken: seq<Log>, lo: nat) {
    && lo + |taken| <= |history|
    && (forall i :: 0 <= i < |taken| ==> SameContent(taken[i], history[lo + i]))
    && (lo == 0 || (taken != [] && base != [] && taken[0].key == base[0].key))
  }

  ghost predicate Continues(history: seq<Log>, base: seq<Log>, taken: seq<Log>) {
    exists lo :: ContinuesAt(history, base, taken, lo)
  }

  /** What a push brings to a client: to one that accepts logs whatever their actions say, as clients do by
      default, the pushed log and all its callbacks push; to another those of them it accepts. */
  ghost function Brought(su: C.Setup, core: Core, m: Log): seq<Log>
    requires su.vt.Settles() && core.pending == []
  {
    if su.conf.accept && su.vt.Hashed() then (if Ignored(core, m) then [] else [m]) + C.Pushed(su, core, m)
    else C.Accepted(su, core, m)
  }

  /** The logs hold the contents of `taken`. The first hash is the old first one, unless a log was put before
      that; then it is computed from the initial code. */
  ghost predicate Mirrors(vt: VTable, base: seq<Log>, taken: seq<Log>, logs: seq<Log>) {
    && Ordered(vt, logs) && |logs| == |taken| && logs != [] && base != []
    && (forall i :: 0 <= i < |logs| ==> SameContent(logs[i], taken[i]))
    && logs[0].key <= base[0].key
    && logs[0].hash == if logs[0].key == base[0].key then base[0].hash
                       else vt.next(INITIAL_HASH, logs[0].key, logs[0].body)
  }

  lemma SamePlaces(a: seq<Log>, b: seq<Log>, k: Key)
    requires |a| == |b| && forall i :: 0 <= i < |a| ==> a[i].key == b[i].key
    ensures FirstAtLeast(a, k) == FirstAtLeast(b, k) && (Holds(a, k) <==> Holds(b, k))
  {
    FirstAtLeastUnique(a, k, FirstAtLeast(b, k));
  }

  /** An accepted log takes its place in both. */
  lemma InsertMirrors(vt: VTable, base: seq<Log>, taken: seq<Log>, logs: seq<Log>, x: Log, y: Log)
    requires vt.Hashed() && Mirrors(vt, base, taken, logs) && !Holds(logs, x.key) && SameContent(x, y)
    requires var i := FirstAtLeast(logs, x.key);
             x.hash == vt.next(HashBefore(logs, i), x.key, x.body) && Ordered(vt, Insert(vt, logs, i, x))
    ensures Mirrors(vt, base, Take(taken, y), Insert(vt, logs, FirstAtLeast(logs, x.key), x))
  {
    hide Insert, Ordered;
    var i := FirstAtLeast(logs, x.key);
    SamePlaces(logs, taken, x.key);
    InsertKeepsOthers(vt, logs, i, x);
    var r, t := Insert(vt, logs, i, x), Take(taken, y);
    assert i > 0 ==> r[0] == r[..i][0] == logs[0];
    forall j | 0 <= j < |r| ensures SameContent(r[j], t[j]) {
      if j < i { assert r[j] == r[..i][j]; }
      if i < j { assert SameContent(r[j], logs[j - 1]); }
    }
  }

  /** So does whatever one push accepts, and a client that accepts everything takes everything. */
  lemma PushMirrors(vt: VTable, conf: Configure, base: seq<Log>, taken: seq<Log>, s: Core, log: Log)
    requires vt.Hashed() && Mirrors(vt, base, taken, s.logs)
    ensures var r := PushOne(vt, conf, s, log).0;
            && s.added <= r.added && Mirrors(vt, base, Taken(taken, r.added[|s.added|..]), r.logs)
            && (conf.accept ==> Mirrors(vt, base, Take(taken, log), r.logs))
  {
    hide Insert;
    var r := PushOne(vt, conf, s, log).0;
    PushOneOrdered(vt, conf, s, log);
    PushOneBalance(vt, conf, s, log, 0);
    if r.added == s.added {
      PushOneRejects(vt, conf, s, log);
      if conf.accept {
        assert Holds(s.logs, log.key);
        SamePlaces(s.logs, taken, log.key);
      }
    } else {
      PushOneAccepted(vt, conf, s, log);
      var x := r.added[|s.added|];
      assert r.added[|s.added|..] == [x] && Taken(taken, [x]) == Take(taken, x);
      InsertMirrors(vt, base, taken, s.logs, x, x);
      InsertMirrors(vt, base, taken, s.logs, x, log);
    }
  }

  lemma {:induction false} TakenConcat(logs: seq<Log>, a: seq<Log>, b: seq<Log>)
    ensures Taken(logs, a + b) == Taken(Taken(logs, a), b)
    decreases a
  {
    if a == [] {
      assert a + b == b;
    } else {
      assert (a + b)[1..] == a[1..] + b;
      TakenConcat(Take(logs, a[0]), a[1..], b);
    }
  }

  lemma {:induction false} DrainMirrors(vt: VTable, conf: Configure, base: seq<Log>, taken: seq<Log>, s: Core)
    requires vt.Settles() && vt.Hashed() && Mirrors(vt, base, taken, s.logs)
    ensures var r := Drain(vt, conf, s);
            s.added <= r.added && Mirrors(vt, base, Taken(taken, r.added[|s.added|..]), r.logs)
    decreases if s.calls < vt.quiet then vt.quiet - s.calls else 0, |s.pending|
  {
    hide PushOne, Mirrors;
    if s.pending != [] {
      var rest := s.(pending := s.pending[1..]);
      var t := PushOne(vt, conf, rest, s.pending[0]).0;
      PushOneSettles(vt, conf, rest, s.pending[0]);
      PushMirrors(vt, conf, base, taken, rest, s.pending[0]);
      var now := Taken(taken, t.added[|s.added|..]);
      DrainMirrors(vt, conf, base, now, t);
      var r := Drain(vt, conf, t);
      C.QueueTail(s.added, t.added, r.added);
      TakenConcat(taken, t.added[|s.added|..], r.added[|t.added|..]);
    } else {
      assert Taken(taken, s.added[|s.added|..]) == taken;
    }
  }

  lemma {:induction false} DrainTakes(vt: VTable, conf: Configure, base: seq<Log>, taken: seq<Log>, s: Core)
    requires vt.Settles() && vt.Hashed() && conf.accept && Mirrors(vt, base, taken, s.logs)
    ensures var r := Drain(vt, conf, s);
            s.queued <= r.queued && Mirrors(vt, base, Taken(taken, s.pending + r.queued[|s.queued|..]), r.logs)
    decreases if s.calls < vt.quiet then vt.quiet - s.calls else 0, |s.pending|
  {
    hide PushOne, Mirrors, Take;
    DrainFifo(vt, conf, s);
    if s.pending != [] {
      var rest := s.(pending := s.pending[1..]);
      var t := PushOne(vt, conf, rest, s.pending[0]).0;
      PushOneSettles(vt, conf, rest, s.pending[0]);
      PushOneQueues(vt, conf, rest, s.pending[0]);
      PushMirrors(vt, conf, base, taken, rest, s.pending[0]);
      DrainTakes(vt, conf, base, Take(taken, s.pending[0]), t);
      QueueCons(s.pending, s.queued, t.queued, Drain(vt, conf, t).queued);
    } else {
      assert s.pending + s.queued[|s.queued|..] == [];
    }
  }

  /** What is held before trimming. */
  ghost function Untrimmed(su: C.Setup, s: Core, m: Log): seq<Log>
    requires su.vt.Settles()
  {
    Drain(su.vt, su.conf, if Ignored(s, m) then s else PushOne(su.vt, su.conf, s, m).0).logs
  }

  lemma EmplaceTakes(su: C.Setup, s: Core, m: Log)
    requires su.vt.Settles() && su.vt.Hashed() && su.conf.accept && s.pending == []
    requires Mirrors(su.vt, s.logs, s.logs, s.logs)
    ensures Mirrors(su.vt, s.logs, Taken(s.logs, Brought(su, s, m)), Untrimmed(su, s, m))
  {
    hide PushOne, Mirrors, Take, Drain;
    var vt, conf := su.vt, su.conf;
    var first := if Ignored(s, m) then s else PushOne(vt, conf, s, m).0;
    if !Ignored(s, m) { PushMirrors(vt, conf, s.logs, s.logs, s, m); }
    PushOneQueues(vt, conf, s, m);
    DrainTakes(vt, conf, s.logs, if Ignored(s, m) then s.logs else Take(s.logs, m), first);
    C.QueueTail(s.queued, first.queued, Drain(vt, conf, first).queued);
    var made := first.pending + Drain(vt, conf, first).queued[|first.queued|..];
    assert C.Pushed(su, s, m) == made;
    assert ([m] + made)[1..] == made && [] + made == made;
  }

  lemma EmplaceAccepts(su: C.Setup, s: Core, m: Log)
    requires su.vt.Settles() && su.vt.Hashed() && !su.conf.accept && s.pending == []
    requires Mirrors(su.vt, s.logs, s.logs, s.logs)
    ensures Mirrors(su.vt, s.logs, Taken(s.logs, Brought(su, s, m)), Untrimmed(su, s, m))
  {
    hide PushOne, Mirrors, Take, Drain;
    var vt, conf := su.vt, su.conf;
    var first := if Ignored(s, m) then s else PushOne(vt, conf, s, m).0;
    if !Ignored(s, m) { PushMirrors(vt, conf, s.logs, s.logs, s, m); }
    var early := first.added[|s.added|..];
    DrainMirrors(vt, conf, s.logs, Taken(s.logs, early), first);
    var drained := Drain(vt, conf, first);
    C.QueueTail(s.added, first.added, drained.added);
    TakenConcat(s.logs, early, drained.added[|first.added|..]);
  }

  lemma EmplaceMirrors(su: C.Setup, s: Core, m: Log)
    requires su.vt.Settles() && su.vt.Hashed() && Ordered(su.vt, s.logs) && s.logs != [] && s.pending == []
    ensures Mirrors(su.vt, s.logs, Taken(s.logs, Brought(su, s, m)), Untrimmed(su, s, m))
  {
    hide Taken, Brought, Untrimmed;
    if su.conf.accept { EmplaceTakes(su, s, m); } else { EmplaceAccepts(su, s, m); }
  }

  /** Two chains with the same contents and the same first hash are the same. */
  lemma {:induction false} SameChains(next: Hasher, a: seq<Log>, b: seq<Log>, n: nat)
    requires Chained(next, a) && Chained(next, b) && n < |a| <= |b| && a[0].hash == b[0].hash
    requires forall i :: 0 <= i < |a| ==> SameContent(a[i], b[i])
    ensures SameRecord(a[n], b[n])
  {
    if n > 0 { SameChains(next, a, b, n - 1); }
  }

  /** What continues the history at a place has the hash of that place first, and so all its hashes. */
  lemma ContinuesIsSegment(vt: VTable, history: seq<Log>, base: seq<Log>, at: nat, taken: seq<Log>, logs: seq<Log>,
                           lo: nat)
    requires vt.Hashed() && ChainedFrom(vt.next, INITIAL_HASH, history) && Sorted(history)
    requires base != [] && SegmentAt(history, base, at) && Mirrors(vt, base, taken, logs)
    requires ContinuesAt(history, base, taken, lo)
    ensures SegmentAt(history, logs, lo)
  {
    assert SameRecord(base[0], history[at]) && SameContent(logs[0], taken[0]) && SameContent(taken[0], history[lo]);
    assert logs[0].hash == history[lo].hash;
    forall n | 0 <= n < |logs| ensures SameRecord(logs[n], history[lo + n]) {
      SameChains(vt.next, logs, history[lo..], n);
    }
  }

  /** A segment that starts with a log put before the client's can only start with the publisher's first record. */
  lemma SegmentContinues(vt: VTable, history: seq<Log>, base: seq<Log>, taken: seq<Log>, logs: seq<Log>, lo: nat)
    requires vt.Hashed() && CollisionFree(vt.next) && NeverInitial(vt.next)
    requires ChainedFrom(vt.next, INITIAL_HASH, history)
    requires Mirrors(vt, base, taken, logs) && SegmentAt(history, logs, lo)
    ensures ContinuesAt(history, base, taken, lo)
  {
    assert SameRecord(logs[0], history[lo]);
    assert history[lo].hash == vt.next(HashBefore(history, lo), history[lo].key, history[lo].body);
    ChainIsReal(vt.next, INITIAL_HASH, history);
    assert SameContent(logs[0], taken[0]);
    forall i | 0 <= i < |taken| ensures SameContent(taken[i], history[lo + i]) {
      assert SameRecord(logs[i], history[lo + i]);
    }
  }

  /** Logs that mirror what was taken are a segment of the history if and only if what was taken continues it. */
  lemma MirrorsDecide(vt: VTable, history: seq<Log>, base: seq<Log>, taken: seq<Log>, logs: seq<Log>)
    requires vt.Hashed() && CollisionFree(vt.next) && NeverInitial(vt.next)
    requires ChainedFrom(vt.next, INITIAL_HASH, history) && Sorted(history)
    requires Segment(history, base) && Mirrors(vt, base, taken, logs)
    ensures Segment(history, logs) <==> Continues(history, base, taken)
  {
    hide CollisionFree, NeverInitial, ChainedFrom, Sorted, SegmentAt, ContinuesAt;
    var at: nat :| SegmentAt(history, base, at);
    if lo: nat :| ContinuesAt(history, base, taken, lo) {
      ContinuesIsSegment(vt, history, base, at, taken, logs, lo);
    }
    if lo: nat :| SegmentAt(history, logs, lo) { SegmentContinues(vt, history, base, taken, logs, lo); }
  }

  /** Trimming a chain from the front does not decide. */
  lemma TrimDecides(vt: VTable, history: seq<Log>, s: Core, n: nat)
    requires vt.Hashed() && CollisionFree(vt.next) && NeverInitial(vt.next)
    requires ChainedFrom(vt.next, INITIAL_HASH, history)
    requires Ordered(vt, s.logs) && P.Rooted(vt, s.logs) && s.logs != [] && n < |s.logs|
    ensures Segment(history, PopMany(s, n).logs) <==> Segment(history, s.logs)
  {
    P.PopManyRooted(vt, s, n);
    var trimmed := PopMany(s, n).logs;
    assert trimmed == s.logs[n..];
    var seed :| ChainedFrom(vt.next, seed, s.logs);
    var later :| ChainedFrom(vt.next, later, trimmed);
    LastHashDecides(vt.next, history, seed, s.logs);
    LastHashDecides(vt.next, history, later, trimmed);
  }

  lemma EmplaceDecides(su: C.Setup, history: seq<Log>, s: Core, m: Log)
    requires su.vt.Settles() && su.vt.Hashed() && CollisionFree(su.vt.next) && NeverInitial(su.vt.next)
    requires ChainedFrom(su.vt.next, INITIAL_HASH, history)
    requires Ordered(su.vt, s.logs) && Segment(history, s.logs)
    ensures Segment(history, Emplace(su.vt, su.conf, s, m).0.logs) <==> Segment(history, Untrimmed(su, s, m))
  {
    hide PushOne;
    var lo :| SegmentAt(history, s.logs, lo);
    SegmentRooted(su.vt, history, s.logs, lo);
    var first := if Ignored(s, m) then s else PushOne(su.vt, su.conf, s, m).0;
    var drained := Drain(su.vt, su.conf, first);
    PushOneOrdered(su.vt, su.conf, s, m);
    P.PushOneRooted(su.vt, su.conf, s, m);
    PushNonEmpty(su.vt, su.conf, s, m);
    DrainOrdered(su.vt, su.conf, first);
    P.DrainRooted(su.vt, su.conf, first);
    DrainNonEmpty(su.vt, su.conf, first);
    TrimDecides(su.vt, history, drained, Excess(su.conf, drained));
  }

  lemma PushNonEmpty(vt: VTable, conf: Configure, s: Core, m: Log)
    requires s.logs != []
    ensures PushOne(vt, conf, s, m).0.logs != []
  {}

  /** One delivery, of any log, to a client with any callbacks: the client's logs stay a segment of the history
      if and only if, should the log be let in, the client's logs with what the delivery brings put at its
      places continue the history. */
  lemma DeliverKeepsSegment(su: C.Setup, c: C.Client, history: seq<Log>, m: Log)
    requires su.vt.Settles() && su.vt.Hashed() && CollisionFree(su.vt.next) && NeverInitial(su.vt.next)
    requires ChainedFrom(su.vt.next, INITIAL_HASH, history) && Sorted(history)
    requires Ordered(su.vt, c.core.logs) && c.core.pending == [] && Segment(history, c.core.logs)
    ensures Segment(history, C.ReceiveLog(su, c, m).0.core.logs) <==>
              (C.Admits(su, c, m) ==>
                 Continues(history, c.core.logs, Taken(c.core.logs, Brought(su, c.core, m))))
  {
    if C.Admits(su, c, m) {
      EmplaceMirrors(su, c.core, m);
      EmplaceDecides(su, history, c.core, m);
      MirrorsDecide(su.vt, history, c.core.logs, Taken(c.core.logs, Brought(su, c.core, m)),
                    Untrimmed(su, c.core, m));
    }
  }

  // ---------------------------------------------------------------- deliveries that bring one log

  ghost predicate AllLike(logs: seq<Log>, m: Log) {
    logs != [] ==> SameContent(logs[0], m) && AllLike(logs[1..], m)
  }

  lemma {:induction false} AllLikeIff(logs: seq<Log>, m: Log)
    ensures AllLike(logs, m) <==> forall x :: x in logs ==> SameContent(x, m)
  {
    if logs != [] {
      AllLikeIff(logs[1..], m);
      assert forall x :: x in logs <==> x == logs[0] || x in logs[1..];
    }
  }

  lemma {:induction false} AllLikeTail(logs: seq<Log>, m: Log, n: nat)
    requires AllLike(logs, m) && n <= |logs|
    ensures AllLike(logs[n..], m)
  {
    if n > 0 {
      AllLikeTail(logs[1..], m, n - 1);
      assert logs[1..][n - 1..] == logs[n..];
    } else {
      assert logs[0..] == logs;
    }
  }

  /** What the push of a log makes the client accept is that log or nothing: its callbacks push nothing, or
      nothing that is accepted besides. */
  ghost predicate Alone(su: C.Setup, core: Core, m: Log)
    requires su.vt.Settles()
  {
    forall x :: x in C.Accepted(su, core, m) ==> SameContent(x, m)
  }

  /** A push that accepts nothing moves no search position and no top record. */
  lemma RejectKeeps(vt: VTable, conf: Configure, s: Core, log: Log, k: Key)
    requires PushOne(vt, conf, s, log).0.added == s.added
    ensures var t := PushOne(vt, conf, s, log).0;
            && |t.logs| == |s.logs| && TopHash(t.logs) == TopHash(s.logs)
            && FirstAtLeast(t.logs, k) == FirstAtLeast(s.logs, k) && (Holds(t.logs, k) <==> Holds(s.logs, k))
            && (s.logs != [] ==> SameRecord(t.logs[|t.logs| - 1], s.logs[|s.logs| - 1]))
  {
    PushOneRejects(vt, conf, s, log);
    FirstAtLeastUnique(PushOne(vt, conf, s, log).0.logs, k, FirstAtLeast(s.logs, k));
  }

  /** What a push accepts first is among what it accepts with the queue drained. */
  lemma DrainSplit(vt: VTable, conf: Configure, s: Core, t: Core, m: Log)
    requires vt.Settles() && s.added <= t.added && s.added <= Drain(vt, conf, t).added
    requires AllLike(Drain(vt, conf, t).added[|s.added|..], m)
    ensures t.added <= Drain(vt, conf, t).added
    ensures AllLike(Drain(vt, conf, t).added[|t.added|..], m)
    ensures |t.added| > |s.added| ==> SameContent(t.added[|s.added|], m)
  {
    hide Drain, PushOne;
    DrainRemoved(vt, conf, t);
    var r := Drain(vt, conf, t);
    var news := r.added[|s.added|..];
    AllLikeTail(news, m, |t.added| - |s.added|);
    assert r.added[|t.added|..] == news[|t.added| - |s.added|..];
    if |t.added| > |s.added| { assert news[0] == t.added[|s.added|]; }
  }

  /** Once the log is held, nothing more with its content can be accepted, and no hash changes. */
  lemma {:induction false} DrainHeld(vt: VTable, conf: Configure, s: Core, m: Log)
    requires vt.Settles() && Holds(s.logs, m.key)
    requires s.added <= Drain(vt, conf, s).added
    requires AllLike(Drain(vt, conf, s).added[|s.added|..], m)
    ensures var r := Drain(vt, conf, s);
            r.added == s.added && r.logs != [] && SameRecord(r.logs[|r.logs| - 1], s.logs[|s.logs| - 1])
    decreases if s.calls < vt.quiet then vt.quiet - s.calls else 0, |s.pending|
  {
    hide PushOne;
    if s.pending != [] {
      var rest := s.(pending := s.pending[1..]);
      var t := PushOne(vt, conf, rest, s.pending[0]).0;
      PushOneSettles(vt, conf, rest, s.pending[0]);
      PushOneBalance(vt, conf, rest, s.pending[0], 0);
      DrainSplit(vt, conf, s, t, m);
      HeldRejects(vt, conf, rest, s.pending[0], m);
      RejectKeeps(vt, conf, rest, s.pending[0], m.key);
      DrainHeld(vt, conf, t, m);
    }
  }

  lemma HeldRejects(vt: VTable, conf: Configure, s: Core, log: Log, m: Log)
    requires Holds(s.logs, m.key) && s.added <= PushOne(vt, conf, s, log).0.added
    requires var t := PushOne(vt, conf, s, log).0; |t.added| > |s.added| ==> SameContent(t.added[|s.added|], m)
    ensures PushOne(vt, conf, s, log).0.added == s.added
  {
    if |PushOne(vt, conf, s, log).0.added| > |s.added| { PushOneAccepted(vt, conf, s, log); }
  }

  /** Draining a queue that brings at most one log, above all others, extends the chain by at most that. */
  lemma {:induction false} DrainAlone(vt: VTable, conf: Configure, s: Core, m: Log)
    requires vt.Settles() && vt.Hashed() && FirstAtLeast(s.logs, m.key) == |s.logs|
    requires s.added <= Drain(vt, conf, s).added
    requires AllLike(Drain(vt, conf, s).added[|s.added|..], m)
    ensures Extended(vt, s, Drain(vt, conf, s), m)
    decreases if s.calls < vt.quiet then vt.quiet - s.calls else 0, |s.pending|
  {
    hide PushOne;
    if s.pending != [] {
      var rest := s.(pending := s.pending[1..]);
      var t := PushOne(vt, conf, rest, s.pending[0]).0;
      PushOneSettles(vt, conf, rest, s.pending[0]);
      PushOneBalance(vt, conf, rest, s.pending[0], 0);
      DrainSplit(vt, conf, s, t, m);
      if |t.added| > |s.added| {
        AcceptedOnTop(vt, conf, rest, s.pending[0], m);
        DrainHeld(vt, conf, t, m);
      } else {
        RejectKeeps(vt, conf, rest, s.pending[0], m.key);
        DrainAlone(vt, conf, t, m);
      }
    }
  }

  /** The chain of `s` is extended by the log, or not at all. */
  ghost predicate Extended(vt: VTable, s: Core, r: Core, m: Log) {
    && (s.logs != [] ==> r.logs != [])
    && (r.added != s.added ==> r.logs != [] && SameContent(r.logs[|r.logs| - 1], m))
    && TopHash(r.logs) == if r.added == s.added then TopHash(s.logs) else vt.next(TopHash(s.logs), m.key, m.body)
  }

  lemma AcceptedOnTop(vt: VTable, conf: Configure, s: Core, log: Log, m: Log)
    requires vt.Hashed() && FirstAtLeast(s.logs, m.key) == |s.logs|
    requires PushOne(vt, conf, s, log).0.added != s.added
    requires |PushOne(vt, conf, s, log).0.added| > |s.added|
    requires SameContent(PushOne(vt, conf, s, log).0.added[|s.added|], m)
    ensures var t := PushOne(vt, conf, s, log).0;
            && Holds(t.logs, m.key) && SameContent(t.logs[|t.logs| - 1], m)
            && TopHash(t.logs) == vt.next(TopHash(s.logs), m.key, m.body)
  {
    PushOneAccepted(vt, conf, s, log);
    var t := PushOne(vt, conf, s, log).0;
    AppendIsInsert(vt, s.logs, t.added[|s.added|]);
    FirstAtLeastUnique(t.logs, m.key, |s.logs|);
  }

  lemma PushAlone(vt: VTable, conf: Configure, s: Core, m: Log)
    requires vt.Settles() && vt.Hashed() && FirstAtLeast(s.logs, m.key) == |s.logs|
    requires var first := if Ignored(s, m) then s else PushOne(vt, conf, s, m).0;
             s.added <= Drain(vt, conf, first).added && AllLike(Drain(vt, conf, first).added[|s.added|..], m)
    ensures var first := if Ignored(s, m) then s else PushOne(vt, conf, s, m).0;
            Extended(vt, s, Drain(vt, conf, first), m)
  {
    hide PushOne;
    var first := if Ignored(s, m) then s else PushOne(vt, conf, s, m).0;
    PushOneBalance(vt, conf, s, m, 0);
    DrainSplit(vt, conf, s, first, m);
    if |first.added| > |s.added| {
      AcceptedOnTop(vt, conf, s, m, m);
      DrainHeld(vt, conf, first, m);
    } else {
      if !Ignored(s, m) { RejectKeeps(vt, conf, s, m, m.key); }
      DrainAlone(vt, conf, first, m);
    }
  }

  /** A push above all others that brings at most its own log extends the chain by at most that. */
  lemma EmplaceAlone(su: C.Setup, s: Core, m: Log)
    requires su.vt.Settles() && su.vt.Hashed() && Alone(su, s, m)
    requires FirstAtLeast(s.logs, m.key) == |s.logs|
    ensures Extended(su.vt, s, Emplace(su.vt, su.conf, s, m).0, m)
  {
    C.EmplaceBalance(su.vt, su.conf, s, m, 0);
    AllLikeIff(C.Accepted(su, s, m), m);
    PushAlone(su.vt, su.conf, s, m);
    var drained := Drain(su.vt, su.conf, if Ignored(s, m) then s else PushOne(su.vt, su.conf, s, m).0);
    TrimTop(drained, Excess(su.conf, drained));
  }

  lemma TrimTop(s: Core, n: nat)
    requires n < |s.logs| || n == 0
    ensures var r := PopMany(s, n).logs;
            && n <= |s.logs| && TopHash(r) == TopHash(s.logs)
            && (s.logs != [] ==> r != [] && r[|r| - 1] == s.logs[|s.logs| - 1])
  {}

  /** Then every delivery brings one log. */
  lemma SilentAlone(su: C.Setup, s: Core, m: Log)
    requires su.vt.Settles() && Silent(su.vt) && s.pending == []
    ensures Alone(su, s, m)
  {
    hide Insert;
    C.EmplaceBalance(su.vt, su.conf, s, m, 0);
    if !Ignored(s, m) {
      var t := PushOne(su.vt, su.conf, s, m).0;
      if !Holds(s.logs, m.key) {
        var run := Redo(su.vt, s.calls, Seal(su.vt, s.logs, FirstAtLeast(s.logs, m.key), m));
        assert run.pushes == [];
      }
      assert t.pending == [];
      if t.added != s.added { PushOneAccepted(su.vt, su.conf, s, m); }
    }
  }

  /** A history record that matches the hash of the client's last log is the next one. */
  lemma MatchIsNext(vt: VTable, history: seq<Log>, logs: seq<Log>, lo: nat, m: Log, j: nat)
    requires vt.Hashed() && CollisionFree(vt.next) && NeverInitial(vt.next)
    requires ChainedFrom(vt.next, INITIAL_HASH, history) && Sorted(history)
    requires logs != [] && SegmentAt(history, logs, lo)
    requires j < |history| && SameRecord(m, history[j])
    requires FirstAtLeast(logs, m.key) == |logs| && C.HashMatches(vt, logs, m)
    ensures j == lo + |logs| && vt.next(TopHash(logs), m.key, m.body) == m.hash
  {
    var last := lo + |logs| - 1;
    assert SameRecord(logs[|logs| - 1], history[last]);
    assert history[last].hash == vt.next(HashBefore(history, last), history[last].key, history[last].body);
    assert history[j].hash == vt.next(HashBefore(history, j), history[j].key, history[j].body);
    assert HashBefore(history, j) == history[last].hash;
    if j > 0 { HashPlace(vt.next, history, j - 1, last); }
  }

  lemma TrimKeepsSegment(history: seq<Log>, s: Core, lo: nat, n: nat)
    requires s.logs != [] && SegmentAt(history, s.logs, lo) && (n < |s.logs| || n == 0)
    ensures Segment(history, PopMany(s, n).logs)
  {
    assert SegmentAt(history, PopMany(s, n).logs, lo + n);
  }

  lemma CollectKeepsSegment(su: C.Setup, c: C.Client, history: seq<Log>, now: int, limit: nat)
    requires Segment(history, c.core.logs)
    ensures Segment(history, C.Collect(su, c, now, limit).core.logs)
  {
    var lo :| SegmentAt(history, c.core.logs, lo);
    var n := GcCount(su.vt, su.conf, now, None, c.core.logs, limit);
    if n > 0 {
      assert Collectable(su.vt, su.conf, now, None, |c.core.logs| - (n - 1), c.core.logs[n - 1]);
    }
    TrimKeepsSegment(history, c.core, lo, n);
  }

  // ---------------------------------------------------------------- the whole system

  /** A publisher, a client, and the message copies under way between them. */
  datatype System = System(pub: P.Pub, client: C.Client, net: set<Log>)

  /** Anything that can happen: the publisher works, sends a copy of a log it holds, or the network
      delivers a copy, which stays under way and so may arrive again and in any order, or drops it; the
      client collects expired logs. */
  datatype Event =
    | Publish(op: P.Op)
    | Send(log: Log)
    | Drop(log: Log)
    | Deliver(log: Log)
    | ClientCollects(now: int, limit: nat)

  /** The publisher's callbacks and configuration. */
  datatype Origin = Origin(vt: VTable, conf: Configure)

  ghost function Happen(o: Origin, su: C.Setup, sys: System, e: Event): System
    requires o.vt.Settles() && su.vt.Settles() && Consistent(o.vt, sys.pub.core)
  {
    match e
    case Publish(op) => sys.(pub := P.Step(o.vt, o.conf, false, sys.pub, op))
    case Send(log) => if log in sys.pub.core.logs then sys.(net := sys.net + {log}) else sys
    case Drop(log) => sys.(net := sys.net - {log})
    case Deliver(log) =>
      if log in sys.net then sys.(client := C.ReceiveLog(su, sys.client, log).0) else sys
    case ClientCollects(now, limit) => sys.(client := C.Collect(su, sys.client, now, limit))
  }

  lemma HappenConsistent(o: Origin, su: C.Setup, sys: System, e: Event)
    requires o.vt.Settles() && su.vt.Settles() && Consistent(o.vt, sys.pub.core)
    ensures var r := Happen(o, su, sys, e); Consistent(o.vt, r.pub.core) && sys.pub.core.added <= r.pub.core.added
  {
    if e.Publish? { P.StepConsistent(o.vt, o.conf, false, sys.pub, e.op); }
  }

  ghost function Unfold(o: Origin, su: C.Setup, start: System, events: seq<Event>): (r: System)
    requires o.vt.Settles() && su.vt.Settles() && Consistent(o.vt, start.pub.core)
    ensures Consistent(o.vt, r.pub.core)
  {
    if events == [] then start
    else
      var before := Unfold(o, su, start, events[..|events| - 1]);
      HappenConsistent(o, su, before, events[|events| - 1]);
      Happen(o, su, before, events[|events| - 1])
  }

  /** Publisher and client share one collision-free hash that is never 0. */
  ghost predicate Compatible(o: Origin, su: C.Setup) {
    && o.vt.Settles() && su.vt.Settles()
    && o.vt.Hashed() && su.vt.Hashed() && o.vt.next == su.vt.next
    && CollisionFree(o.vt.next) && NeverInitial(o.vt.next)
  }

  /** The client holds a segment of the history, and every copy under way is a record of it. */
  ghost predicate Safe(o: Origin, su: C.Setup, sys: System) {
    && Consistent(o.vt, sys.pub.core) && Historic(o.vt, sys.pub.core)
    && Ordered(su.vt, sys.client.core.logs) && sys.client.core.pending == []
    && Segment(sys.pub.core.added, sys.client.core.logs)
    && (forall m :: m in sys.net ==> InHistory(sys.pub.core.added, m))
  }

  /** Moreover the client's last-finished key bounds its logs. */
  ghost predicate Guarded(o: Origin, su: C.Setup, sys: System) {
    Safe(o, su, sys) && C.Monotone(su.vt, sys.client)
  }

  ghost predicate InHistory(history: seq<Log>, m: Log) {
    exists j: nat :: j < |history| && SameRecord(m, history[j])
  }

  lemma HistoryGrows(a: seq<Log>, b: seq<Log>)
    requires a <= b
    ensures forall m :: InHistory(a, m) ==> InHistory(b, m)
    ensures forall logs :: Segment(a, logs) ==> Segment(b, logs)
  {
    forall m | InHistory(a, m) ensures InHistory(b, m) {
      var j: nat :| j < |a| && SameRecord(m, a[j]);
      assert b[j] == a[j];
    }
    forall logs | Segment(a, logs) ensures Segment(b, logs) {
      var lo :| SegmentAt(a, logs, lo);
      assert SegmentAt(b, logs, lo);
    }
  }

  lemma PublishSafe(o: Origin, su: C.Setup, sys: System, op: P.Op)
    requires Compatible(o, su) && Safe(o, su, sys) && AppendOnly(Happen(o, su, sys, Publish(op)).pub.core)
    ensures Safe(o, su, Happen(o, su, sys, Publish(op)))
  {
    HappenConsistent(o, su, sys, Publish(op));
    PublishHistoric(o.vt, o.conf, sys.pub, op);
    HistoryGrows(sys.pub.core.added, Happen(o, su, sys, Publish(op)).pub.core.added);
  }

  /** The event puts a log into the client's log. */
  predicate LetIn(su: C.Setup, sys: System, e: Event) {
    e.Deliver? && e.log in sys.net && C.Admits(su, sys.client, e.log)
  }

  /** What a delivery must bring: logs that, put at their places, continue the history. */
  ghost predicate Faithful(su: C.Setup, sys: System, e: Event)
    requires su.vt.Settles() && sys.client.core.pending == []
  {
    var core := sys.client.core;
    LetIn(su, sys, e) ==> Continues(sys.pub.core.added, core.logs, Taken(core.logs, Brought(su, core, e.log)))
  }

  lemma DeliverSafe(o: Origin, su: C.Setup, sys: System, log: Log)
    requires Compatible(o, su) && Safe(o, su, sys) && AppendOnly(sys.pub.core)
    ensures Safe(o, su, Happen(o, su, sys, Deliver(log))) <==> Faithful(su, sys, Deliver(log))
  {
    hide Brought, Taken, Emplace;
    if log in sys.net {
      DeliverKeepsSegment(su, sys.client, sys.pub.core.added, log);
      EmplaceOrdered(su.vt, su.conf, sys.client.core, log);
    }
  }

  lemma SendSafe(o: Origin, su: C.Setup, sys: System, log: Log)
    requires Compatible(o, su) && Safe(o, su, sys)
    ensures Safe(o, su, Happen(o, su, sys, Send(log)))
  {
    var core := sys.pub.core;
    if log in core.logs {
      var i :| 0 <= i < |core.logs| && core.logs[i] == log;
      assert SameRecord(core.logs[i], core.added[|core.popped| + i]);
    }
  }

  lemma CollectSafe(o: Origin, su: C.Setup, sys: System, now: int, limit: nat)
    requires Compatible(o, su) && Safe(o, su, sys)
    ensures Safe(o, su, Happen(o, su, sys, ClientCollects(now, limit)))
  {
    CollectKeepsSegment(su, sys.client, sys.pub.core.added, now, limit);
    PopManyOrdered(su.vt, sys.client.core, GcCount(su.vt, su.conf, now, None, sys.client.core.logs, limit));
  }

  /** An event keeps the system safe if and only if it is no delivery or a faithful one. */
  lemma HappenSafe(o: Origin, su: C.Setup, sys: System, e: Event)
    requires Compatible(o, su) && Safe(o, su, sys) && AppendOnly(Happen(o, su, sys, e).pub.core)
    ensures Safe(o, su, Happen(o, su, sys, e)) <==> Faithful(su, sys, e)
  {
    match e
    case Publish(op) => PublishSafe(o, su, sys, op);
    case Send(log) => SendSafe(o, su, sys, log);
    case Drop(_) =>
    case Deliver(log) => DeliverSafe(o, su, sys, log);
    case ClientCollects(now, limit) => CollectSafe(o, su, sys, now, limit);
  }

  /** The client's queue is empty between events. */
  lemma HappenDrained(o: Origin, su: C.Setup, sys: System, e: Event)
    requires o.vt.Settles() && su.vt.Settles() && Consistent(o.vt, sys.pub.core) && sys.client.core.pending == []
    ensures Happen(o, su, sys, e).client.core.pending == []
  {
    hide Consistent, PushOne, P.Step, C.HashMatches;
  }

  lemma {:induction false} UnfoldDrained(o: Origin, su: C.Setup, start: System, events: seq<Event>)
    requires o.vt.Settles() && su.vt.Settles() && Consistent(o.vt, start.pub.core) && start.client.core.pending == []
    ensures Unfold(o, su, start, events).client.core.pending == []
  {
    hide Consistent, Happen;
    if events != [] {
      UnfoldDrained(o, su, start, events[..|events| - 1]);
      HappenDrained(o, su, Unfold(o, su, start, events[..|events| - 1]), events[|events| - 1]);
    }
  }

  ghost predicate SafeThroughout(o: Origin, su: C.Setup, start: System, events: seq<Event>)
    requires o.vt.Settles() && su.vt.Settles() && Consistent(o.vt, start.pub.core)
  {
    && Safe(o, su, Unfold(o, su, start, events))
    && (events != [] ==> SafeThroughout(o, su, start, events[..|events| - 1]))
  }

  ghost predicate FaithfulThroughout(o: Origin, su: C.Setup, start: System, events: seq<Event>)
    requires o.vt.Settles() && su.vt.Settles() && Consistent(o.vt, start.pub.core) && start.client.core.pending == []
  {
    events != [] ==>
      var front := events[..|events| - 1];
      UnfoldDrained(o, su, start, front);
      Faithful(su, Unfold(o, su, start, front), events[|events| - 1]) && FaithfulThroughout(o, su, start, front)
  }

  /** Replication, exactly. From a safe state, with an append-only publisher that does whatever it likes, a
      network that drops, duplicates and reorders, and client callbacks that push whatever they like: the
      client's log is a contiguous segment of the publisher's history, with identical hashes, all the way if
      and only if every delivery brings logs that continue the history. */
  lemma {:induction false} ReplicationExact(o: Origin, su: C.Setup, start: System, events: seq<Event>)
    requires Compatible(o, su) && Safe(o, su, start)
    requires AppendOnly(Unfold(o, su, start, events).pub.core)
    ensures SafeThroughout(o, su, start, events) <==> FaithfulThroughout(o, su, start, events)
  {
    if events != [] {
      var front := events[..|events| - 1];
      var before := Unfold(o, su, start, front);
      HappenConsistent(o, su, before, events[|events| - 1]);
      PrefixSorted(before.pub.core.added, Unfold(o, su, start, events).pub.core.added);
      ReplicationExact(o, su, start, front);
      if SafeThroughout(o, su, start, front) { HappenSafe(o, su, before, events[|events| - 1]); }
    }
  }

  /** A record of the history that is all a push brings leaves a segment. */
  lemma AloneKeepsSegment(su: C.Setup, history: seq<Log>, c: C.Client, m: Log)
    requires su.vt.Settles() && su.vt.Hashed() && CollisionFree(su.vt.next) && NeverInitial(su.vt.next)
    requires ChainedFrom(su.vt.next, INITIAL_HASH, history) && Sorted(history) && InHistory(history, m)
    requires C.Monotone(su.vt, c) && Segment(history, c.core.logs)
    requires C.Admits(su, c, m) && Alone(su, c.core, m)
    ensures Segment(history, Emplace(su.vt, su.conf, c.core, m).0.logs)
  {
    hide Emplace, Alone;
    var s := c.core;
    var j: nat :| j < |history| && SameRecord(m, history[j]);
    var lo: nat :| SegmentAt(history, s.logs, lo);
    C.PassedGuardAppends(su.vt, c, m);
    MatchIsNext(su.vt, history, s.logs, lo, m, j);
    EmplaceAlone(su, s, m);
    assert SameRecord(s.logs[|s.logs| - 1], history[lo + |s.logs| - 1]);
    EmplaceByHash(su.vt, su.conf, history, s, m);
  }

  /** A delivery that brings at most the delivered record of the history keeps segment and bound. */
  lemma AloneGuarded(o: Origin, su: C.Setup, sys: System, m: Log)
    requires Compatible(o, su) && Guarded(o, su, sys) && AppendOnly(sys.pub.core)
    requires LetIn(su, sys, Deliver(m)) ==> Alone(su, sys.client.core, m)
    ensures Guarded(o, su, Happen(o, su, sys, Deliver(m)))
  {
    hide Emplace, Segment, InHistory, C.Monotone, C.HashMatches, Ordered, Consistent, CollisionFree, NeverInitial;
    if LetIn(su, sys, Deliver(m)) {
      AloneKeepsSegment(su, sys.pub.core.added, sys.client, m);
      AloneMonotone(su, sys.client, m);
    }
  }

  lemma AloneMonotone(su: C.Setup, c: C.Client, m: Log)
    requires su.vt.Settles() && C.Monotone(su.vt, c) && Alone(su, c.core, m)
    ensures var r := C.ReceiveLog(su, c, m).0;
            C.Monotone(su.vt, r) && Ordered(su.vt, r.core.logs) && r.core.pending == []
  {
    hide Emplace, Ordered;
    C.ReceiveMonotone(su, c, m);
  }

  lemma HappenGuarded(o: Origin, su: C.Setup, sys: System, e: Event)
    requires Compatible(o, su) && Guarded(o, su, sys) && AppendOnly(Happen(o, su, sys, e).pub.core)
    requires LetIn(su, sys, e) ==> Alone(su, sys.client.core, e.log)
    ensures Guarded(o, su, Happen(o, su, sys, e))
  {
    HappenSafe(o, su, sys, e);
    match e
    case Deliver(log) => AloneGuarded(o, su, sys, log);
    case ClientCollects(now, limit) => C.StepMonotone(su, sys.client, C.CollectLogs(now, limit));
    case _ =>
  }

  ghost predicate AloneThroughout(o: Origin, su: C.Setup, start: System, events: seq<Event>)
    requires o.vt.Settles() && su.vt.Settles() && Consistent(o.vt, start.pub.core)
  {
    events != [] ==>
      var front, e := events[..|events| - 1], events[|events| - 1];
      && (LetIn(su, Unfold(o, su, start, front), e) ==> Alone(su, Unfold(o, su, start, front).client.core, e.log))
      && AloneThroughout(o, su, start, front)
  }

  /** Replication safety. So it is as long as every delivery makes the client accept at most the delivered
      log; and the last-finished key goes on bounding the client's log. */
  lemma {:induction false} ReplicationSafe(o: Origin, su: C.Setup, start: System, events: seq<Event>)
    requires Compatible(o, su) && Guarded(o, su, start)
    requires AppendOnly(Unfold(o, su, start, events).pub.core)
    requires AloneThroughout(o, su, start, events)
    ensures Guarded(o, su, Unfold(o, su, start, events))
  {
    if events != [] {
      var front, e := events[..|events| - 1], events[|events| - 1];
      var before := Unfold(o, su, start, front);
      HappenConsistent(o, su, before, e);
      PrefixSorted(before.pub.core.added, Unfold(o, su, start, events).pub.core.added);
      ReplicationSafe(o, su, start, front);
      HappenGuarded(o, su, before, e);
    }
  }

  /** A client whose callbacks do not push is only ever brought the delivered log. */
  lemma {:induction false} SilentThroughout(o: Origin, su: C.Setup, start: System, events: seq<Event>)
    requires o.vt.Settles() && su.vt.Settles() && Consistent(o.vt, start.pub.core) && start.client.core.pending == []
    requires Silent(su.vt)
    ensures AloneThroughout(o, su, start, events)
  {
    if events != [] {
      var front, e := events[..|events| - 1], events[|events| - 1];
      SilentThroughout(o, su, start, front);
      UnfoldDrained(o, su, start, front);
      if e.Deliver? { SilentAlone(su, Unfold(o, su, start, front).client.core, e.log); }
    }
  }

  /** So every run of such a client is safe, whatever the publisher does and the network drops, duplicates and
      reorders. */
  lemma SilentSafe(o: Origin, su: C.Setup, start: System, events: seq<Event>)
    requires Compatible(o, su) && Silent(su.vt) && Guarded(o, su, start)
    requires AppendOnly(Unfold(o, su, start, events).pub.core)
    ensures Guarded(o, su, Unfold(o, su, start, events))
  {
    SilentThroughout(o, su, start, events);
    ReplicationSafe(o, su, start, events);
  }

  // ---------------------------------------------------------------- getting started

  /** A client seeded by `assign_logs` with a non-empty part of what the publisher holds is safe. */
  lemma SeededSafe(o: Origin, su: C.Setup, pub: P.Pub, c: C.Client, from: nat, to: nat)
    requires Compatible(o, su) && Consistent(o.vt, pub.core) && Historic(o.vt, pub.core)
    requires C.Monotone(su.vt, c) && from < to <= |pub.core.logs|
    ensures Guarded(o, su, System(pub, C.AssignLogs(c, pub.core.logs[from..to]), {}))
  {
    var seed := pub.core.logs[from..to];
    C.StepMonotone(su, c, C.Assign(seed));
    assert SegmentAt(pub.core.added, seed, |pub.core.popped| + from);
  }

  /** A client with no logs has no hash to check against and accepts any log, under a hash computed
      from the initial code. If that is all it accepts, it then holds a segment of the history exactly
      when that log was the publisher's first. */
  lemma FirstLogDecides(su: C.Setup, c: C.Client, history: seq<Log>, m: Log, j: nat)
    requires su.vt.Settles() && su.vt.Hashed() && CollisionFree(su.vt.next) && NeverInitial(su.vt.next)
    requires ChainedFrom(su.vt.next, INITIAL_HASH, history) && Sorted(history)
    requires c.core.logs == [] && Alone(su, c.core, m)
    requires j < |history| && SameRecord(m, history[j])
    requires C.ReceiveLog(su, c, m).0.core.added != c.core.added
    ensures Segment(history, C.ReceiveLog(su, c, m).0.core.logs) <==> j == 0
  {
    var logs := Emplace(su.vt, su.conf, c.core, m).0.logs;
    EmplaceAlone(su, c.core, m);
    assert ChainedFrom(su.vt.next, INITIAL_HASH, c.core.logs);
    EmplaceRooted(su.vt, su.conf, c.core, m);
    var seed :| ChainedFrom(su.vt.next, seed, logs);
    LastHashDecides(su.vt.next, history, seed, logs);
    assert TopHash(logs) == su.vt.next(INITIAL_HASH, m.key, m.body);
    if t: nat :| t < |history| && history[t].hash == TopHash(logs) {
      assert history[t].hash == su.vt.next(HashBefore(history, t), history[t].key, history[t].body);
      ChainIsReal(su.vt.next, INITIAL_HASH, history);
      assert t == 0 && history[j].key == history[0].key;
    }
    if j == 0 { assert history[0].hash == TopHash(logs); }
  }

  /** So a client without logs that accepts the publisher's first record is safe from then on. */
  lemma FirstLogSafe(o: Origin, su: C.Setup, sys: System, m: Log)
    requires Compatible(o, su) && Consistent(o.vt, sys.pub.core) && Historic(o.vt, sys.pub.core)
    requires AppendOnly(sys.pub.core) && C.Monotone(su.vt, sys.client) && sys.client.core.logs == []
    requires forall x :: x in sys.net ==> InHistory(sys.pub.core.added, x)
    requires m in sys.net && sys.pub.core.added != [] && SameRecord(m, sys.pub.core.added[0])
    requires Alone(su, sys.client.core, m)
    requires C.ReceiveLog(su, sys.client, m).0.core.added != sys.client.core.added
    ensures Guarded(o, su, Happen(o, su, sys, Deliver(m)))
  {
    FirstLogDecides(su, sys.client, sys.pub.core.added, m, 0);
    C.ReceiveMonotone(su, sys.client, m);
  }

  // ---------------------------------------------------------------- catching up

  /** The client receives logs one after the other. */
  ghost function ReceiveAll(su: C.Setup, c: C.Client, logs: seq<Log>): C.Client
    requires su.vt.Settles()
    decreases logs
  {
    if logs == [] then c else ReceiveAll(su, C.ReceiveLog(su, c, logs[0]).0, logs[1..])
  }

  ghost predicate AloneAll(su: C.Setup, c: C.Client, logs: seq<Log>)
    requires su.vt.Settles()
    decreases logs
  {
    logs != [] ==> Alone(su, c.core, logs[0]) && AloneAll(su, C.ReceiveLog(su, c, logs[0]).0, logs[1..])
  }

  /** A client that takes logs, whatever its actions say, and stands at its last log. */
  ghost predicate Ready(su: C.Setup, c: C.Client) {
    && su.vt.Settles() && su.vt.Hashed() && su.conf.accept && !(su.needSnapshot && !c.gotSnapshot)
    && Ordered(su.vt, c.core.logs) && c.core.pending == [] && P.Rooted(su.vt, c.core.logs) && c.core.logs != []
    && c.finished == Some(c.core.logs[|c.core.logs| - 1].key)
    && (c.core.ignore.Some? ==> c.core.ignore.value <= c.finished.value)
  }

  /** Such a client takes the log that continues its chain and stands at it. */
  lemma TakesNext(su: C.Setup, c: C.Client, m: Log)
    requires Ready(su, c) && Alone(su, c.core, m)
    requires c.finished.value < m.key && m.hash == su.vt.next(TopHash(c.core.logs), m.key, m.body)
    ensures var r := C.ReceiveLog(su, c, m).0;
            && Ready(su, r) && SameRecord(r.core.logs[|r.core.logs| - 1], m)
            && r.passed == c.passed + [m.key] && |r.core.added| > |c.core.added|
  {
    var s := c.core;
    FirstAtLeastUnique(s.logs, m.key, |s.logs|);
    assert s.logs[..|s.logs|] == s.logs;
    assert C.Admits(su, c, m);
    TakesIn(su, s, m);
    hide PushOne, Drain, P.Rooted, Alone, FirstAtLeast;
    EmplaceAlone(su, s, m);
    EmplaceOrdered(su.vt, su.conf, s, m);
    EmplaceRooted(su.vt, su.conf, s, m);
  }

  /** A log that accepts whatever its actions say takes a log it neither ignores nor holds. */
  lemma TakesIn(su: C.Setup, s: Core, m: Log)
    requires su.vt.Settles() && su.vt.Hashed() && su.conf.accept && !Ignored(s, m) && !Holds(s.logs, m.key)
    ensures var r := Emplace(su.vt, su.conf, s, m).0; |r.added| > |s.added| && r.ignore == s.ignore
  {
    hide Insert;
    var t := PushOne(su.vt, su.conf, s, m).0;
    assert |t.added| == |s.added| + 1;
    PushOneBalance(su.vt, su.conf, s, m, 0);
    DrainRemoved(su.vt, su.conf, t);
  }

  lemma {:induction false} TakesAll(su: C.Setup, c: C.Client, logs: seq<Log>)
    requires Ready(su, c) && AloneAll(su, c, logs) && Ordered(su.vt, logs)
    requires logs != [] ==> c.finished.value < logs[0].key
    requires logs != [] ==> logs[0].hash == su.vt.next(TopHash(c.core.logs), logs[0].key, logs[0].body)
    ensures var r := ReceiveAll(su, c, logs);
            && Ready(su, r) && |r.passed| == |c.passed| + |logs|
            && (logs != [] ==> SameRecord(r.core.logs[|r.core.logs| - 1], logs[|logs| - 1]))
            && (logs == [] ==> r == c)
    decreases logs
  {
    hide C.ReceiveLog, Alone;
    if logs != [] {
      TakesNext(su, c, logs[0]);
      TakesAll(su, C.ReceiveLog(su, c, logs[0]).0, logs[1..]);
    }
  }

  /** The answer the publisher gives to a client that asks with the hash of its last log. */
  function AnswerTo(o: Origin, core: Core, c: C.Client, force: bool): P.Reply
    requires c.core.logs != []
  {
    var last := c.core.logs[|c.core.logs| - 1];
    P.Answer(o.vt, core, last.key, Some(last.hash), force)
  }

  lemma AnswerFollows(o: Origin, core: Core, c: C.Client, i: nat, force: bool)
    requires o.vt.Hashed() && Ordered(o.vt, core.logs) && c.core.logs != []
    requires i < |core.logs| && core.logs[i].key == c.core.logs[|c.core.logs| - 1].key
    requires AnswerTo(o, core, c, force).Logs?
    ensures AnswerTo(o, core, c, force).logs == core.logs[i + 1..]
    ensures core.logs[i].hash == TopHash(c.core.logs)
  {
    FirstAtLeastUnique(core.logs, core.logs[i].key, i);
  }

  /** What follows a log of a chain continues it. */
  lemma RestFollows(vt: VTable, logs: seq<Log>, i: nat)
    requires vt.Hashed() && Ordered(vt, logs) && i < |logs|
    ensures var rest := logs[i + 1..];
            && Ordered(vt, rest)
            && (rest != [] ==>
                  logs[i].key < rest[0].key && rest[0].hash == vt.next(logs[i].hash, rest[0].key, rest[0].body))
            && (rest != [] ==> rest[|rest| - 1] == logs[|logs| - 1]) && (rest == [] ==> i == |logs| - 1)
  {}

  lemma TakesAnswer(su: C.Setup, c: C.Client, logs: seq<Log>, i: nat)
    requires Ready(su, c) && Ordered(su.vt, logs) && i < |logs| && AloneAll(su, c, logs[i + 1..])
    requires logs[i].key == c.core.logs[|c.core.logs| - 1].key && logs[i].hash == TopHash(c.core.logs)
    ensures var r := ReceiveAll(su, c, logs[i + 1..]);
            && Ready(su, r) && |r.passed| == |c.passed| + |logs| - 1 - i
            && TopHash(r.core.logs) == TopHash(logs) && r.finished == Some(logs[|logs| - 1].key)
  {
    hide ReceiveAll, AloneAll, Ordered;
    RestFollows(su.vt, logs, i);
    TakesAll(su, c, logs[i + 1..]);
  }

  /** Catching up, end to end. A client asks with the hash of its last log, which the publisher still holds,
      and is not sent a snapshot. Receiving the answer in order it refuses none of the logs, ends at the
      publisher's last record, and both then hold the same records backwards from there as far as both
      reach. */
  lemma CatchesUp(o: Origin, su: C.Setup, core: Core, c: C.Client, i: nat, force: bool, n: nat)
    requires Compatible(o, su) && Ready(su, c) && Ordered(o.vt, core.logs) && P.Rooted(o.vt, core.logs)
    requires i < |core.logs| && core.logs[i].key == c.core.logs[|c.core.logs| - 1].key
    requires AnswerTo(o, core, c, force).Logs? && AloneAll(su, c, AnswerTo(o, core, c, force).logs)
    ensures var sent := AnswerTo(o, core, c, force).logs;
            var r := ReceiveAll(su, c, sent);
            && sent == core.logs[i + 1..] && |r.passed| == |c.passed| + |sent|
            && r.finished == Some(core.logs[|core.logs| - 1].key)
            && (n < |core.logs| && n < |r.core.logs| ==>
                  SameRecord(core.logs[|core.logs| - 1 - n], r.core.logs[|r.core.logs| - 1 - n]))
  {
    hide CollisionFree, NeverInitial, ChainedFrom, ReceiveAll, AloneAll, AnswerTo, SameRecord;
    AnswerFollows(o, core, c, i, force);
    TakesAnswer(su, c, core.logs, i);
    var r := ReceiveAll(su, c, core.logs[i + 1..]);
    if n < |core.logs| && n < |r.core.logs| { SameTops(o.vt, core.logs, r.core.logs, n); }
  }

  lemma SameTops(vt: VTable, a: seq<Log>, b: seq<Log>, n: nat)
    requires vt.Hashed() && CollisionFree(vt.next) && n < |a| && n < |b|
    requires TopHash(a) == TopHash(b)
    requires exists seed :: ChainedFrom(vt.next, seed, a)
    requires exists seed :: ChainedFrom(vt.next, seed, b)
    ensures SameRecord(a[|a| - 1 - n], b[|b| - 1 - n])
  {
    var seedA :| ChainedFrom(vt.next, seedA, a);
    var seedB :| ChainedFrom(vt.next, seedB, b);
    ChainsAgreeBackwards(vt.next, seedA, a, seedB, b, n);
  }

  /** In particular from a publisher after any run. */
  lemma RunCatchesUp(o: Origin, enableHole: bool, ops: seq<P.Op>, su: C.Setup, c: C.Client, i: nat, force: bool)
    requires Compatible(o, su) && Ready(su, c)
    requires var core := P.Run(o.vt, o.conf, enableHole, ops).core;
             && i < |core.logs| && core.logs[i].key == c.core.logs[|c.core.logs| - 1].key
             && AnswerTo(o, core, c, force).Logs? && AloneAll(su, c, AnswerTo(o, core, c, force).logs)
    ensures var core := P.Run(o.vt, o.conf, enableHole, ops).core;
            var r := ReceiveAll(su, c, AnswerTo(o, core, c, force).logs);
            r.core.logs != [] && SameRecord(core.logs[|core.logs| - 1], r.core.logs[|r.core.logs| - 1])
  {
    hide CollisionFree, NeverInitial, ChainedFrom, ReceiveAll, AloneAll, AnswerTo, SameRecord, P.Run;
    P.RunRooted(o.vt, o.conf, enableHole, ops);
    var core := P.Run(o.vt, o.conf, enableHole, ops).core;
    AnswerFollows(o, core, c, i, force);
    TakesAnswer(su, c, core.logs, i);
    CatchesUp(o, su, core, c, i, force, 0);
  }

  lemma {:induction false} SilentAll(su: C.Setup, c: C.Client, logs: seq<Log>)
    requires su.vt.Settles() && Silent(su.vt) && c.core.pending == []
    ensures AloneAll(su, c, logs)
    decreases logs
  {
    if logs != [] {
      SilentAlone(su, c.core, logs[0]);
      SilentAll(su, C.ReceiveLog(su, c, logs[0]).0, logs[1..]);
    }
  }

  /** A client whose callbacks do not push always catches up so. */
  lemma SilentCatchesUp(o: Origin, enableHole: bool, ops: seq<P.Op>, su: C.Setup, c: C.Client, i: nat, force: bool)
    requires Compatible(o, su) && Ready(su, c) && Silent(su.vt)
    requires var core := P.Run(o.vt, o.conf, enableHole, ops).core;
             && i < |core.logs| && core.logs[i].key == c.core.logs[|c.core.logs| - 1].key
             && AnswerTo(o, core, c, force).Logs?
    ensures var core := P.Run(o.vt, o.conf, enableHole, ops).core;
            var sent := AnswerTo(o, core, c, force).logs;
            var r := ReceiveAll(su, c, sent);
            && |r.passed| == |c.passed| + |sent|
            && r.core.logs != [] && SameRecord(core.logs[|core.logs| - 1], r.core.logs[|r.core.logs| - 1])
  {
    var core := P.Run(o.vt, o.conf, enableHole, ops).core;
    SilentAll(su, c, AnswerTo(o, core, c, force).logs);
    RunCatchesUp(o, enableHole, ops, su, c, i, force);
    P.RunRooted(o.vt, o.conf, enableHole, ops);
    CatchesUp(o, su, core, c, i, force, 0);
  }
}
