/** Sorted, hash-chained runs of logs: the linear-scan definitions the searches of `wal_object` are
    measured against, and the laws of the hash chain. */
module WalChain {
  import opened WalCommon

  ghost predicate Sorted(logs: seq<Log>) {
    forall i, j :: 0 <= i < j < |logs| ==> logs[i].key < logs[j].key
  }

  /** Each log's hash is computed from its predecessor's. The first log is free: its predecessor may
      have been removed. */
  ghost predicate Chained(next: Hasher, logs: seq<Log>) {
    forall i :: 0 < i < |logs| ==> logs[i].hash == next(logs[i - 1].hash, logs[i].key, logs[i].body)
  }

  /** A chain whose first log was computed from `seed`. */
  ghost predicate ChainedFrom(next: Hasher, seed: Hash, logs: seq<Log>) {
    && Chained(next, logs)
    && (logs != [] ==> logs[0].hash == next(seed, logs[0].key, logs[0].body))
  }

  /** First index whose key is at least `k`, by linear scan. */
  function FirstAtLeast(logs: seq<Log>, k: Key): (r: nat)
    ensures r <= |logs|
    ensures forall i :: 0 <= i < r ==> logs[i].key < k
    ensures r < |logs| ==> k <= logs[r].key
  {
    if logs == [] || k <= logs[0].key then 0 else 1 + FirstAtLeast(logs[1..], k)
  }

  /** First index whose key is above `k`, by linear scan. */
  function FirstAbove(logs: seq<Log>, k: Key): (r: nat)
    ensures r <= |logs|
    ensures forall i :: 0 <= i < r ==> logs[i].key <= k
    ensures r < |logs| ==> k < logs[r].key
  {
    if logs == [] || k < logs[0].key then 0 else 1 + FirstAbove(logs[1..], k)
  }

  /** Hash of the log right before index `i`, or the initial hash code. */
  function HashBefore(logs: seq<Log>, i: nat): Hash
    requires i <= |logs|
  {
    if i == 0 then INITIAL_HASH else logs[i - 1].hash
  }

  /** Recompute every hash, the first one from `seed`; nothing else changes. */
  function Rehash(next: Hasher, seed: Hash, logs: seq<Log>): (r: seq<Log>)
    ensures |r| == |logs|
    ensures forall i :: 0 <= i < |r| ==> r[i] == logs[i].(hash := r[i].hash)
    ensures ChainedFrom(next, seed, r)
    decreases |logs|
  {
    if logs == [] then []
    else
      var first := logs[0].(hash := next(seed, logs[0].key, logs[0].body));
      [first] + Rehash(next, first.hash, logs[1..])
  }

  /** The hash a log after the run is computed from. */
  function LastHash(seed: Hash, run: seq<Log>): Hash {
    if run == [] then seed else run[|run| - 1].hash
  }

  /** Re-hashing one more log extends the re-hashed run by one. */
  lemma {:induction false} RehashSnoc(next: Hasher, seed: Hash, logs: seq<Log>, log: Log)
    ensures var done := Rehash(next, seed, logs);
            Rehash(next, seed, logs + [log]) == done + [log.(hash := next(LastHash(seed, done), log.key, log.body))]
    decreases |logs|
  {
    if logs == [] {
      assert logs + [log] == [log];
    } else {
      var first := logs[0].(hash := next(seed, logs[0].key, logs[0].body));
      var rest := Rehash(next, first.hash, logs[1..]);
      RehashSnoc(next, first.hash, logs[1..], log);
      assert (logs + [log])[1..] == logs[1..] + [log];
      SnocAssociative(first, rest, log.(hash := next(LastHash(first.hash, rest), log.key, log.body)));
    }
  }

  lemma SnocAssociative(first: Log, rest: seq<Log>, last: Log)
    ensures [first] + (rest + [last]) == ([first] + rest) + [last]
    ensures LastHash(first.hash, rest) == LastHash(0, [first] + rest)
  {}

  /** How many logs carry key `k`. */
  function Count(logs: seq<Log>, k: Key): nat {
    if logs == [] then 0 else (if logs[0].key == k then 1 else 0) + Count(logs[1..], k)
  }

  lemma {:induction false} CountConcat(a: seq<Log>, b: seq<Log>, k: Key)
    ensures Count(a + b, k) == Count(a, k) + Count(b, k)
  {
    if a == [] {
      assert a + b == b;
    } else {
      assert (a + b)[1..] == a[1..] + b;
      CountConcat(a[1..], b, k);
    }
  }

  lemma {:induction false} CountAbsent(logs: seq<Log>, k: Key)
    requires forall l :: l in logs ==> l.key != k
    ensures Count(logs, k) == 0
  {
    if logs != [] { CountAbsent(logs[1..], k); }
  }

  lemma {:induction false} CountPositive(logs: seq<Log>, k: Key)
    ensures 0 < Count(logs, k) <==> exists i :: 0 <= i < |logs| && logs[i].key == k
  {
    if logs != [] {
      CountPositive(logs[1..], k);
      if i :| 0 <= i < |logs| && logs[i].key == k && i != 0 {
        assert logs[1..][i - 1].key == k;
      }
      if i :| 0 <= i < |logs[1..]| && logs[1..][i].key == k {
        assert logs[i + 1].key == k;
      }
    }
  }

  /** Two runs that agree on keys agree on counts. */
  lemma {:induction false} CountSameKeys(a: seq<Log>, b: seq<Log>, k: Key)
    requires |a| == |b| && forall i :: 0 <= i < |a| ==> a[i].key == b[i].key
    ensures Count(a, k) == Count(b, k)
  {
    if a != [] {
      CountSameKeys(a[1..], b[1..], k);
    }
  }

  /** On a sorted run a key occurs at most once, and only at its own search position. */
  lemma {:induction false} CountSorted(logs: seq<Log>, k: Key)
    requires Sorted(logs)
    ensures Count(logs, k) <= 1
    ensures var i := FirstAtLeast(logs, k); Count(logs, k) == 1 <==> i < |logs| && logs[i].key == k
  {
    if logs != [] {
      CountSorted(logs[1..], k);
      if logs[0].key == k {
        CountPositive(logs[1..], k);
      }
    }
  }

  /** Sorting pins the search positions down. */
  lemma FirstAtLeastUnique(logs: seq<Log>, k: Key, r: nat)
    requires r <= |logs|
    requires forall i :: 0 <= i < r ==> logs[i].key < k
    requires r < |logs| ==> k <= logs[r].key
    ensures r == FirstAtLeast(logs, k)
  {
    var f := FirstAtLeast(logs, k);
  }

  lemma FirstAboveUnique(logs: seq<Log>, k: Key, r: nat)
    requires r <= |logs|
    requires forall i :: 0 <= i < r ==> logs[i].key <= k
    requires r < |logs| ==> k < logs[r].key
    ensures r == FirstAbove(logs, k)
  {
    var f := FirstAbove(logs, k);
  }

  predicate SameContent(a: Log, b: Log) { a.key == b.key && a.body == b.body }

  /** Same key, same hashed content, same hash; the payload may differ. */
  predicate SameRecord(a: Log, b: Log) {
    a.key == b.key && a.body == b.body && a.hash == b.hash
  }

  /** Resume soundness: two chains of one collision-free hash that end in the same hash hold the same
      records, walking back from the end over their common length. */
  lemma {:induction false} ChainsAgreeBackwards(
    next: Hasher, seedA: Hash, a: seq<Log>, seedB: Hash, b: seq<Log>, n: nat)
    requires CollisionFree(next)
    requires ChainedFrom(next, seedA, a) && ChainedFrom(next, seedB, b)
    requires a != [] && b != [] && a[|a| - 1].hash == b[|b| - 1].hash
    requires n < |a| && n < |b|
    ensures SameRecord(a[|a| - 1 - n], b[|b| - 1 - n])
  {
    if n > 0 {
      ChainsAgreeBackwards(next, seedA, a, seedB, b, n - 1);
    }
    var i, j := |a| - 1 - n, |b| - 1 - n;
    assert a[i].hash == b[j].hash by {
      if n > 0 {
        assert a[i + 1].hash == next(a[i].hash, a[i + 1].key, a[i + 1].body);
        assert b[j + 1].hash == next(b[j].hash, b[j + 1].key, b[j + 1].body);
      }
    }
    assert a[i].hash == next(if i == 0 then seedA else a[i - 1].hash, a[i].key, a[i].body);
    assert b[j].hash == next(if j == 0 then seedB else b[j - 1].hash, b[j].key, b[j].body);
  }
}
