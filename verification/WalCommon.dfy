/** The vocabulary shared by the write-ahead log, its publisher and its client
    (include/distributed_system/wal_common_defs.h).

    - A log key is an `int`: the code only ever compares keys with one strict total order, and a
      finite run meets finitely many keys, so integers stand for any such order.
    - A log is a value. `body` stands for everything the hash covers, `payload` for the part that
      patch and merge callbacks may change, `hash` for the stored hash code.
    - User callbacks are described by a `VTable`. */
module WalCommon {
  import opened Wrappers

  type Key = int
  type Hash = int
  type Hasher = (Hash, Key, int) -> Hash

  const INITIAL_HASH: Hash := 0

  /** A hash code other than 0 is a real one. */
  predicate ValidHash(h: Hash) { h != 0 }

  datatype Code =
    | Ok | Ignore | Pending | Merge
    | ActionNotSet | BadLogKey | InvalidParam | CallbackError | Initialization | HashCodeMismatch
    | SubscriberNotFound | ClientRequireSnapshot

  /** The largest `size_t`. */
  const SIZE_MAX := 0xFFFF_FFFF_FFFF_FFFF

  /** The codes that are not errors: at least kOk as numbers. */
  predicate AtLeastOk(code: Code) { code.Ok? || code.Ignore? || code.Pending? || code.Merge? }

  datatype Log = Log(key: Key, body: int, payload: int, hash: Hash)

  /** What `get_meta` reports for a log: its meta data, an error, or nothing at all. */
  datatype Meta = Meta(time: int, key: Key, action: int) | MetaError(code: Code) | MetaNone

  /** One invocation of a patch, action or on_log_added callback: the code it returns, the payload
      it leaves in the log (patch only), and the logs it pushes while it runs, in order. */
  datatype Outcome = Outcome(code: Code, payload: int, pushes: seq<Log>)

  /** Which of the two callbacks of a delegate group are set. */
  datatype Delegate = Delegate(patch: bool, action: bool)

  /** The user callbacks. `callback(n, log)` is the outcome of the n-th callback invocation of the
      object's life, so callbacks may depend on any state outside the log. `quiet` is an invocation
      count from which on no callback pushes; without one a push would never return. */
  datatype VTable = VTable(
    setHash: bool, getHash: bool, calcHash: bool,
    next: Hasher,
    meta: (Key, int) -> Meta,
    merge: Option<(Log, Log) -> int>,
    delegates: map<int, Delegate>,
    fallback: Delegate,
    onAdded: bool,
    callback: (nat, Log) -> Outcome,
    quiet: nat)
  {
    /** All three hash callbacks are set, so the log carries a hash chain. */
    predicate Hashed() { setHash && getHash && calcHash }

    ghost predicate Settles() {
      forall n: nat, l: Log :: quiet <= n ==> callback(n, l).pushes == []
    }
  }

  datatype Configure = Configure(expire: int, maxSize: nat, gcSize: nat, accept: bool)

  /** No two different (previous hash, key, body) triples share a hash code. */
  ghost predicate CollisionFree(next: Hasher) {
    forall h1, k1, b1, h2, k2, b2 ::
      next(h1, k1, b1) == next(h2, k2, b2) ==> h1 == h2 && k1 == k2 && b1 == b2
  }

  /** Every computed hash code is a real one. */
  ghost predicate NeverInitial(next: Hasher) {
    forall h, k, b :: ValidHash(next(h, k, b))
  }
}
