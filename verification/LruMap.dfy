/** `lru_map` (include/memory/lru_map.h): a list of entries in the order of their last visit, and a hash
    index from keys to list nodes. A list iterator is the identity of a node, `None` being end(). */
module LruMap {
  import opened Wrappers

  /** Any key type with equality, any mapped type. */
  type Key(==, !new)
  type Value

  datatype Pair = Pair(key: Key, value: Value)

  datatype Node = Node(id: nat, pair: Pair)

  /** The calls that may change the map. */
  datatype Call = Insert(key: Key, value: Value) | Find(key: Key) | Erase(key: Key)

  // ---------------------------------------------------------------- what the calls mean, key by key

  /** The value the key holds after the calls: that of the first insertion since it was last erased. */
  ghost function Stored(calls: seq<Call>, k: Key): Option<Value> {
    if calls == [] then None
    else
      var e, before := calls[|calls| - 1], calls[..|calls| - 1];
      if e.key != k || e.Find? then Stored(before, k)
      else if e.Erase? then None
      else if Stored(before, k).Some? then Stored(before, k) else Some(e.value)
  }

  /** When the key was last visited: inserted as a new key, or found. */
  ghost function LastVisit(calls: seq<Call>, k: Key): int {
    if calls == [] then -1
    else
      var e, before := calls[|calls| - 1], calls[..|calls| - 1];
      if e.key == k && !e.Erase? && (e.Insert? <==> Stored(before, k).None?) then |calls| - 1
      else LastVisit(before, k)
  }

  // ---------------------------------------------------------------- the list the calls leave

  function ValueIn(list: seq<Pair>, k: Key): Option<Value> {
    if list == [] then None
    else if list[|list| - 1].key == k then Some(list[|list| - 1].value)
    else ValueIn(list[..|list| - 1], k)
  }

  function Without(list: seq<Pair>, k: Key): seq<Pair> {
    if list == [] then []
    else if list[|list| - 1].key == k then Without(list[..|list| - 1], k)
    else Without(list[..|list| - 1], k) + [list[|list| - 1]]
  }

  /** One call on the list alone: a new key goes to the back, a found key moves there. */
  function Apply(list: seq<Pair>, e: Call): seq<Pair> {
    var held := ValueIn(list, e.key);
    match e
    case Insert(k, v) => if held.Some? then list else list + [Pair(k, v)]
    case Find(k) => if held.Some? then Without(list, k) + [Pair(k, held.value)] else list
    case Erase(k) => Without(list, k)
  }

  function Replay(calls: seq<Call>): seq<Pair> {
    if calls == [] then [] else Apply(Replay(calls[..|calls| - 1]), calls[|calls| - 1])
  }

  lemma {:induction false} WithoutValue(list: seq<Pair>, k: Key, j: Key)
    ensures ValueIn(Without(list, k), j) == if j == k then None else ValueIn(list, j)
  {
    if list != [] {
      var n := |list| - 1;
      WithoutValue(list[..n], k, j);
      if list[n].key != k { assert Without(list, k)[..|Without(list, k)| - 1] == Without(list[..n], k); }
    }
  }

  lemma AppendValue(list: seq<Pair>, p: Pair, j: Key)
    ensures ValueIn(list + [p], j) == if j == p.key then Some(p.value) else ValueIn(list, j)
  {
    assert (list + [p])[..|list|] == list;
  }

  /** The list holds exactly the keys that are there, each with its value. */
  lemma {:induction false} ReplayStores(calls: seq<Call>, k: Key)
    ensures ValueIn(Replay(calls), k) == Stored(calls, k)
  {
    if calls != [] {
      var n := |calls| - 1;
      var list, e := Replay(calls[..n]), calls[n];
      ReplayStores(calls[..n], k);
      ReplayStores(calls[..n], e.key);
      WithoutValue(list, e.key, k);
      match e {
        case Insert(key, v) => AppendValue(list, Pair(key, v), k);
        case Find(key) =>
          var held := ValueIn(list, key);
          if held.Some? { AppendValue(Without(list, key), Pair(key, held.value), k); }
        case Erase(_) =>
      }
    }
  }

  /** The entries stand in the order of their last visits, all before `bound`. */
  ghost predicate ByVisit(list: seq<Pair>, calls: seq<Call>, bound: int) {
    list == [] ||
    var n := |list| - 1;
    var at := LastVisit(calls, list[n].key);
    0 <= at < bound && ByVisit(list[..n], calls, at)
  }

  lemma {:induction false} ByVisitWider(list: seq<Pair>, calls: seq<Call>, bound: int, wider: int)
    requires ByVisit(list, calls, bound) && bound <= wider
    ensures ByVisit(list, calls, wider)
  {}

  lemma {:induction false} ByVisitWithout(list: seq<Pair>, calls: seq<Call>, bound: int, k: Key)
    requires ByVisit(list, calls, bound)
    ensures ByVisit(Without(list, k), calls, bound)
  {
    if list != [] {
      var n := |list| - 1;
      var at := LastVisit(calls, list[n].key);
      ByVisitWithout(list[..n], calls, at, k);
      if list[n].key == k {
        ByVisitWider(Without(list, k), calls, at, bound);
      } else {
        assert Without(list, k)[..|Without(list, k)| - 1] == Without(list[..n], k);
      }
    }
  }

  /** A call does not disturb the order of the keys it does not name. */
  lemma {:induction false} ByVisitFrame(list: seq<Pair>, calls: seq<Call>, bound: int, e: Call)
    requires ByVisit(list, calls, bound) && ValueIn(list, e.key) == None
    ensures ByVisit(list, calls + [e], bound)
  {
    if list != [] {
      var n := |list| - 1;
      assert (calls + [e])[..|calls|] == calls;
      ByVisitFrame(list[..n], calls, LastVisit(calls, list[n].key), e);
    }
  }

  lemma ByVisitAppend(list: seq<Pair>, calls: seq<Call>, bound: int, p: Pair)
    requires ByVisit(list, calls, LastVisit(calls, p.key)) && 0 <= LastVisit(calls, p.key) < bound
    ensures ByVisit(list + [p], calls, bound)
  {
    assert (list + [p])[..|list|] == list;
  }

  /** The list is in the order of last visit, whatever the calls were. */
  lemma {:induction false} ReplayByVisit(calls: seq<Call>)
    ensures ByVisit(Replay(calls), calls, |calls|)
  {
    if calls != [] {
      var n := |calls| - 1;
      var before, e, list := calls[..n], calls[n], Replay(calls[..n]);
      ReplayByVisit(before);
      ReplayStores(before, e.key);
      WithoutValue(list, e.key, e.key);
      ByVisitWithout(list, before, n, e.key);
      assert calls == before + [e];
      ByVisitFrame(Without(list, e.key), before, n, e);
      if ValueIn(list, e.key).None? {
        WithoutNothing(list, e.key);
        ByVisitWider(list, calls, n, n + 1);
        if e.Insert? { ByVisitAppend(list, calls, n + 1, Pair(e.key, e.value)); }
      } else {
        match e {
          case Insert(_, _) => ByVisitSame(list, before, n, e); ByVisitWider(list, calls, n, n + 1);
          case Find(k) => ByVisitAppend(Without(list, k), calls, n + 1, Pair(k, ValueIn(list, k).value));
          case Erase(k) => ByVisitWider(Without(list, k), calls, n, n + 1);
        }
      }
    }
  }

  lemma {:induction false} WithoutNothing(list: seq<Pair>, k: Key)
    requires ValueIn(list, k).None?
    ensures Without(list, k) == list
  {
    if list != [] {
      WithoutNothing(list[..|list| - 1], k);
      assert list == list[..|list| - 1] + [list[|list| - 1]];
    }
  }

  /** Inserting a key that is there visits nothing. */
  lemma {:induction false} ByVisitSame(list: seq<Pair>, calls: seq<Call>, bound: int, e: Call)
    requires ByVisit(list, calls, bound) && e.Insert? && Stored(calls, e.key).Some?
    ensures ByVisit(list, calls + [e], bound)
  {
    if list != [] {
      var n := |list| - 1;
      assert (calls + [e])[..|calls|] == calls;
      ByVisitSame(list[..n], calls, LastVisit(calls, list[n].key), e);
    }
  }

  /** Every entry was last visited before every entry behind it. */
  lemma {:induction false} ByVisitPairs(list: seq<Pair>, calls: seq<Call>, bound: int, i: nat, j: nat)
    requires ByVisit(list, calls, bound) && i < j < |list|
    ensures LastVisit(calls, list[i].key) < LastVisit(calls, list[j].key)
  {
    var n := |list| - 1;
    if j < n {
      ByVisitPairs(list[..n], calls, LastVisit(calls, list[n].key), i, j);
    } else {
      ByVisitBelow(list[..n], calls, LastVisit(calls, list[n].key), i);
    }
  }

  lemma {:induction false} ByVisitBelow(list: seq<Pair>, calls: seq<Call>, bound: int, i: nat)
    requires ByVisit(list, calls, bound) && i < |list|
    ensures 0 <= LastVisit(calls, list[i].key) < bound
  {
    var n := |list| - 1;
    if i < n { ByVisitBelow(list[..n], calls, LastVisit(calls, list[n].key), i); }
  }

  lemma {:induction false} HeldSomewhere(list: seq<Pair>, k: Key) returns (i: nat)
    requires ValueIn(list, k).Some?
    ensures i < |list| && list[i].key == k && list[i].value == ValueIn(list, k).value
  {
    var n := |list| - 1;
    if list[n].key == k { i := n; } else { i := HeldSomewhere(list[..n], k); }
  }

  /** The front is the key visited least recently of all that are there, the back the one visited last. */
  lemma FrontAndBack(calls: seq<Call>, k: Key)
    requires Stored(calls, k).Some?
    ensures var list := Replay(calls);
            list != [] &&
            LastVisit(calls, list[0].key) <= LastVisit(calls, k) <= LastVisit(calls, list[|list| - 1].key)
  {
    ReplayStores(calls, k);
    ReplayByVisit(calls);
    var list := Replay(calls);
    var i := HeldSomewhere(list, k);
    if 0 < i { ByVisitPairs(list, calls, |calls|, 0, i); }
    if i < |list| - 1 { ByVisitPairs(list, calls, |calls|, i, |list| - 1); }
  }

  // ---------------------------------------------------------------- the nodes and the index

  function Pairs(list: seq<Node>): (pairs: seq<Pair>)
    ensures |pairs| == |list| && forall i :: 0 <= i < |list| ==> pairs[i] == list[i].pair
  {
    seq(|list|, i requires 0 <= i < |list| => list[i].pair)
  }

  /** The index that a list of nodes calls for. */
  function IndexOf(list: seq<Node>): map<Key, nat> {
    if list == [] then map[]
    else var n := |list| - 1; IndexOf(list[..n])[list[n].pair.key := list[n].id]
  }

  /** No key stands twice in the list, and the identities, all below `next`, tell its nodes apart. */
  predicate Linked(list: seq<Node>, next: nat) {
    list == [] ||
    var n := |list| - 1;
    list[n].id < next && list[n].pair.key !in IndexOf(list[..n]) && Linked(list[..n], list[n].id)
  }

  function Removed(list: seq<Node>, p: nat): seq<Node>
    requires p < |list|
  {
    list[..p] + list[p + 1..]
  }

  /** Where a node is in the list. */
  function Place(list: seq<Node>, id: nat): (p: nat)
    ensures p <= |list| && (p < |list| ==> list[p].id == id)
  {
    if list == [] then 0
    else
      var n := |list| - 1;
      var p := Place(list[..n], id);
      if p < n then p else if list[n].id == id then n else n + 1
  }

  lemma {:induction false} LinkedWider(list: seq<Node>, next: nat, wider: nat)
    requires Linked(list, next) && next <= wider
    ensures Linked(list, wider)
  {}

  lemma {:induction false} IdsBelow(list: seq<Node>, next: nat, i: nat)
    requires Linked(list, next) && i < |list|
    ensures list[i].id < next
  {
    var n := |list| - 1;
    if i < n { IdsBelow(list[..n], list[n].id, i); }
  }

  /** Every node is found by its identity and, through the index, by its key. */
  lemma {:induction false} NodeFound(list: seq<Node>, next: nat, i: nat)
    requires Linked(list, next) && i < |list|
    ensures Place(list, list[i].id) == i
    ensures list[i].pair.key in IndexOf(list) && IndexOf(list)[list[i].pair.key] == list[i].id
  {
    var n := |list| - 1;
    if i < n {
      NodeFound(list[..n], list[n].id, i);
    } else {
      var p := Place(list[..n], list[n].id);
      if p < n { IdsBelow(list[..n], list[n].id, p); }
    }
  }

  /** Every key of the index leads to a node with that key; the list has a value for just those keys. */
  lemma {:induction false} KeyFound(list: seq<Node>, next: nat, k: Key)
    requires Linked(list, next)
    ensures k in IndexOf(list) <==> ValueIn(Pairs(list), k).Some?
    ensures k in IndexOf(list) ==>
              var p := Place(list, IndexOf(list)[k]);
              p < |list| && list[p].pair.key == k && ValueIn(Pairs(list), k) == Some(list[p].pair.value)
  {
    if list != [] {
      var n := |list| - 1;
      assert Pairs(list)[..n] == Pairs(list[..n]);
      if list[n].pair.key == k { NodeFound(list, next, n); } else { KeyFound(list[..n], list[n].id, k); }
    }
  }

  lemma LinkedAppend(list: seq<Node>, next: nat, p: Pair)
    requires Linked(list, next) && p.key !in IndexOf(list)
    ensures var l := list + [Node(next, p)];
            Linked(l, next + 1) && IndexOf(l) == IndexOf(list)[p.key := next] && Pairs(l) == Pairs(list) + [p]
  {
    assert (list + [Node(next, p)])[..|list|] == list;
  }

  lemma Snoc(list: seq<Node>, x: Node, next: nat)
    ensures Linked(list + [x], next) <==> x.id < next && x.pair.key !in IndexOf(list) && Linked(list, x.id)
    ensures IndexOf(list + [x]) == IndexOf(list)[x.pair.key := x.id]
  {
    assert (list + [x])[..|list|] == list;
  }

  lemma PairsSnoc(list: seq<Node>, x: Node, k: Key)
    ensures Pairs(list + [x]) == Pairs(list) + [x.pair]
    ensures Without(Pairs(list) + [x.pair], k) == Without(Pairs(list), k) + if x.pair.key == k then [] else [x.pair]
  {
    assert (Pairs(list) + [x.pair])[..|list|] == Pairs(list);
  }

  lemma RemovedSnoc(list: seq<Node>, x: Node, p: nat)
    requires p <= |list|
    ensures Removed(list + [x], p) == if p == |list| then list else Removed(list, p) + [x]
  {}

  /** Taking a node out of the list takes its key, and no other, out of the index. */
  lemma {:induction false} IndexRemove(list: seq<Node>, next: nat, p: nat)
    requires Linked(list, next) && p < |list|
    ensures IndexOf(Removed(list, p)) == IndexOf(list) - {list[p].pair.key}
  {
    var n := |list| - 1;
    var front, last := list[..n], list[n];
    assert list == front + [last];
    RemovedSnoc(front, last, p);
    Snoc(front, last, next);
    if p < n {
      IndexRemove(front, last.id, p);
      NodeFound(front, last.id, p);
      Snoc(Removed(front, p), last, next);
    }
  }

  lemma {:induction false} LinkedRemove(list: seq<Node>, next: nat, p: nat)
    requires Linked(list, next) && p < |list|
    ensures Linked(Removed(list, p), next)
  {
    var n := |list| - 1;
    var front, last := list[..n], list[n];
    assert list == front + [last];
    RemovedSnoc(front, last, p);
    if p == n {
      LinkedWider(front, last.id, next);
    } else {
      LinkedRemove(front, last.id, p);
      IndexRemove(front, last.id, p);
      Snoc(Removed(front, p), last, next);
    }
  }

  lemma {:induction false} PairsRemove(list: seq<Node>, next: nat, p: nat)
    requires Linked(list, next) && p < |list|
    ensures Pairs(Removed(list, p)) == Without(Pairs(list), list[p].pair.key)
  {
    var n, key := |list| - 1, list[p].pair.key;
    var front, last := list[..n], list[n];
    assert list == front + [last];
    RemovedSnoc(front, last, p);
    PairsSnoc(front, last, key);
    if p == n {
      KeyFound(front, last.id, key);
      WithoutNothing(Pairs(front), key);
    } else {
      PairsRemove(front, last.id, p);
      NodeFound(front, last.id, p);
      PairsSnoc(Removed(front, p), last, key);
    }
  }

  lemma RemoveKeeps(list: seq<Node>, next: nat, p: nat)
    requires Linked(list, next) && p < |list|
    ensures Linked(Removed(list, p), next)
    ensures IndexOf(Removed(list, p)) == IndexOf(list) - {list[p].pair.key}
    ensures Pairs(Removed(list, p)) == Without(Pairs(list), list[p].pair.key)
  {
    IndexRemove(list, next, p);
    LinkedRemove(list, next, p);
    PairsRemove(list, next, p);
  }

  lemma MoveKeeps(list: seq<Node>, next: nat, p: nat)
    requires Linked(list, next) && p < |list|
    ensures var x := list[p].pair; var l := Removed(list, p) + [Node(next, x)];
            && Linked(l, next + 1) && IndexOf(l) == IndexOf(list)[x.key := next]
            && Pairs(l) == Apply(Pairs(list), Find(x.key))
  {
    NodeFound(list, next, p);
    KeyFound(list, next, list[p].pair.key);
    RemoveKeeps(list, next, p);
    LinkedAppend(Removed(list, p), next, list[p].pair);
  }

  class LruMap {
    var history: seq<Node>
    var kv: map<Key, nat>
    var next: nat
    ghost var calls: seq<Call>

    ghost predicate Valid()
      reads this
    {
      Linked(history, next) && kv == IndexOf(history) && Pairs(history) == Replay(calls)
    }

    constructor ()
      ensures Valid() && history == [] && kv == map[] && calls == []
    {
      history, kv, next, calls := [], map[], 0, [];
    }

    ghost method Note(e: Call)
      requires Linked(history, next) && kv == IndexOf(history) && Pairs(history) == Apply(Replay(calls), e)
      modifies this`calls
      ensures Valid() && calls == old(calls) + [e]
    {
      assert (calls + [e])[..|calls|] == calls;
      calls := calls + [e];
    }

    /** std::list::insert before end(). */
    method PushNode(pair: Pair) returns (it: nat)
      modifies this`history, this`next
      ensures it == old(next) && next == it + 1 && history == old(history) + [Node(it, pair)]
    {
      it := next;
      history := history + [Node(next, pair)];
      next := next + 1;
    }

    /** std::list::erase of a node in the list: the iterator behind it. */
    method EraseNode(id: nat) returns (it: Option<nat>)
      requires Place(history, id) < |history|
      modifies this`history
      ensures var p := Place(old(history), id);
              history == Removed(old(history), p) &&
              it == if p + 1 < |old(history)| then Some(old(history)[p + 1].id) else None
    {
      var p := Place(history, id);
      it := if p + 1 < |history| then Some(history[p + 1].id) else None;
      history := history[..p] + history[p + 1..];
    }

    /** Insert a new key as the entry visited last; a key already there is neither changed nor visited. */
    method InsertKeyValue(key: Key, value: Value) returns (it: Option<nat>, ok: bool)
      requires Valid()
      modifies this
      ensures Valid() && calls == old(calls) + [Insert(key, value)]
      ensures ok == (key !in old(kv)) == it.Some?
      ensures !ok ==> history == old(history) && kv == old(kv)
      ensures ok ==> history == old(history) + [Node(it.value, Pair(key, value))] && kv == old(kv)[key := it.value]
    {
      KeyFound(history, next, key);
      if key in kv {
        Note(Insert(key, value));
        return None, false;
      }
      LinkedAppend(history, next, Pair(key, value));
      var id := PushNode(Pair(key, value));
      kv := kv[key := id];
      Note(Insert(key, value));
      return Some(id), true;
    }

    /** Look a key up and, if asked to, move its entry to the back as a new node. */
    method Lookup(key: Key, update: bool) returns (it: Option<nat>)
      requires Valid()
      modifies this
      ensures Valid() && calls == old(calls) + if update then [Find(key)] else []
      ensures it.Some? == (key in old(kv)) && kv.Keys == old(kv).Keys && (it.Some? ==> kv[key] == it.value)
      ensures it.None? || !update ==> history == old(history) && kv == old(kv)
      ensures it.Some? && update ==>
                var p := Place(old(history), old(kv)[key]);
                p < |old(history)| && old(history)[p].pair.key == key &&
                history == Removed(old(history), p) + [Node(it.value, old(history)[p].pair)]
    {
      KeyFound(history, next, key);
      if key !in kv {
        if update { Note(Find(key)); }
        return None;
      }
      if update { MoveToBack(key); }
      it := Some(kv[key]);
    }

    method MoveToBack(key: Key)
      requires Valid() && key in kv
      requires Place(history, kv[key]) < |history| && history[Place(history, kv[key])].pair.key == key
      modifies this
      ensures Valid() && calls == old(calls) + [Find(key)] && kv.Keys == old(kv).Keys && key in kv
      ensures var p := Place(old(history), old(kv)[key]);
              history == Removed(old(history), p) + [Node(kv[key], old(history)[p].pair)]
    {
      hide Linked, IndexOf, Replay, Removed, Pairs, Apply, Place;
      var p := Place(history, kv[key]);
      var moved := history[p].pair;
      MoveKeeps(history, next, p);
      var behind := EraseNode(kv[key]);
      var id := PushNode(moved);
      kv := kv[key := id];
      Note(Find(key));
    }

    /** Erase by iterator: the iterator behind the erased entry. */
    method EraseAt(pos: Option<nat>) returns (it: Option<nat>)
      requires Valid()
      requires pos.Some? ==> Place(history, pos.value) < |history|
      modifies this
      ensures Valid()
      ensures pos.None? ==> it == None && history == old(history) && kv == old(kv) && calls == old(calls)
      ensures pos.Some? ==>
                var p := Place(old(history), pos.value);
                var key := old(history)[p].pair.key;
                history == Removed(old(history), p) && kv == old(kv) - {key} && calls == old(calls) + [Erase(key)] &&
                it == if p + 1 < |old(history)| then Some(old(history)[p + 1].id) else None
    {
      if pos.None? { return None; }
      var p := Place(history, pos.value);
      var key := history[p].pair.key;
      NodeFound(history, next, p);
      if key !in kv || kv[key] != pos.value { return None; }
      RemoveKeeps(history, next, p);
      kv := kv - {key};
      it := EraseNode(pos.value);
      Note(Erase(key));
    }

    /** Erase by key: how many entries went. */
    method EraseKey(key: Key) returns (count: nat)
      requires Valid()
      modifies this
      ensures Valid() && calls == old(calls) + [Erase(key)]
      ensures count == (if key in old(kv) then 1 else 0) && kv == old(kv) - {key}
      ensures count == 0 ==> history == old(history)
      ensures count == 1 ==>
                var p := Place(old(history), old(kv)[key]);
                p < |old(history)| && old(history)[p].pair.key == key && history == Removed(old(history), p)
    {
      hide Linked, IndexOf, Replay, Removed, Pairs, Without, ValueIn, Place;
      KeyFound(history, next, key);
      if key !in kv {
        WithoutNothing(Pairs(history), key);
        Note(Erase(key));
        return 0;
      }
      EraseHeld(key);
      return 1;
    }

    method EraseHeld(key: Key)
      requires Valid() && key in kv
      requires Place(history, kv[key]) < |history| && history[Place(history, kv[key])].pair.key == key
      modifies this
      ensures Valid() && calls == old(calls) + [Erase(key)] && kv == old(kv) - {key}
      ensures history == Removed(old(history), Place(old(history), old(kv)[key]))
    {
      RemoveKeeps(history, next, Place(history, kv[key]));
      var it := EraseNode(kv[key]);
      kv := kv - {key};
      Note(Erase(key));
    }

    /** Evict the entry visited least recently. */
    method PopFront()
      requires Valid()
      modifies this
      ensures Valid()
      ensures old(history) == [] ==> history == [] && calls == old(calls)
      ensures old(history) != [] ==>
                var key := old(history)[0].pair.key;
                history == old(history)[1..] && calls == old(calls) + [Erase(key)] && kv == old(kv) - {key} &&
                forall k :: k in old(kv) ==> LastVisit(old(calls), key) <= LastVisit(old(calls), k)
    {
      if history == [] { return; }
      Extremes();
      NodeFound(history, next, 0);
      assert Removed(history, 0) == history[1..];
      var it := EraseAt(Some(history[0].id));
    }

    /** Evict the entry visited last. */
    method PopBack()
      requires Valid()
      modifies this
      ensures Valid()
      ensures old(history) == [] ==> history == [] && calls == old(calls)
      ensures old(history) != [] ==>
                var n := |old(history)| - 1;
                var key := old(history)[n].pair.key;
                history == old(history)[..n] && calls == old(calls) + [Erase(key)] && kv == old(kv) - {key} &&
                forall k :: k in old(kv) ==> LastVisit(old(calls), k) <= LastVisit(old(calls), key)
    {
      if history == [] { return; }
      Extremes();
      var n := |history| - 1;
      NodeFound(history, next, n);
      assert Removed(history, n) == history[..n];
      var count := EraseKey(history[n].pair.key);
    }

    lemma Extremes()
      requires Valid() && history != []
      ensures forall k :: k in kv ==>
                LastVisit(calls, history[0].pair.key) <= LastVisit(calls, k)
                <= LastVisit(calls, history[|history| - 1].pair.key)
    {
      forall k | k in kv
        ensures LastVisit(calls, history[0].pair.key) <= LastVisit(calls, k)
                <= LastVisit(calls, history[|history| - 1].pair.key)
      {
        KeyFound(history, next, k);
        ReplayStores(calls, k);
        FrontAndBack(calls, k);
      }
    }

    /** operator[]: find the entry, or insert one with the default value; either way it is now the one
        visited last. */
    method Index(key: Key, default: Value) returns (value: Value)
      requires Valid()
      modifies this
      ensures Valid() && kv.Keys == old(kv).Keys + {key}
      ensures history != [] && history[|history| - 1].pair == Pair(key, value)
      ensures value == if Stored(old(calls), key).Some? then Stored(old(calls), key).value else default
      ensures calls == old(calls) + [Find(key)] + if key in old(kv) then [] else [Insert(key, default)]
    {
      KeyFound(history, next, key);
      ReplayStores(calls, key);
      var it := Lookup(key, true);
      if it.None? {
        var at, ok := InsertKeyValue(key, default);
        return default;
      }
      return history[|history| - 1].pair.value;
    }

    /** Insert a range of entries, the first of those with the same key. */
    method InsertAll(source: seq<Pair>)
      requires Valid()
      modifies this
      ensures Valid() && calls == old(calls) + Insertions(source)
    {
      var i := 0;
      while i < |source|
        invariant i <= |source| && Valid() && calls == old(calls) + Insertions(source[..i])
      {
        var it, ok := InsertKeyValue(source[i].key, source[i].value);
        assert source[..i + 1][..i] == source[..i];
        i := i + 1;
      }
      assert source[..i] == source;
    }

    method Clear()
      requires Valid()
      modifies this
      ensures Valid() && history == [] && kv == map[] && calls == []
    {
      kv, history, calls := map[], [], [];
    }
  }

  function Insertions(source: seq<Pair>): seq<Call> {
    if source == [] then []
    else var n := |source| - 1; Insertions(source[..n]) + [Insert(source[n].key, source[n].value)]
  }

  /** A copy made by inserting the entries of a map, front to back, has the same entries in the same order. */
  lemma {:induction false} CopyIsEqual(list: seq<Node>, next: nat)
    requires Linked(list, next)
    ensures Replay(Insertions(Pairs(list))) == Pairs(list)
  {
    if list != [] {
      var n := |list| - 1;
      CopyIsEqual(list[..n], list[n].id);
      assert Pairs(list)[..n] == Pairs(list[..n]);
      KeyFound(list[..n], list[n].id, list[n].pair.key);
      var calls := Insertions(Pairs(list));
      assert calls[..|calls| - 1] == Insertions(Pairs(list[..n]));
      assert Pairs(list) == Pairs(list[..n]) + [list[n].pair];
    }
  }
}
