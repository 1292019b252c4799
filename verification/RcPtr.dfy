/** The reference counts of `strong_rc_ptr` and `weak_rc_ptr` (include/memory/rc_ptr.h) as a state machine.
    A handle operation may come at any time, also from a destructor that is still running: a release
    that brings the use count to zero starts a dispose, and only the end of that dispose gives back the
    weak count the strong handles hold together. */
module RcPtr {
  import opened Wrappers

  /** A control block: its two counts, and how often dispose and destroy were called on it. */
  datatype Block = Block(use: int, weak: int, disposed: nat, destroyed: nat)

  /** What a handle holds: the object it points at, 0 for null, and its control block. */
  datatype Ref = Ref(ptr: nat, block: Option<nat>)

  const NULL := Ref(0, None)

  /** The handles ever made, by the order of their creation; `None` once destroyed. */
  type Slots = seq<Option<Ref>>

  /** `disposing` holds the blocks whose dispose has not returned, the innermost one last. */
  datatype State = State(blocks: seq<Block>, strong: Slots, weak: Slots, disposing: seq<nat>)

  const EMPTY := State([], [], [], [])

  predicate Live(slots: Slots, h: nat) { h < |slots| && slots[h].Some? }

  // ---------------------------------------------------------------- the counters

  function SetBlock(s: State, b: nat, x: Block): State
    requires b < |s.blocks|
  {
    s.(blocks := s.blocks[b := x])
  }

  /** add_ref_nothrow, which refuses a block without strong handles. */
  function AddRef(s: State, b: Option<nat>): State {
    if b.None? || b.value >= |s.blocks| || s.blocks[b.value].use == 0 then s
    else SetBlock(s, b.value, s.blocks[b.value].(use := s.blocks[b.value].use + 1))
  }

  /** release, up to the call of dispose. */
  function Release(s: State, b: Option<nat>): State {
    if b.None? || b.value >= |s.blocks| then s
    else
      var x := s.blocks[b.value].(use := s.blocks[b.value].use - 1);
      if x.use == 0 then
        SetBlock(s, b.value, x.(disposed := x.disposed + 1)).(disposing := s.disposing + [b.value])
      else SetBlock(s, b.value, x)
  }

  function WeakAddRef(s: State, b: Option<nat>): (r: State)
    ensures |r.blocks| == |s.blocks|
    ensures forall c :: 0 <= c < |s.blocks| ==> r.blocks[c].disposed == s.blocks[c].disposed
  {
    if b.None? || b.value >= |s.blocks| then s
    else SetBlock(s, b.value, s.blocks[b.value].(weak := s.blocks[b.value].weak + 1))
  }

  function WeakRelease(s: State, b: Option<nat>): (r: State)
    ensures |r.blocks| == |s.blocks|
    ensures forall c :: 0 <= c < |s.blocks| ==> r.blocks[c].disposed == s.blocks[c].disposed
  {
    if b.None? || b.value >= |s.blocks| then s
    else
      var x := s.blocks[b.value].(weak := s.blocks[b.value].weak - 1);
      SetBlock(s, b.value, if x.weak == 0 then x.(destroyed := x.destroyed + 1) else x)
  }

  /** The innermost dispose returns, and release goes on after it. */
  function EndDispose(s: State): State {
    if s.disposing == [] then s
    else
      var top := s.disposing[|s.disposing| - 1];
      WeakRelease(s.(disposing := s.disposing[..|s.disposing| - 1]), Some(top))
  }

  function UseCount(s: State, b: Option<nat>): int {
    if b.None? || b.value >= |s.blocks| then 0 else s.blocks[b.value].use
  }

  // ---------------------------------------------------------------- the handle operations

  datatype Op =
    | Create(ptr: nat)                    // a new object with its control block
    | Copy(from: nat)
    | Alias(from: nat, ptr: nat)          // shares ownership, points elsewhere
    | Move(from: nat)
    | Assign(to: nat, from: nat)
    | MoveAssign(to: nat, from: nat)
    | Swap(to: nat, from: nat)
    | Reset(to: nat)
    | ResetTo(to: nat, ptr: nat)
    | Drop(to: nat)
    | Lock(from: nat)                     // a strong handle from a weak one
    | Watch(from: nat)                    // a weak handle from a strong one
    | WeakEmpty
    | WeakCopy(from: nat)
    | WeakMove(from: nat)
    | WeakAssign(to: nat, from: nat)
    | WeakMoveAssign(to: nat, from: nat)
    | WeakAssignStrong(to: nat, from: nat)
    | WeakSwap(to: nat, from: nat)
    | WeakReset(to: nat)
    | WeakDrop(to: nat)
    | ShareFrom(to: nat, from: nat)       // weak_rc_ptr::assign, of enable_shared_rc_from_this
    | Return                              // the running dispose returns
  {
    /** The operations on one strong handle. */
    predicate Single() { Create? || Copy? || Alias? || Move? || Reset? || ResetTo? || Drop? || Lock? }

    /** The operations on two strong handles. */
    predicate Pair() { Assign? || MoveAssign? || Swap? }
  }

  function Append(s: State, r: Ref): State { s.(strong := s.strong + [Some(r)]) }

  function WeakAppend(s: State, r: Ref): State { s.(weak := s.weak + [Some(r)]) }

  function Put(s: State, h: nat, r: Option<Ref>): State
    requires h < |s.strong|
  {
    s.(strong := s.strong[h := r])
  }

  function WeakPut(s: State, h: nat, r: Option<Ref>): State
    requires h < |s.weak|
  {
    s.(weak := s.weak[h := r])
  }

  function NewBlock(s: State): State { s.(blocks := s.blocks + [Block(1, 1, 0, 0)]) }

  /** One operation; one that names a handle which is not there changes nothing. */
  function Step(s: State, op: Op): State {
    match op
    case Create(ptr) => Append(NewBlock(s), Ref(ptr, Some(|s.blocks|)))
    case Copy(h) => if Live(s.strong, h) then Append(AddRef(s, s.strong[h].value.block), s.strong[h].value) else s
    case Alias(h, ptr) =>
      if Live(s.strong, h) then
        Append(AddRef(s, s.strong[h].value.block), Ref(ptr, s.strong[h].value.block))
      else s
    case Move(h) => if Live(s.strong, h) then Append(Put(s, h, Some(NULL)), s.strong[h].value) else s
    case Assign(h, g) =>
      if !Live(s.strong, h) || !Live(s.strong, g) then s
      else
        var was, r := s.strong[h].value, s.strong[g].value;
        if was.block == r.block then Put(s, h, Some(r))
        else Release(Put(AddRef(s, r.block), h, Some(r)), was.block)
    case MoveAssign(h, g) =>
      if !Live(s.strong, h) || !Live(s.strong, g) then s
      else
        var r := s.strong[g].value;
        var t := Put(s, g, Some(NULL));
        Release(Put(t, h, Some(r)), t.strong[h].value.block)
    case Swap(h, g) =>
      if !Live(s.strong, h) || !Live(s.strong, g) then s
      else s.(strong := s.strong[h := s.strong[g]][g := s.strong[h]])
    case Reset(h) => if Live(s.strong, h) then Release(Put(s, h, Some(NULL)), s.strong[h].value.block) else s
    case ResetTo(h, ptr) =>
      if !Live(s.strong, h) || (s.strong[h].value.ptr == ptr && ptr != 0) then s
      else Release(Put(NewBlock(s), h, Some(Ref(ptr, Some(|s.blocks|)))), s.strong[h].value.block)
    case Drop(h) => if Live(s.strong, h) then Release(Put(s, h, None), s.strong[h].value.block) else s
    case Lock(w) =>
      if !Live(s.weak, w) then s
      else
        var r := s.weak[w].value;
        if UseCount(s, r.block) == 0 then Append(s, NULL) else Append(AddRef(s, r.block), r)
    case Watch(h) =>
      if Live(s.strong, h) then WeakAppend(WeakAddRef(s, s.strong[h].value.block), s.strong[h].value) else s
    case WeakEmpty => WeakAppend(s, NULL)
    case WeakCopy(w) =>
      if Live(s.weak, w) then WeakAppend(WeakAddRef(s, s.weak[w].value.block), s.weak[w].value) else s
    case WeakMove(w) => if Live(s.weak, w) then WeakAppend(WeakPut(s, w, Some(NULL)), s.weak[w].value) else s
    case WeakAssign(w, v) =>
      if !Live(s.weak, w) || !Live(s.weak, v) then s
      else
        var was, r := s.weak[w].value, s.weak[v].value;
        if was.block == r.block then WeakPut(s, w, Some(r))
        else WeakRelease(WeakPut(WeakAddRef(s, r.block), w, Some(r)), was.block)
    case WeakMoveAssign(w, v) =>
      if !Live(s.weak, w) || !Live(s.weak, v) then s
      else
        var r := s.weak[v].value;
        var t := WeakPut(s, v, Some(NULL));
        WeakRelease(WeakPut(t, w, Some(r)), t.weak[w].value.block)
    case WeakAssignStrong(w, h) =>
      if !Live(s.weak, w) || !Live(s.strong, h) then s
      else
        var r := s.strong[h].value;
        WeakRelease(WeakPut(WeakAddRef(s, r.block), w, Some(r)), s.weak[w].value.block)
    case WeakSwap(w, v) =>
      if !Live(s.weak, w) || !Live(s.weak, v) then s
      else s.(weak := s.weak[w := s.weak[v]][v := s.weak[w]])
    case WeakReset(w) =>
      if Live(s.weak, w) then WeakRelease(WeakPut(s, w, Some(NULL)), s.weak[w].value.block) else s
    case WeakDrop(w) => if Live(s.weak, w) then WeakRelease(WeakPut(s, w, None), s.weak[w].value.block) else s
    case ShareFrom(w, h) =>
      if !Live(s.weak, w) || !Live(s.strong, h) || UseCount(s, s.weak[w].value.block) != 0 then s
      else
        var r := s.strong[h].value;
        WeakRelease(WeakPut(WeakAddRef(s, r.block), w, Some(r)), s.weak[w].value.block)
    case Return => EndDispose(s)
  }

  function Run(s: State, ops: seq<Op>): State
    decreases ops
  {
    if ops == [] then s else Run(Step(s, ops[0]), ops[1..])
  }

  // ---------------------------------------------------------------- counting handles

  function Holds(x: Option<Ref>, b: nat): nat { if x.Some? && x.value.block == Some(b) then 1 else 0 }

  /** How many handles hold the block. */
  function Holders(slots: Slots, b: nat): nat {
    if slots == [] then 0 else Holds(slots[0], b) + Holders(slots[1..], b)
  }

  lemma {:induction false} HoldersPut(slots: Slots, h: nat, x: Option<Ref>, b: nat)
    requires h < |slots|
    ensures Holders(slots[h := x], b) == Holders(slots, b) - Holds(slots[h], b) + Holds(x, b)
    ensures Holders(slots, b) >= Holds(slots[h], b)
  {
    if h > 0 {
      HoldersPut(slots[1..], h - 1, x, b);
      assert slots[h := x][1..] == slots[1..][h - 1 := x];
    }
  }

  lemma {:induction false} HoldersAppend(slots: Slots, x: Option<Ref>, b: nat)
    ensures Holders(slots + [x], b) == Holders(slots, b) + Holds(x, b)
  {
    if slots == [] {
      assert slots + [x] == [x];
    } else {
      HoldersAppend(slots[1..], x, b);
      assert (slots + [x])[1..] == slots[1..] + [x];
    }
  }

  lemma {:induction false} NoHolders(slots: Slots, b: nat)
    requires forall h :: 0 <= h < |slots| ==> Holds(slots[h], b) == 0
    ensures Holders(slots, b) == 0
  {
    if slots != [] {
      assert Holds(slots[0], b) == 0;
      assert forall h :: 0 <= h < |slots[1..]| ==> slots[1..][h] == slots[h + 1];
      NoHolders(slots[1..], b);
    }
  }

  // ---------------------------------------------------------------- the invariant

  function One(held: Option<nat>, b: nat): nat { if held == Some(b) then 1 else 0 }

  /** The account of one block, with one strong and one weak count in the hands of the operation that is
      under way. */
  ghost predicate Balanced(s: State, b: nat, strong: Option<nat>, weak: Option<nat>)
    requires b < |s.blocks|
  {
    var x := s.blocks[b];
    && x.use == Holders(s.strong, b) + One(strong, b)
    && x.weak == Holders(s.weak, b) + One(weak, b) + (if x.disposed == 0 || b in s.disposing then 1 else 0)
    && x.disposed == (if x.use == 0 then 1 else 0)
    && x.destroyed == (if x.weak == 0 then 1 else 0)
  }

  predicate Known(s: State, x: Option<Ref>) { x.Some? && x.value.block.Some? ==> x.value.block.value < |s.blocks| }

  ghost predicate Sound(s: State, strong: Option<nat>, weak: Option<nat>) {
    && (forall b :: 0 <= b < |s.blocks| ==> Balanced(s, b, strong, weak))
    && (forall h :: 0 <= h < |s.strong| ==> Known(s, s.strong[h]))
    && (forall h :: 0 <= h < |s.weak| ==> Known(s, s.weak[h]))
    && (forall i :: 0 <= i < |s.disposing| ==> s.disposing[i] < |s.blocks|)
    && (forall i, j :: 0 <= i < j < |s.disposing| ==> s.disposing[i] != s.disposing[j])
    && (forall i :: 0 <= i < |s.disposing| && s.disposing[i] < |s.blocks| ==> s.blocks[s.disposing[i]].disposed == 1)
    && (strong.Some? ==> strong.value < |s.blocks|)
    && (weak.Some? ==> weak.value < |s.blocks|)
  }

  /** A block that a strong handle holds is in use. */
  lemma HeldInUse(s: State, h: nat, strong: Option<nat>, weak: Option<nat>)
    requires Sound(s, strong, weak) && Live(s.strong, h) && s.strong[h].value.block.Some?
    ensures var b := s.strong[h].value.block.value; b < |s.blocks| && s.blocks[b].use > 0
  {
    assert Known(s, s.strong[h]);
    var b := s.strong[h].value.block.value;
    assert Balanced(s, b, strong, weak);
    HoldersPut(s.strong, h, None, b);
  }

  // The primitive steps. Each moves a count between the handles and the operation under way.

  lemma AddRefKeeps(s: State, b: Option<nat>, weak: Option<nat>)
    requires Sound(s, None, weak) && (b.Some? ==> b.value < |s.blocks| && s.blocks[b.value].use > 0)
    ensures Sound(AddRef(s, b), b, weak)
  {
    var r := AddRef(s, b);
    forall c | 0 <= c < |r.blocks| ensures Balanced(r, c, b, weak) { assert Balanced(s, c, None, weak); }
  }

  lemma ReleaseKeeps(s: State, b: Option<nat>, weak: Option<nat>)
    requires Sound(s, b, weak)
    ensures Sound(Release(s, b), None, weak)
  {
    var r := Release(s, b);
    if b.Some? { assert Balanced(s, b.value, b, weak); }
    forall c | 0 <= c < |r.blocks| ensures Balanced(r, c, None, weak) { assert Balanced(s, c, b, weak); }
  }

  lemma PutKeeps(s: State, h: nat, x: Option<Ref>, strong: Option<nat>, weak: Option<nat>)
    requires Sound(s, strong, weak) && Live(s.strong, h)
    requires (if x.Some? then x.value.block else None) == strong
    ensures Sound(Put(s, h, x), s.strong[h].value.block, weak)
  {
    var r, was := Put(s, h, x), s.strong[h].value.block;
    assert Known(s, s.strong[h]);
    forall c | 0 <= c < |r.blocks| ensures Balanced(r, c, was, weak) {
      assert Balanced(s, c, strong, weak);
      HoldersPut(s.strong, h, x, c);
    }
    forall i | 0 <= i < |r.strong| ensures Known(r, r.strong[i]) { assert i != h ==> Known(s, s.strong[i]); }
  }

  lemma AppendKeeps(s: State, x: Ref, weak: Option<nat>)
    requires Sound(s, x.block, weak)
    ensures Sound(Append(s, x), None, weak)
  {
    var r := Append(s, x);
    forall c | 0 <= c < |r.blocks| ensures Balanced(r, c, None, weak) {
      assert Balanced(s, c, x.block, weak);
      HoldersAppend(s.strong, Some(x), c);
    }
    forall i | 0 <= i < |r.strong| ensures Known(r, r.strong[i]) {
      assert i < |s.strong| ==> Known(s, s.strong[i]);
    }
  }

  lemma WeakAddRefKeeps(s: State, b: Option<nat>)
    requires Sound(s, None, None) && (b.Some? ==> b.value < |s.blocks| && s.blocks[b.value].weak > 0)
    ensures Sound(WeakAddRef(s, b), None, b)
  {
    var r := WeakAddRef(s, b);
    forall c | 0 <= c < |r.blocks| ensures Balanced(r, c, None, b) { assert Balanced(s, c, None, None); }
  }

  lemma WeakReleaseKeeps(s: State, b: Option<nat>)
    requires Sound(s, None, b)
    ensures Sound(WeakRelease(s, b), None, None)
  {
    var r := WeakRelease(s, b);
    forall c | 0 <= c < |r.blocks| ensures Balanced(r, c, None, None) { assert Balanced(s, c, None, b); }
  }

  lemma WeakPutKeeps(s: State, w: nat, x: Option<Ref>, weak: Option<nat>)
    requires Sound(s, None, weak) && Live(s.weak, w)
    requires (if x.Some? then x.value.block else None) == weak
    ensures Sound(WeakPut(s, w, x), None, s.weak[w].value.block)
  {
    var r, was := WeakPut(s, w, x), s.weak[w].value.block;
    assert Known(s, s.weak[w]);
    forall c | 0 <= c < |r.blocks| ensures Balanced(r, c, None, was) {
      assert Balanced(s, c, None, weak);
      HoldersPut(s.weak, w, x, c);
    }
    forall i | 0 <= i < |r.weak| ensures Known(r, r.weak[i]) { assert i != w ==> Known(s, s.weak[i]); }
  }

  lemma WeakAppendKeeps(s: State, x: Ref)
    requires Sound(s, None, x.block)
    ensures Sound(WeakAppend(s, x), None, None)
  {
    var r := WeakAppend(s, x);
    forall c | 0 <= c < |r.blocks| ensures Balanced(r, c, None, None) {
      assert Balanced(s, c, None, x.block);
      HoldersAppend(s.weak, Some(x), c);
    }
    forall i | 0 <= i < |r.weak| ensures Known(r, r.weak[i]) { assert i < |s.weak| ==> Known(s, s.weak[i]); }
  }

  lemma NewBlockKeeps(s: State)
    requires Sound(s, None, None)
    ensures Sound(NewBlock(s), Some(|s.blocks|), None)
  {
    var r, n := NewBlock(s), |s.blocks|;
    forall h | 0 <= h < |s.strong| ensures Holds(s.strong[h], n) == 0 { assert Known(s, s.strong[h]); }
    forall h | 0 <= h < |s.weak| ensures Holds(s.weak[h], n) == 0 { assert Known(s, s.weak[h]); }
    NoHolders(s.strong, n);
    NoHolders(s.weak, n);
    forall c | 0 <= c < |r.blocks| ensures Balanced(r, c, Some(n), None) {
      assert c < n ==> Balanced(s, c, None, None) && r.blocks[c] == s.blocks[c];
    }
    forall i | 0 <= i < |r.strong| ensures Known(r, r.strong[i]) { assert Known(s, s.strong[i]); }
    forall i | 0 <= i < |r.weak| ensures Known(r, r.weak[i]) { assert Known(s, s.weak[i]); }
  }

  lemma EndDisposeKeeps(s: State)
    requires Sound(s, None, None)
    ensures Sound(EndDispose(s), None, None)
  {
    if s.disposing != [] {
      var last := |s.disposing| - 1;
      var top := s.disposing[last];
      var t := s.(disposing := s.disposing[..last]);
      assert s.disposing == t.disposing + [top];
      assert top !in t.disposing;
      forall c | 0 <= c < |t.blocks| ensures Balanced(t, c, None, Some(top)) {
        assert Balanced(s, c, None, None);
        assert c != top ==> (c in s.disposing <==> c in t.disposing);
      }
      forall i | 0 <= i < |t.strong| ensures Known(t, t.strong[i]) { assert Known(s, s.strong[i]); }
      forall i | 0 <= i < |t.weak| ensures Known(t, t.weak[i]) { assert Known(s, s.weak[i]); }
      WeakReleaseKeeps(t, Some(top));
    }
  }

  // ---------------------------------------------------------------- the operations keep the account

  ghost predicate Good(s: State) { Sound(s, None, None) }

  /** A weak handle's block still has its counts. */
  lemma WatchedCounted(s: State, w: nat)
    requires Good(s) && Live(s.weak, w) && s.weak[w].value.block.Some?
    ensures var b := s.weak[w].value.block.value; b < |s.blocks| && s.blocks[b].weak > 0
  {
    assert Known(s, s.weak[w]);
    var b := s.weak[w].value.block.value;
    assert Balanced(s, b, None, None);
    HoldersPut(s.weak, w, None, b);
  }

  /** A strong handle counts once more, in the hands of the operation. */
  lemma ShareKeeps(s: State, h: nat)
    requires Good(s) && Live(s.strong, h)
    ensures Sound(AddRef(s, s.strong[h].value.block), s.strong[h].value.block, None)
  {
    if s.strong[h].value.block.Some? { HeldInUse(s, h, None, None); }
    AddRefKeeps(s, s.strong[h].value.block, None);
  }

  lemma WatchKeeps(s: State, h: nat)
    requires Good(s) && Live(s.strong, h)
    ensures Sound(WeakAddRef(s, s.strong[h].value.block), None, s.strong[h].value.block)
  {
    if s.strong[h].value.block.Some? {
      HeldInUse(s, h, None, None);
      assert Balanced(s, s.strong[h].value.block.value, None, None);
    }
    WeakAddRefKeeps(s, s.strong[h].value.block);
  }

  lemma WatchAgainKeeps(s: State, w: nat)
    requires Good(s) && Live(s.weak, w)
    ensures Sound(WeakAddRef(s, s.weak[w].value.block), None, s.weak[w].value.block)
  {
    if s.weak[w].value.block.Some? { WatchedCounted(s, w); }
    WeakAddRefKeeps(s, s.weak[w].value.block);
  }

  /** Putting `x` into a slot and releasing what was there. */
  lemma ReplaceKeeps(s: State, h: nat, x: Option<Ref>)
    requires Live(s.strong, h) && Sound(s, if x.Some? then x.value.block else None, None)
    ensures Good(Release(Put(s, h, x), s.strong[h].value.block))
  {
    PutKeeps(s, h, x, if x.Some? then x.value.block else None, None);
    ReleaseKeeps(Put(s, h, x), s.strong[h].value.block, None);
  }

  lemma WeakReplaceKeeps(s: State, w: nat, x: Option<Ref>)
    requires Live(s.weak, w) && Sound(s, None, if x.Some? then x.value.block else None)
    ensures Good(WeakRelease(WeakPut(s, w, x), s.weak[w].value.block))
  {
    WeakPutKeeps(s, w, x, if x.Some? then x.value.block else None);
    WeakReleaseKeeps(WeakPut(s, w, x), s.weak[w].value.block);
  }

  lemma StrongOpKeeps(s: State, op: Op)
    requires Good(s) && op.Single()
    ensures Good(Step(s, op))
  {
    match op
    case Create(ptr) =>
      NewBlockKeeps(s);
      AppendKeeps(NewBlock(s), Ref(ptr, Some(|s.blocks|)), None);
    case Copy(h) =>
      if Live(s.strong, h) {
        ShareKeeps(s, h);
        AppendKeeps(AddRef(s, s.strong[h].value.block), s.strong[h].value, None);
      }
    case Alias(h, ptr) =>
      if Live(s.strong, h) {
        ShareKeeps(s, h);
        AppendKeeps(AddRef(s, s.strong[h].value.block), Ref(ptr, s.strong[h].value.block), None);
      }
    case Move(h) =>
      if Live(s.strong, h) {
        PutKeeps(s, h, Some(NULL), None, None);
        AppendKeeps(Put(s, h, Some(NULL)), s.strong[h].value, None);
      }
    case Reset(h) => if Live(s.strong, h) { ReplaceKeeps(s, h, Some(NULL)); }
    case ResetTo(h, ptr) =>
      if Live(s.strong, h) && !(s.strong[h].value.ptr == ptr && ptr != 0) {
        NewBlockKeeps(s);
        ReplaceKeeps(NewBlock(s), h, Some(Ref(ptr, Some(|s.blocks|))));
      }
    case Drop(h) => if Live(s.strong, h) { ReplaceKeeps(s, h, None); }
    case Lock(w) =>
      if Live(s.weak, w) {
        var r := s.weak[w].value;
        if UseCount(s, r.block) == 0 {
          AppendKeeps(s, NULL, None);
        } else {
          assert Balanced(s, r.block.value, None, None);
          AddRefKeeps(s, r.block, None);
          AppendKeeps(AddRef(s, r.block), r, None);
        }
      }
  }

  lemma StrongPairKeeps(s: State, op: Op)
    requires Good(s) && op.Pair()
    ensures Good(Step(s, op))
  {
    hide Sound;
    var h, g := op.to, op.from;
    if Live(s.strong, h) && Live(s.strong, g) {
      var was, r := s.strong[h].value, s.strong[g].value;
      if op.Assign? {
        if was.block == r.block {
          PutSame(s, h, r);
        } else {
          ShareKeeps(s, g);
          ReplaceKeeps(AddRef(s, r.block), h, Some(r));
        }
      } else {
        PutKeeps(s, g, Some(NULL), None, None);
        var t := Put(s, g, Some(NULL));
        if op.MoveAssign? {
          ReplaceKeeps(t, h, Some(r));
        } else {
          PutKeeps(t, h, Some(r), r.block, None);
          var u := Put(t, h, Some(r));
          if h == g {
            assert Step(s, op).strong == s.strong;
          } else {
            PutKeeps(u, g, Some(was), was.block, None);
            assert Put(u, g, Some(was)).strong == Step(s, op).strong;
          }
        }
      }
    }
  }

  /** Pointing a handle elsewhere within its own block. */
  lemma PutSame(s: State, h: nat, r: Ref)
    requires Good(s) && Live(s.strong, h) && s.strong[h].value.block == r.block
    ensures Good(Put(s, h, Some(r)))
  {
    PutKeeps(s, h, Some(NULL), None, None);
    var t := Put(s, h, Some(NULL));
    PutKeeps(t, h, Some(r), r.block, None);
    assert Put(t, h, Some(r)) == Put(s, h, Some(r));
  }

  lemma WeakPutSame(s: State, w: nat, r: Ref)
    requires Good(s) && Live(s.weak, w) && s.weak[w].value.block == r.block
    ensures Good(WeakPut(s, w, Some(r)))
  {
    WeakPutKeeps(s, w, Some(NULL), None);
    var t := WeakPut(s, w, Some(NULL));
    WeakPutKeeps(t, w, Some(r), r.block);
    assert WeakPut(t, w, Some(r)) == WeakPut(s, w, Some(r));
  }

  lemma WatchOpKeeps(s: State, op: Op)
    requires Good(s) && (op.Watch? || op.WeakEmpty? || op.WeakCopy?)
    ensures Good(Step(s, op))
  {
    hide Sound;
    match op
    case Watch(h) =>
      if Live(s.strong, h) {
        WatchKeeps(s, h);
        WeakAppendKeeps(WeakAddRef(s, s.strong[h].value.block), s.strong[h].value);
      }
    case WeakEmpty => WeakAppendKeeps(s, NULL);
    case WeakCopy(w) =>
      if Live(s.weak, w) {
        WatchAgainKeeps(s, w);
        WeakAppendKeeps(WeakAddRef(s, s.weak[w].value.block), s.weak[w].value);
      }
  }

  lemma UnwatchOpKeeps(s: State, op: Op)
    requires Good(s) && (op.WeakMove? || op.WeakReset? || op.WeakDrop?)
    ensures Good(Step(s, op))
  {
    hide Sound;
    match op
    case WeakMove(w) =>
      if Live(s.weak, w) {
        WeakPutKeeps(s, w, Some(NULL), None);
        WeakAppendKeeps(WeakPut(s, w, Some(NULL)), s.weak[w].value);
      }
    case WeakReset(w) => if Live(s.weak, w) { WeakReplaceKeeps(s, w, Some(NULL)); }
    case WeakDrop(w) => if Live(s.weak, w) { WeakReplaceKeeps(s, w, None); }
  }

  lemma WeakPairKeeps(s: State, op: Op)
    requires Good(s) && (op.WeakAssign? || op.WeakMoveAssign? || op.WeakSwap?)
    ensures Good(Step(s, op))
  {
    hide Sound;
    var w, v := op.to, op.from;
    if Live(s.weak, w) && Live(s.weak, v) {
      var was, r := s.weak[w].value, s.weak[v].value;
      if op.WeakAssign? {
        if was.block == r.block {
          WeakPutSame(s, w, r);
        } else {
          WatchAgainKeeps(s, v);
          WeakReplaceKeeps(WeakAddRef(s, r.block), w, Some(r));
        }
      } else {
        WeakPutKeeps(s, v, Some(NULL), None);
        var t := WeakPut(s, v, Some(NULL));
        if op.WeakMoveAssign? {
          WeakReplaceKeeps(t, w, Some(r));
        } else {
          WeakPutKeeps(t, w, Some(r), r.block);
          var u := WeakPut(t, w, Some(r));
          if w == v {
            assert Step(s, op).weak == s.weak;
          } else {
            WeakPutKeeps(u, v, Some(was), was.block);
            assert WeakPut(u, v, Some(was)).weak == Step(s, op).weak;
          }
        }
      }
    }
  }

  lemma StepKeeps(s: State, op: Op)
    requires Good(s)
    ensures Good(Step(s, op))
  {
    hide Sound;
    match op
    case Create(_) => StrongOpKeeps(s, op);
    case Copy(_) => StrongOpKeeps(s, op);
    case Alias(_, _) => StrongOpKeeps(s, op);
    case Move(_) => StrongOpKeeps(s, op);
    case Reset(_) => StrongOpKeeps(s, op);
    case ResetTo(_, _) => StrongOpKeeps(s, op);
    case Drop(_) => StrongOpKeeps(s, op);
    case Lock(_) => StrongOpKeeps(s, op);
    case Assign(_, _) => StrongPairKeeps(s, op);
    case MoveAssign(_, _) => StrongPairKeeps(s, op);
    case Swap(_, _) => StrongPairKeeps(s, op);
    case WeakAssign(_, _) => WeakPairKeeps(s, op);
    case WeakMoveAssign(_, _) => WeakPairKeeps(s, op);
    case WeakSwap(_, _) => WeakPairKeeps(s, op);
    case WeakAssignStrong(w, h) =>
      if Live(s.weak, w) && Live(s.strong, h) {
        WatchKeeps(s, h);
        WeakReplaceKeeps(WeakAddRef(s, s.strong[h].value.block), w, s.strong[h]);
      }
    case ShareFrom(w, h) =>
      if Live(s.weak, w) && Live(s.strong, h) {
        WatchKeeps(s, h);
        WeakReplaceKeeps(WeakAddRef(s, s.strong[h].value.block), w, s.strong[h]);
      }
    case Return => EndDisposeKeeps(s);
    case WeakMove(_) => UnwatchOpKeeps(s, op);
    case WeakReset(_) => UnwatchOpKeeps(s, op);
    case WeakDrop(_) => UnwatchOpKeeps(s, op);
    case _ => WatchOpKeeps(s, op);
  }

  lemma {:induction false} RunKeeps(s: State, ops: seq<Op>)
    requires Good(s)
    ensures Good(Run(s, ops))
    decreases ops
  {
    if ops != [] {
      StepKeeps(s, ops[0]);
      RunKeeps(Step(s, ops[0]), ops[1..]);
    }
  }

  // ---------------------------------------------------------------- what every run guarantees

  /** After any operations, in any order and nested in any destructors: the use count is the number of
      strong handles and the weak count that of weak handles, plus one until dispose has returned. Dispose
      was called once or not at all, and once exactly when no strong handle is left. Destroy likewise when
      no handle of either kind is left, and never before dispose has returned. */
  lemma Accounting(ops: seq<Op>, b: nat)
    requires b < |Run(EMPTY, ops).blocks|
    ensures var s := Run(EMPTY, ops); var x := s.blocks[b];
            var strong, weak := Holders(s.strong, b), Holders(s.weak, b);
            && x.use == strong
            && x.weak == weak + (if x.disposed == 0 || b in s.disposing then 1 else 0)
            && x.disposed == (if strong == 0 then 1 else 0)
            && x.destroyed == (if strong == 0 && weak == 0 && b !in s.disposing then 1 else 0)
  {
    RunKeeps(EMPTY, ops);
    assert Balanced(Run(EMPTY, ops), b, None, None);
  }

  /** No handle ever refers to what is gone: a strong handle's object is not disposed and a weak handle's
      block is not destroyed. */
  lemma NothingDangles(ops: seq<Op>, h: nat)
    ensures var s := Run(EMPTY, ops);
            && (Live(s.strong, h) && s.strong[h].value.block.Some? ==>
                  var b := s.strong[h].value.block.value; b < |s.blocks| && s.blocks[b].disposed == 0)
            && (Live(s.weak, h) && s.weak[h].value.block.Some? ==>
                  var b := s.weak[h].value.block.value; b < |s.blocks| && s.blocks[b].destroyed == 0)
  {
    RunKeeps(EMPTY, ops);
    var s := Run(EMPTY, ops);
    if Live(s.strong, h) && s.strong[h].value.block.Some? {
      HeldInUse(s, h, None, None);
      assert Balanced(s, s.strong[h].value.block.value, None, None);
    }
    if Live(s.weak, h) && s.weak[h].value.block.Some? {
      WatchedCounted(s, h);
      assert Balanced(s, s.weak[h].value.block.value, None, None);
    }
  }

  /** Locking a weak handle to an object gives a handle to that object exactly while a strong handle to
      its block is left, and a null handle otherwise. */
  lemma LockWhileInUse(ops: seq<Op>, w: nat)
    requires Live(Run(EMPTY, ops).weak, w)
    requires Run(EMPTY, ops).weak[w].value.ptr != 0 && Run(EMPTY, ops).weak[w].value.block.Some?
    ensures var s := Run(EMPTY, ops); var r := s.weak[w].value; var t := Step(s, Lock(w));
            && |t.strong| == |s.strong| + 1
            && t.strong[|s.strong|] == Some(if Holders(s.strong, r.block.value) > 0 then r else NULL)
            && (t.strong[|s.strong|].value.ptr != 0 <==> Holders(s.strong, r.block.value) > 0)
  {
    RunKeeps(EMPTY, ops);
    var s := Run(EMPTY, ops);
    assert Known(s, s.weak[w]);
    assert Balanced(s, s.weak[w].value.block.value, None, None);
  }

  /** Nothing leaks: once every handle is destroyed or empty and every dispose has returned, every block
      was disposed and destroyed, each once. */
  lemma NothingLeaks(ops: seq<Op>, b: nat)
    requires b < |Run(EMPTY, ops).blocks| && Run(EMPTY, ops).disposing == []
    requires forall h :: 0 <= h < |Run(EMPTY, ops).strong| ==> Holds(Run(EMPTY, ops).strong[h], b) == 0
    requires forall h :: 0 <= h < |Run(EMPTY, ops).weak| ==> Holds(Run(EMPTY, ops).weak[h], b) == 0
    ensures var x := Run(EMPTY, ops).blocks[b]; x.disposed == 1 && x.destroyed == 1
  {
    Accounting(ops, b);
    NoHolders(Run(EMPTY, ops).strong, b);
    NoHolders(Run(EMPTY, ops).weak, b);
  }

  /** A block disposed is never in use again: no operation brings back its strong handles. */
  lemma {:induction false} DisposedForGood(s: State, ops: seq<Op>, b: nat)
    requires Good(s) && b < |s.blocks| && s.blocks[b].disposed == 1
    ensures b < |Run(s, ops).blocks| && Run(s, ops).blocks[b].disposed == 1 && Holders(Run(s, ops).strong, b) == 0
    decreases ops
  {
    if ops == [] {
      assert Balanced(s, b, None, None);
    } else {
      StepKeeps(s, ops[0]);
      DisposedOnce(s, ops[0], b);
      DisposedForGood(Step(s, ops[0]), ops[1..], b);
    }
  }

  lemma DisposedOnce(s: State, op: Op, b: nat)
    requires Good(s) && b < |s.blocks| && s.blocks[b].disposed == 1
    ensures b < |Step(s, op).blocks| && Step(s, op).blocks[b].disposed == 1
  {
    StepKeeps(s, op);
    DisposedStays(s, op, b);
    assert Balanced(Step(s, op), b, None, None);
  }

  lemma DisposedStays(s: State, op: Op, b: nat)
    requires b < |s.blocks|
    ensures b < |Step(s, op).blocks| && Step(s, op).blocks[b].disposed >= s.blocks[b].disposed
  {
    if op.Single() {
      StrongDisposedStays(s, op, b);
    } else if op.Pair() {
      PairDisposedStays(s, op, b);
    } else {
      WeakDisposedStays(s, op, b);
    }
  }

  lemma StrongDisposedStays(s: State, op: Op, b: nat)
    requires b < |s.blocks| && op.Single()
    ensures b < |Step(s, op).blocks| && Step(s, op).blocks[b].disposed >= s.blocks[b].disposed
  {}

  lemma PairDisposedStays(s: State, op: Op, b: nat)
    requires b < |s.blocks| && op.Pair()
    ensures b < |Step(s, op).blocks| && Step(s, op).blocks[b].disposed >= s.blocks[b].disposed
  {}

  lemma WeakDisposedStays(s: State, op: Op, b: nat)
    requires b < |s.blocks| && !op.Single() && !op.Pair()
    ensures b < |Step(s, op).blocks| && Step(s, op).blocks[b].disposed >= s.blocks[b].disposed
  {}
}
