/** What the handles of include/memory/rc_ptr.h hold, without any counts: a reference model in which an object is
    there as long as some strong handle shares its block. The state machine of `RcPtr` refines it. */
module RcHandles {
  import opened Wrappers
  import opened RcPtr

  /** The handles ever made, and how many blocks. */
  datatype Handles = Handles(strong: Slots, weak: Slots, made: nat)

  /** Some strong handle shares the block. */
  predicate Shared(strong: Slots, b: Option<nat>) {
    b.Some? && exists h :: 0 <= h < |strong| && strong[h].Some? && strong[h].value.block == b
  }

  /** One operation on plain handles. Copying shares, moving leaves the source empty, and a handle that is
      replaced just forgets what it held. */
  function Act(s: Handles, op: Op): Handles {
    if !Named(s, op) then s
    else
      match op
      case Create(ptr) => s.(strong := s.strong + [Some(Ref(ptr, Some(s.made)))], made := s.made + 1)
      case Copy(h) => s.(strong := s.strong + [s.strong[h]])
      case Alias(h, ptr) => s.(strong := s.strong + [Some(s.strong[h].value.(ptr := ptr))])
      case Move(h) => s.(strong := s.strong[h := Some(NULL)] + [s.strong[h]])
      case Assign(h, g) => s.(strong := s.strong[h := s.strong[g]])
      case MoveAssign(h, g) => s.(strong := s.strong[g := Some(NULL)][h := s.strong[g]])
      case Swap(h, g) => s.(strong := s.strong[h := s.strong[g]][g := s.strong[h]])
      case Reset(h) => s.(strong := s.strong[h := Some(NULL)])
      case ResetTo(h, ptr) =>
        if ptr != 0 && s.strong[h].value.ptr == ptr then s
        else s.(strong := s.strong[h := Some(Ref(ptr, Some(s.made)))], made := s.made + 1)
      case Drop(h) => s.(strong := s.strong[h := None])
      case Lock(w) =>
        s.(strong := s.strong + [if Shared(s.strong, s.weak[w].value.block) then s.weak[w] else Some(NULL)])
      case Watch(h) => s.(weak := s.weak + [s.strong[h]])
      case WeakEmpty => s.(weak := s.weak + [Some(NULL)])
      case WeakCopy(w) => s.(weak := s.weak + [s.weak[w]])
      case WeakMove(w) => s.(weak := s.weak[w := Some(NULL)] + [s.weak[w]])
      case WeakAssign(w, v) => s.(weak := s.weak[w := s.weak[v]])
      case WeakMoveAssign(w, v) => s.(weak := s.weak[v := Some(NULL)][w := s.weak[v]])
      case WeakAssignStrong(w, h) => s.(weak := s.weak[w := s.strong[h]])
      case WeakSwap(w, v) => s.(weak := s.weak[w := s.weak[v]][v := s.weak[w]])
      case WeakReset(w) => s.(weak := s.weak[w := Some(NULL)])
      case WeakDrop(w) => s.(weak := s.weak[w := None])
      case ShareFrom(w, h) =>
        if Shared(s.strong, s.weak[w].value.block) then s else s.(weak := s.weak[w := s.strong[h]])
      case Return => s
  }

  /** Every handle the operation names is there. */
  predicate Named(s: Handles, op: Op) {
    match op
    case Create(_) => true
    case WeakEmpty => true
    case Return => true
    case Copy(h) => Live(s.strong, h)
    case Alias(h, _) => Live(s.strong, h)
    case Move(h) => Live(s.strong, h)
    case Reset(h) => Live(s.strong, h)
    case ResetTo(h, _) => Live(s.strong, h)
    case Drop(h) => Live(s.strong, h)
    case Watch(h) => Live(s.strong, h)
    case Assign(h, g) => Live(s.strong, h) && Live(s.strong, g)
    case MoveAssign(h, g) => Live(s.strong, h) && Live(s.strong, g)
    case Swap(h, g) => Live(s.strong, h) && Live(s.strong, g)
    case Lock(w) => Live(s.weak, w)
    case WeakCopy(w) => Live(s.weak, w)
    case WeakMove(w) => Live(s.weak, w)
    case WeakReset(w) => Live(s.weak, w)
    case WeakDrop(w) => Live(s.weak, w)
    case WeakAssign(w, v) => Live(s.weak, w) && Live(s.weak, v)
    case WeakMoveAssign(w, v) => Live(s.weak, w) && Live(s.weak, v)
    case WeakSwap(w, v) => Live(s.weak, w) && Live(s.weak, v)
    case WeakAssignStrong(w, h) => Live(s.weak, w) && Live(s.strong, h)
    case ShareFrom(w, h) => Live(s.weak, w) && Live(s.strong, h)
  }

  function Play(s: Handles, ops: seq<Op>): Handles
    decreases ops
  {
    if ops == [] then s else Play(Act(s, ops[0]), ops[1..])
  }

  /** What the state machine shows of its handles. */
  function Shown(s: State): Handles { Handles(s.strong, s.weak, |s.blocks|) }

  lemma {:induction false} HoldersShared(slots: Slots, b: nat)
    ensures Holders(slots, b) > 0 <==> Shared(slots, Some(b))
  {
    if slots != [] {
      HoldersShared(slots[1..], b);
      if Shared(slots[1..], Some(b)) {
        var h :| 0 <= h < |slots[1..]| && slots[1..][h].Some? && slots[1..][h].value.block == Some(b);
        assert slots[h + 1] == slots[1..][h];
      }
      if Shared(slots, Some(b)) && Holds(slots[0], b) == 0 {
        var h :| 0 <= h < |slots| && slots[h].Some? && slots[h].value.block == Some(b);
        assert slots[1..][h - 1] == slots[h];
      }
    }
  }

  /** The use count of a watched block is zero exactly when nobody shares it. */
  lemma UseIsShared(s: State, w: nat)
    requires Good(s) && Live(s.weak, w)
    ensures UseCount(s, s.weak[w].value.block) != 0 <==> Shared(s.strong, s.weak[w].value.block)
  {
    assert Known(s, s.weak[w]);
    if s.weak[w].value.block.Some? {
      var b := s.weak[w].value.block.value;
      assert Balanced(s, b, None, None);
      HoldersShared(s.strong, b);
    }
  }

  lemma ActStrong(s: State, op: Op)
    requires Good(s) && op.Single()
    ensures Shown(Step(s, op)) == Act(Shown(s), op)
  {
    hide Good;
    if op.Lock? && Live(s.weak, op.from) { UseIsShared(s, op.from); }
  }

  lemma ActPair(s: State, op: Op)
    requires Good(s) && op.Pair()
    ensures Shown(Step(s, op)) == Act(Shown(s), op)
  {
    hide Good;
  }

  lemma ActWeak(s: State, op: Op)
    requires Good(s) && !op.Single() && !op.Pair()
    ensures Shown(Step(s, op)) == Act(Shown(s), op)
  {
    hide Good;
    if op.ShareFrom? && Live(s.weak, op.to) { UseIsShared(s, op.to); }
  }

  /** Over any run, nested in whatever destructors, the handles hold what plain handles would hold: the counts decide
      nothing but when an object is disposed of. */
  lemma {:induction false} RunIsPlay(s: State, ops: seq<Op>)
    requires Good(s)
    ensures Shown(Run(s, ops)) == Play(Shown(s), ops)
    decreases ops
  {
    if ops != [] {
      var op := ops[0];
      if op.Single() { ActStrong(s, op); } else if op.Pair() { ActPair(s, op); } else { ActWeak(s, op); }
      StepKeeps(s, op);
      RunIsPlay(Step(s, op), ops[1..]);
    }
  }

  /** In particular over any program. */
  lemma HandlesRefine(ops: seq<Op>)
    ensures Shown(Run(EMPTY, ops)) == Play(Handles([], [], 0), ops)
  {
    RunIsPlay(EMPTY, ops);
  }

  /** An object lives exactly as long as some strong handle shares its block: dispose has been called on the block if
      and only if there is none among the plain handles. */
  lemma LivesWhileShared(ops: seq<Op>, b: nat)
    requires b < |Run(EMPTY, ops).blocks|
    ensures Run(EMPTY, ops).blocks[b].disposed == if Shared(Play(Handles([], [], 0), ops).strong, Some(b)) then 0 else 1
  {
    Accounting(ops, b);
    HandlesRefine(ops);
    HoldersShared(Run(EMPTY, ops).strong, b);
  }

  /** A copy shares the block of its source, so dropping the source leaves the object alone. */
  lemma CopyKeepsAlive(ops: seq<Op>, h: nat)
    requires Live(Run(EMPTY, ops).strong, h) && Run(EMPTY, ops).strong[h].value.block.Some?
    ensures var b := Run(EMPTY, ops).strong[h].value.block.value; var r := Run(EMPTY, ops + [Copy(h), Drop(h)]);
            && b < |r.blocks| && r.blocks[b].disposed == 0
            && r.strong != [] && r.strong[|r.strong| - 1] == Run(EMPTY, ops).strong[h]
  {
    var s := Run(EMPTY, ops);
    RunConcat(EMPTY, ops, [Copy(h), Drop(h)]);
    RunKeeps(EMPTY, ops);
    assert Known(s, s.strong[h]);
    var b := s.strong[h].value.block;
    assert [Copy(h), Drop(h)][1..] == [Drop(h)] && [Drop(h)][1..] == [];
    var t := Step(s, Copy(h));
    ActStrong(s, Copy(h));
    StepKeeps(s, Copy(h));
    ActStrong(t, Drop(h));
    StepKeeps(t, Drop(h));
    var r := Step(t, Drop(h));
    assert r == Run(r, []) == Run(t, [Drop(h)]) == Run(s, [Copy(h), Drop(h)]);
    assert r.strong[|r.strong| - 1] == s.strong[h];
    HoldersShared(r.strong, b.value);
    DisposedStays(s, Copy(h), b.value);
    DisposedStays(t, Drop(h), b.value);
    assert Balanced(r, b.value, None, None);
  }

  lemma {:induction false} RunConcat(s: State, a: seq<Op>, b: seq<Op>)
    ensures Run(s, a + b) == Run(Run(s, a), b)
    decreases a
  {
    if a == [] {
      assert a + b == b;
    } else {
      assert (a + b)[1..] == a[1..] + b;
      RunConcat(Step(s, a[0]), a[1..], b);
    }
  }
}
