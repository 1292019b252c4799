/** The counters and handles of include/memory/rc_ptr.h updated in place. `Release` calls the destructor
    while it runs, the destructor performs handle operations of its own and so may reach `Release` again:
    the call stack does what `RcPtr.State.disposing` does in the state machine. */
module RcRuntime {
  import opened Wrappers
  import opened RcPtr
  import RcHandles

  /** The operations the program asks for, without the returns. */
  function Asked(ops: seq<Op>): seq<Op> {
    if ops == [] then []
    else if ops[0].Return? then Asked(ops[1..])
    else [ops[0]] + Asked(ops[1..])
  }

  lemma {:induction false} AskedConcat(a: seq<Op>, b: seq<Op>)
    ensures Asked(a + b) == Asked(a) + Asked(b)
  {
    if a == [] {
      assert a + b == b;
    } else {
      assert (a + b)[1..] == a[1..] + b;
      AskedConcat(a[1..], b);
    }
  }

  lemma {:induction false} RunSnoc(s: State, ops: seq<Op>, op: Op)
    ensures Run(s, ops + [op]) == Step(Run(s, ops), op)
    decreases ops
  {
    if ops == [] {
      assert ops + [op] == [op];
    } else {
      assert (ops + [op])[1..] == ops[1..] + [op];
      RunSnoc(Step(s, ops[0]), ops[1..], op);
    }
  }

  lemma EndOfDispose(s: State, outer: seq<nat>, b: nat)
    requires s.disposing == outer + [b]
    ensures Step(s, Return) == WeakRelease(s.(disposing := outer), Some(b))
    ensures Asked([Return]) == []
  {}

  /** The block of a handle is there. */
  lemma BlockThere(trace: seq<Op>, h: nat)
    ensures var s := Run(EMPTY, trace);
            && (Live(s.strong, h) && s.strong[h].value.block.Some? ==> s.strong[h].value.block.value < |s.blocks|)
            && (Live(s.weak, h) && s.weak[h].value.block.Some? ==> s.weak[h].value.block.value < |s.blocks|)
  {
    NothingDangles(trace, h);
  }

  class Runtime {
    var blocks: seq<Block>
    var strong: Slots
    var weak: Slots
    // What is still to be done. A destructor takes its operations from here, up to the next return.
    var script: seq<Op>

    ghost var disposing: seq<nat>
    ghost var trace: seq<Op>

    ghost function Value(): State
      reads this
    {
      State(blocks, strong, weak, disposing)
    }

    ghost predicate Valid()
      reads this
    {
      Value() == Run(EMPTY, trace)
    }

    /** `op` was performed, and whatever the destructors it set off took from the script: nothing else
        happened, nothing was skipped, and every dispose that began has returned. */
    twostate predicate Did(op: Op)
      reads this
    {
      && Valid()
      && disposing == old(disposing)
      && old(trace) + [op] <= trace
      && |script| <= |old(script)|
      && Asked(trace) + Asked(script) == Asked(old(trace)) + Asked([op]) + Asked(old(script))
    }

    /** Hence the account of every run holds of it. */
    lemma Lawful(b: nat)
      requires Valid() && b < |blocks|
      ensures blocks[b].use == Holders(strong, b)
      ensures blocks[b].weak == Holders(weak, b) + if blocks[b].disposed == 0 || b in disposing then 1 else 0
      ensures blocks[b].disposed == (if Holders(strong, b) == 0 then 1 else 0)
      ensures blocks[b].destroyed ==
              if Holders(strong, b) == 0 && Holders(weak, b) == 0 && b !in disposing then 1 else 0
    {
      Accounting(trace, b);
    }

    /** And the handles hold what plain handles hold after the same operations. */
    lemma PlainHandles()
      requires Valid()
      ensures RcHandles.Handles(strong, weak, |blocks|) == RcHandles.Play(RcHandles.Handles([], [], 0), trace)
    {
      RcHandles.HandlesRefine(trace);
    }

    /** What a weak handle watches is in use exactly while a strong handle shares it. */
    lemma InUse(w: nat)
      requires Valid() && Live(weak, w)
      ensures UseCount(Value(), weak[w].value.block) != 0 <==> RcHandles.Shared(strong, weak[w].value.block)
    {
      RunKeeps(EMPTY, trace);
      RcHandles.UseIsShared(Value(), w);
    }

    /** No destructor ran. */
    twostate predicate Quiet()
      reads this
    {
      |trace| <= |old(trace)| + 1
    }

    /** The last operation of a trace that grew by it. */
    lemma LastStep(before: seq<Op>, op: Op)
      requires Valid() && before + [op] <= trace && |trace| <= |before| + 1
      ensures Value() == Step(Run(EMPTY, before), op)
    {
      assert trace == before + [op];
      RunSnoc(EMPTY, before, op);
    }

    constructor ()
      ensures Valid() && disposing == [] && trace == [] && script == []
    {
      blocks, strong, weak, script, disposing, trace := [], [], [], [], [], [];
    }

    ghost method Note(op: Op)
      requires Value() == Step(Run(EMPTY, trace), op)
      modifies this`trace
      ensures Valid() && trace == old(trace) + [op] && Asked(trace) == Asked(old(trace)) + Asked([op])
    {
      RunSnoc(EMPTY, trace, op);
      AskedConcat(trace, [op]);
      trace := trace + [op];
    }

    // ---------------------------------------------------------------- the counters

    method AddRefNothrow(b: nat) returns (ok: bool)
      requires b < |blocks|
      modifies this`blocks
      ensures ok == (old(blocks)[b].use != 0) && Value() == AddRef(old(Value()), Some(b))
    {
      if blocks[b].use == 0 { return false; }
      blocks := blocks[b := blocks[b].(use := blocks[b].use + 1)];
      return true;
    }

    method AddWeakRef(b: nat)
      requires b < |blocks|
      modifies this`blocks
      ensures Value() == WeakAddRef(old(Value()), Some(b))
    {
      blocks := blocks[b := blocks[b].(weak := blocks[b].weak + 1)];
    }

    method ReleaseWeak(b: nat)
      requires b < |blocks|
      modifies this`blocks
      ensures Value() == WeakRelease(old(Value()), Some(b))
    {
      blocks := blocks[b := blocks[b].(weak := blocks[b].weak - 1)];
      if blocks[b].weak == 0 { Destroy(b); }
    }

    method Destroy(b: nat)
      requires b < |blocks|
      modifies this`blocks
      ensures Value() == SetBlock(old(Value()), b, old(blocks)[b].(destroyed := old(blocks)[b].destroyed + 1))
    {
      blocks := blocks[b := blocks[b].(destroyed := blocks[b].destroyed + 1)];
    }

    /** The release that ends operation `op`. */
    method ReleaseStrong(b: nat, ghost op: Op)
      requires b < |blocks| && !op.Return?
      requires Release(Value(), Some(b)) == Step(Run(EMPTY, trace), op)
      modifies this
      ensures Did(op)
      decreases |script|, 2
    {
      blocks := blocks[b := blocks[b].(use := blocks[b].use - 1)];
      if blocks[b].use == 0 {
        Dispose(b, op);
        AfterDispose(b);
      } else {
        Note(op);
      }
    }

    /** dispose: the destructor performs the operations of the script up to its return. */
    method Dispose(b: nat, ghost op: Op)
      requires b < |blocks| && !op.Return? && blocks[b].use == 0
      requires SetBlock(Value(), b, blocks[b].(disposed := blocks[b].disposed + 1)).(disposing := disposing + [b])
               == Step(Run(EMPTY, trace), op)
      modifies this
      ensures Valid() && disposing == old(disposing) + [b] && b < |blocks|
      ensures old(trace) + [op] <= trace && |script| <= |old(script)|
      ensures Asked(trace) + Asked(script) == Asked(old(trace)) + Asked([op]) + Asked(old(script))
      decreases |script|, 1
    {
      blocks := blocks[b := blocks[b].(disposed := blocks[b].disposed + 1)];
      disposing := disposing + [b];
      Note(op);
      while script != [] && !script[0].Return?
        invariant Valid() && disposing == old(disposing) + [b]
        invariant old(trace) + [op] <= trace && |script| <= |old(script)|
        invariant Asked(trace) + Asked(script) == Asked(old(trace)) + Asked([op]) + Asked(old(script))
        decreases |script|
      {
        PerformNext();
      }
      if script != [] { script := script[1..]; }
      DisposingThere(trace);
      assert disposing[|old(disposing)|] == b;
    }

    /** release goes on after dispose has returned. */
    method AfterDispose(b: nat)
      requires Valid() && b < |blocks| && disposing != [] && disposing[|disposing| - 1] == b
      modifies this
      ensures Valid() && disposing == old(disposing)[..|old(disposing)| - 1] && script == old(script)
      ensures trace == old(trace) + [Return] && Asked(trace) == Asked(old(trace))
    {
      EndOfDispose(Value(), disposing[..|disposing| - 1], b);
      disposing := disposing[..|disposing| - 1];
      ReleaseWeak(b);
      Note(Return);
    }

    /** Take the next operation off the script and perform it. */
    method PerformNext()
      requires Valid() && script != [] && !script[0].Return?
      modifies this
      ensures Valid() && disposing == old(disposing) && |script| < |old(script)|
      ensures old(trace) + [old(script)[0]] <= trace
      ensures Asked(trace) + Asked(script) == Asked(old(trace)) + Asked(old(script))
      decreases |script|, 0
    {
      var op := script[0];
      script := script[1..];
      AskedConcat([op], script);
      assert [op] + script == old(script);
      Perform(op);
    }

    method Perform(op: Op)
      requires Valid() && !op.Return?
      modifies this
      ensures Did(op)
      decreases |script|, 6
    {
      if op.Single() { PerformSingle(op); }
      else if op.Pair() { PerformPair(op); }
      else { PerformWeak(op); }
    }

    /** Perform a program: afterwards no dispose is running, and exactly the operations it asks for were
        performed, in that order. */
    method Execute(program: seq<Op>)
      requires Valid() && disposing == []
      modifies this
      ensures Valid() && disposing == [] && Asked(trace) == Asked(old(trace)) + Asked(program)
    {
      script := program;
      while script != []
        invariant Valid() && disposing == []
        invariant Asked(trace) + Asked(script) == Asked(old(trace)) + Asked(program)
        decreases |script|
      {
        if script[0].Return? { script := script[1..]; } else { PerformNext(); }
      }
    }

    // ---------------------------------------------------------------- strong handles

    method PerformSingle(op: Op)
      requires Valid() && op.Single()
      modifies this
      ensures Did(op)
      decreases |script|, 5
    {
      match op
      case Create(ptr) => MakeObject(ptr);
      case Copy(h) => if Live(strong, h) { CopyStrong(h); } else { Note(op); }
      case Alias(h, ptr) => if Live(strong, h) { AliasStrong(h, ptr); } else { Note(op); }
      case Move(h) => if Live(strong, h) { MoveStrong(h); } else { Note(op); }
      case Reset(h) => if Live(strong, h) { ResetStrong(h); } else { Note(op); }
      case ResetTo(h, ptr) => if Live(strong, h) { ResetStrongTo(h, ptr); } else { Note(op); }
      case Drop(h) => if Live(strong, h) { DropStrong(h); } else { Note(op); }
      case Lock(w) => if Live(weak, w) { LockWeak(w); } else { Note(op); }
    }

    method PerformPair(op: Op)
      requires Valid() && op.Pair()
      modifies this
      ensures Did(op)
      decreases |script|, 5
    {
      if !Live(strong, op.to) || !Live(strong, op.from) { Note(op); }
      else if op.Assign? { AssignStrong(op.to, op.from); }
      else if op.MoveAssign? { MoveAssignStrong(op.to, op.from); }
      else { SwapStrong(op.to, op.from); }
    }

    /** Take a share in a handle's block. */
    method Acquire(b: Option<nat>)
      requires b.Some? ==> b.value < |blocks|
      modifies this`blocks
      ensures Value() == AddRef(old(Value()), b)
    {
      if b.Some? { var ok := AddRefNothrow(b.value); }
    }

    /** Give back a share in a handle's block, which ends operation `op`. */
    method GiveBack(b: Option<nat>, ghost op: Op)
      requires (b.Some? ==> b.value < |blocks|) && !op.Return?
      requires Release(Value(), b) == Step(Run(EMPTY, trace), op)
      modifies this
      ensures Did(op)
      decreases |script|, 3
    {
      if b.Some? { ReleaseStrong(b.value, op); } else { Note(op); }
    }

    method MakeObject(ptr: nat)
      requires Valid()
      modifies this
      ensures Did(Create(ptr)) && trace == old(trace) + [Create(ptr)]
      ensures strong == old(strong) + [Some(Ref(ptr, Some(|old(blocks)|)))] && weak == old(weak)
    {
      blocks := blocks + [Block(1, 1, 0, 0)];
      strong := strong + [Some(Ref(ptr, Some(|blocks| - 1)))];
      Note(Create(ptr));
    }

    method CopyStrong(h: nat)
      requires Valid() && Live(strong, h)
      modifies this
      ensures Did(Copy(h)) && trace == old(trace) + [Copy(h)]
      ensures strong == old(strong) + [old(strong)[h]] && weak == old(weak)
    {
      BlockThere(trace, h);
      Acquire(strong[h].value.block);
      strong := strong + [strong[h]];
      Note(Copy(h));
    }

    method AliasStrong(h: nat, ptr: nat)
      requires Valid() && Live(strong, h)
      modifies this
      ensures Did(Alias(h, ptr)) && trace == old(trace) + [Alias(h, ptr)]
      ensures strong == old(strong) + [Some(old(strong)[h].value.(ptr := ptr))] && weak == old(weak)
    {
      BlockThere(trace, h);
      Acquire(strong[h].value.block);
      strong := strong + [Some(Ref(ptr, strong[h].value.block))];
      Note(Alias(h, ptr));
    }

    method MoveStrong(h: nat)
      requires Valid() && Live(strong, h)
      modifies this
      ensures Did(Move(h)) && trace == old(trace) + [Move(h)]
      ensures strong == old(strong)[h := Some(NULL)] + [old(strong)[h]] && weak == old(weak)
    {
      strong := strong[h := Some(NULL)] + [strong[h]];
      Note(Move(h));
    }

    method ResetStrong(h: nat)
      requires Valid() && Live(strong, h)
      modifies this
      ensures Did(Reset(h))
      ensures Quiet() ==> strong == old(strong)[h := Some(NULL)] && weak == old(weak)
      decreases |script|, 4
    {
      BlockThere(trace, h);
      var was := strong[h].value.block;
      strong := strong[h := Some(NULL)];
      GiveBack(was, Reset(h));
      if Quiet() { LastStep(old(trace), Reset(h)); }
    }

    method ResetStrongTo(h: nat, ptr: nat)
      requires Valid() && Live(strong, h)
      modifies this
      ensures Did(ResetTo(h, ptr))
      ensures Quiet() ==>
                && weak == old(weak)
                && strong == if ptr != 0 && old(strong)[h].value.ptr == ptr then old(strong)
                             else old(strong)[h := Some(Ref(ptr, Some(|old(blocks)|)))]
      decreases |script|, 4
    {
      if strong[h].value.ptr == ptr && ptr != 0 {
        Note(ResetTo(h, ptr));
        return;
      }
      BlockThere(trace, h);
      var was := strong[h].value.block;
      blocks := blocks + [Block(1, 1, 0, 0)];
      strong := strong[h := Some(Ref(ptr, Some(|blocks| - 1)))];
      GiveBack(was, ResetTo(h, ptr));
      if Quiet() { LastStep(old(trace), ResetTo(h, ptr)); }
    }

    method DropStrong(h: nat)
      requires Valid() && Live(strong, h)
      modifies this
      ensures Did(Drop(h))
      ensures Quiet() ==> strong == old(strong)[h := None] && weak == old(weak)
      decreases |script|, 4
    {
      BlockThere(trace, h);
      var was := strong[h].value.block;
      strong := strong[h := None];
      GiveBack(was, Drop(h));
      if Quiet() { LastStep(old(trace), Drop(h)); }
    }

    method LockWeak(w: nat)
      requires Valid() && Live(weak, w)
      modifies this
      ensures Did(Lock(w)) && trace == old(trace) + [Lock(w)]
      ensures strong == old(strong)
                + [if RcHandles.Shared(old(strong), old(weak)[w].value.block) then old(weak)[w] else Some(NULL)]
      ensures weak == old(weak)
    {
      BlockThere(trace, w);
      InUse(w);
      var r := weak[w].value;
      var ok := false;
      if r.block.Some? { ok := AddRefNothrow(r.block.value); }
      strong := strong + [Some(if ok then r else NULL)];
      Note(Lock(w));
    }

    method AssignStrong(h: nat, g: nat)
      requires Valid() && Live(strong, h) && Live(strong, g)
      modifies this
      ensures Did(Assign(h, g))
      ensures Quiet() ==> strong == old(strong)[h := old(strong)[g]] && weak == old(weak)
      decreases |script|, 4
    {
      BlockThere(trace, h);
      BlockThere(trace, g);
      var was, r := strong[h].value, strong[g].value;
      if was.block == r.block {
        strong := strong[h := Some(r)];
        Note(Assign(h, g));
      } else {
        strong := strong[h := Some(r)];
        Acquire(r.block);
        GiveBack(was.block, Assign(h, g));
      }
      if Quiet() { LastStep(old(trace), Assign(h, g)); }
    }

    method MoveAssignStrong(h: nat, g: nat)
      requires Valid() && Live(strong, h) && Live(strong, g)
      modifies this
      ensures Did(MoveAssign(h, g))
      ensures Quiet() ==> strong == old(strong)[g := Some(NULL)][h := old(strong)[g]] && weak == old(weak)
      decreases |script|, 4
    {
      BlockThere(trace, h);
      var moved := strong[g].value;
      strong := strong[g := Some(NULL)];
      var was := strong[h].value;
      strong := strong[h := Some(moved)];
      GiveBack(was.block, MoveAssign(h, g));
      if Quiet() { LastStep(old(trace), MoveAssign(h, g)); }
    }

    method SwapStrong(h: nat, g: nat)
      requires Valid() && Live(strong, h) && Live(strong, g)
      modifies this
      ensures Did(Swap(h, g)) && trace == old(trace) + [Swap(h, g)]
      ensures strong == old(strong)[h := old(strong)[g]][g := old(strong)[h]] && weak == old(weak)
    {
      strong := strong[h := strong[g]][g := strong[h]];
      Note(Swap(h, g));
    }

    // ---------------------------------------------------------------- weak handles

    method PerformWeak(op: Op)
      requires Valid() && !op.Single() && !op.Pair() && !op.Return?
      modifies this
      ensures Did(op) && trace == old(trace) + [op]
    {
      match op
      case Watch(h) => if Live(strong, h) { WatchStrong(h); } else { Note(op); }
      case WeakEmpty => NewWeak();
      case WeakCopy(w) => if Live(weak, w) { CopyWeak(w); } else { Note(op); }
      case WeakMove(w) => if Live(weak, w) { MoveWeak(w); } else { Note(op); }
      case WeakReset(w) => if Live(weak, w) { ResetWeak(w); } else { Note(op); }
      case WeakDrop(w) => if Live(weak, w) { DropWeak(w); } else { Note(op); }
      case WeakAssign(w, v) => if Live(weak, w) && Live(weak, v) { AssignWeak(w, v); } else { Note(op); }
      case WeakMoveAssign(w, v) => if Live(weak, w) && Live(weak, v) { MoveAssignWeak(w, v); } else { Note(op); }
      case WeakSwap(w, v) => if Live(weak, w) && Live(weak, v) { SwapWeak(w, v); } else { Note(op); }
      case WeakAssignStrong(w, h) =>
        if Live(weak, w) && Live(strong, h) { AssignWeakFromStrong(w, h); } else { Note(op); }
      case ShareFrom(w, h) => if Live(weak, w) && Live(strong, h) { ShareWeakFrom(w, h); } else { Note(op); }
    }

    method WatchBlock(b: Option<nat>)
      requires b.Some? ==> b.value < |blocks|
      modifies this`blocks
      ensures Value() == WeakAddRef(old(Value()), b)
    {
      if b.Some? { AddWeakRef(b.value); }
    }

    method Unwatch(b: Option<nat>)
      requires b.Some? ==> b.value < |blocks|
      modifies this`blocks
      ensures Value() == WeakRelease(old(Value()), b)
    {
      if b.Some? { ReleaseWeak(b.value); }
    }

    method WatchStrong(h: nat)
      requires Valid() && Live(strong, h)
      modifies this
      ensures Did(Watch(h)) && trace == old(trace) + [Watch(h)]
      ensures weak == old(weak) + [old(strong)[h]] && strong == old(strong)
    {
      BlockThere(trace, h);
      WatchBlock(strong[h].value.block);
      weak := weak + [strong[h]];
      Note(Watch(h));
    }

    method NewWeak()
      requires Valid()
      modifies this
      ensures Did(WeakEmpty) && trace == old(trace) + [WeakEmpty]
      ensures weak == old(weak) + [Some(NULL)] && strong == old(strong)
    {
      weak := weak + [Some(NULL)];
      Note(WeakEmpty);
    }

    method CopyWeak(w: nat)
      requires Valid() && Live(weak, w)
      modifies this
      ensures Did(WeakCopy(w)) && trace == old(trace) + [WeakCopy(w)]
      ensures weak == old(weak) + [old(weak)[w]] && strong == old(strong)
    {
      BlockThere(trace, w);
      WatchBlock(weak[w].value.block);
      weak := weak + [weak[w]];
      Note(WeakCopy(w));
    }

    method MoveWeak(w: nat)
      requires Valid() && Live(weak, w)
      modifies this
      ensures Did(WeakMove(w)) && trace == old(trace) + [WeakMove(w)]
      ensures weak == old(weak)[w := Some(NULL)] + [old(weak)[w]] && strong == old(strong)
    {
      weak := weak[w := Some(NULL)] + [weak[w]];
      Note(WeakMove(w));
    }

    method ResetWeak(w: nat)
      requires Valid() && Live(weak, w)
      modifies this
      ensures Did(WeakReset(w)) && trace == old(trace) + [WeakReset(w)]
      ensures weak == old(weak)[w := Some(NULL)] && strong == old(strong)
    {
      BlockThere(trace, w);
      var was := weak[w].value.block;
      weak := weak[w := Some(NULL)];
      Unwatch(was);
      Note(WeakReset(w));
    }

    method DropWeak(w: nat)
      requires Valid() && Live(weak, w)
      modifies this
      ensures Did(WeakDrop(w)) && trace == old(trace) + [WeakDrop(w)]
      ensures weak == old(weak)[w := None] && strong == old(strong)
    {
      BlockThere(trace, w);
      var was := weak[w].value.block;
      weak := weak[w := None];
      Unwatch(was);
      Note(WeakDrop(w));
    }

    method AssignWeak(w: nat, v: nat)
      requires Valid() && Live(weak, w) && Live(weak, v)
      modifies this
      ensures Did(WeakAssign(w, v)) && trace == old(trace) + [WeakAssign(w, v)]
      ensures weak == old(weak)[w := old(weak)[v]] && strong == old(strong)
    {
      BlockThere(trace, w);
      BlockThere(trace, v);
      var was, r := weak[w].value, weak[v].value;
      weak := weak[w := Some(r)];
      if was.block != r.block {
        WatchBlock(r.block);
        Unwatch(was.block);
      }
      Note(WeakAssign(w, v));
    }

    method MoveAssignWeak(w: nat, v: nat)
      requires Valid() && Live(weak, w) && Live(weak, v)
      modifies this
      ensures Did(WeakMoveAssign(w, v)) && trace == old(trace) + [WeakMoveAssign(w, v)]
      ensures weak == old(weak)[v := Some(NULL)][w := old(weak)[v]] && strong == old(strong)
    {
      BlockThere(trace, w);
      var moved := weak[v].value;
      weak := weak[v := Some(NULL)];
      var was := weak[w].value;
      weak := weak[w := Some(moved)];
      Unwatch(was.block);
      Note(WeakMoveAssign(w, v));
    }

    method SwapWeak(w: nat, v: nat)
      requires Valid() && Live(weak, w) && Live(weak, v)
      modifies this
      ensures Did(WeakSwap(w, v)) && trace == old(trace) + [WeakSwap(w, v)]
      ensures weak == old(weak)[w := old(weak)[v]][v := old(weak)[w]] && strong == old(strong)
    {
      weak := weak[w := weak[v]][v := weak[w]];
      Note(WeakSwap(w, v));
    }

    method AssignWeakFromStrong(w: nat, h: nat)
      requires Valid() && Live(weak, w) && Live(strong, h)
      modifies this
      ensures Did(WeakAssignStrong(w, h)) && trace == old(trace) + [WeakAssignStrong(w, h)]
      ensures weak == old(weak)[w := old(strong)[h]] && strong == old(strong)
    {
      Redirect(w, h);
      Note(WeakAssignStrong(w, h));
    }

    /** Make a weak handle watch what a strong handle holds: a temporary counter is swapped in, and the
        share in the block watched before goes with it. */
    method Redirect(w: nat, h: nat)
      requires Valid() && Live(weak, w) && Live(strong, h)
      modifies this`blocks, this`weak
      ensures var s, r := old(Value()), old(strong[h].value);
              Value() == WeakRelease(WeakPut(WeakAddRef(s, r.block), w, Some(r)), s.weak[w].value.block)
    {
      BlockThere(trace, w);
      BlockThere(trace, h);
      var was, r := weak[w].value, strong[h].value;
      WatchBlock(r.block);
      weak := weak[w := Some(r)];
      Unwatch(was.block);
    }

    /** weak_rc_ptr::assign: point the weak handle inside an object at that object, unless the handle
        already watches a block in use. Whether or not the temporary counter is moved in, one share in
        the block watched before is given back. */
    method ShareWeakFrom(w: nat, h: nat)
      requires Valid() && Live(weak, w) && Live(strong, h)
      modifies this
      ensures Did(ShareFrom(w, h)) && trace == old(trace) + [ShareFrom(w, h)]
      ensures strong == old(strong) && weak == if RcHandles.Shared(strong, old(weak)[w].value.block) then old(weak)
                                           else old(weak)[w := old(strong)[h]]
    {
      BlockThere(trace, w);
      InUse(w);
      var was := weak[w].value.block;
      if (if was.Some? then blocks[was.value].use else 0) == 0 { Redirect(w, h); }
      Note(ShareFrom(w, h));
    }
  }

  /** A running dispose is that of a block that is there. */
  lemma DisposingThere(trace: seq<Op>)
    ensures var s := Run(EMPTY, trace); forall i :: 0 <= i < |s.disposing| ==> s.disposing[i] < |s.blocks|
  {
    RunKeeps(EMPTY, trace);
  }
}
