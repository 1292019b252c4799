/** `spin_rw_lock` (include/lock/spin_rw_lock.h) as interleaved atomic steps. Every use of the lock, from
    asking for it to having given it back, is one entry of `uses`: a thread that holds several read locks
    is several entries. Each step is one atomic load or one compare-exchange of the status word, with the
    tests the code makes on its own copy of the status; a compare-exchange may fail spuriously. */
module SpinRwLock {

  const INT32_MAX := 0x7FFF_FFFF
  const MAX_READ_LOCK_HOLDER := INT32_MAX - 1

  /** Where a use stands. `src` is the local copy of the status. */
  datatype Pc =
    | Outside
    | TryingRead(src: int)      // try_read_lock, after a load
    | Reading                   // try_read_lock returned true
    | EndingRead(src: int)      // try_read_unlock, after a load
    | Claiming                  // write_lock, about to load, not yet the owner of the flag
    | ClaimingFrom(src: int)    // write_lock, about to set the flag
    | Draining                  // write_lock, owner of the flag, waiting for the readers
    | TryingWrite(src: int)     // try_write_lock, after a load
    | Writing                   // write_lock or try_write_lock returned true
    | EndingWrite(src: int)     // try_write_unlock, after a load
    | UnlockFailed              // an unlock returned false to a holder
  {
    predicate Reader() { Reading? || EndingRead? }

    predicate Owner() { Draining? || Entered() }

    /** Between the return of a write lock and the release of the flag. */
    predicate Entered() { Writing? || EndingWrite? }
  }

  /** What a use that stands outside asks for. */
  datatype Want = Read | Write | TryWrite

  datatype Step = Step(use: nat, want: Want, spurious: bool)

  datatype State = State(status: int, uses: seq<Pc>)

  /** compare_exchange_weak: the new status, and the caller's copy unless it succeeded. */
  function Exchange(status: int, src: int, dst: int, spurious: bool): (int, bool) {
    if status == src && !spurious then (dst, true) else (status, false)
  }

  /** One atomic step of one use. */
  function Turn(status: int, pc: Pc, want: Want, spurious: bool): (int, Pc) {
    match pc
    case Outside =>
      (status, match want case Read => TryingRead(status) case Write => Claiming case TryWrite => TryingWrite(status))
    case TryingRead(src) =>
      if src % 2 == 1 || src >= MAX_READ_LOCK_HOLDER then (status, Outside)
      else
        var (now, done) := Exchange(status, src, src + 2, spurious);
        (now, if done then Reading else TryingRead(now))
    case Reading => (status, EndingRead(status))
    case EndingRead(src) =>
      if src < 2 then (status, UnlockFailed)
      else
        var (now, done) := Exchange(status, src, src - 2, spurious);
        (now, if done then Outside else EndingRead(now))
    case Claiming => (status, if status % 2 == 1 then Claiming else ClaimingFrom(status))
    case ClaimingFrom(src) =>
      var (now, done) := Exchange(status, src, src + 1, spurious);
      (now, if done then Draining else Claiming)
    case Draining => (status, if status < 2 then Writing else Draining)
    case TryingWrite(src) =>
      if src % 2 == 1 || src >= 2 then (status, Outside)
      else
        var (now, done) := Exchange(status, src, src + 1, spurious);
        (now, if done then Writing else TryingWrite(now))
    case Writing => (status, EndingWrite(status))
    case EndingWrite(src) =>
      if src % 2 == 0 then (status, UnlockFailed)
      else
        var (now, done) := Exchange(status, src, src - 1, spurious);
        (now, if done then Outside else EndingWrite(now))
    case UnlockFailed => (status, UnlockFailed)
  }

  function Advance(s: State, step: Step): State {
    if step.use >= |s.uses| then s
    else
      var (status, pc) := Turn(s.status, s.uses[step.use], step.want, step.spurious);
      State(status, s.uses[step.use := pc])
  }

  function Run(s: State, steps: seq<Step>): (r: State)
    ensures |r.uses| == |s.uses|
    decreases steps
  {
    if steps == [] then s else Run(Advance(s, steps[0]), steps[1..])
  }

  function Fresh(n: nat): State { State(0, seq(n, _ => Outside)) }

  // ---------------------------------------------------------------- counting

  function Tally(uses: seq<Pc>, p: Pc -> bool): (n: nat)
    ensures n <= |uses|
  {
    if uses == [] then 0 else (if p(uses[0]) then 1 else 0) + Tally(uses[1..], p)
  }

  function Readers(s: State): nat { Tally(s.uses, (pc: Pc) => pc.Reader()) }

  function Owners(s: State): nat { Tally(s.uses, (pc: Pc) => pc.Owner()) }

  function Entrants(s: State): nat { Tally(s.uses, (pc: Pc) => pc.Entered()) }

  lemma {:induction false} TallyUpdate(uses: seq<Pc>, p: Pc -> bool, i: nat, pc: Pc)
    requires i < |uses|
    ensures Tally(uses[i := pc], p) == Tally(uses, p) - (if p(uses[i]) then 1 else 0) + (if p(pc) then 1 else 0)
  {
    if i > 0 {
      TallyUpdate(uses[1..], p, i - 1, pc);
      assert uses[i := pc][1..] == uses[1..][i - 1 := pc];
    }
  }

  lemma {:induction false} TallyTwo(uses: seq<Pc>, p: Pc -> bool, i: nat, j: nat)
    requires i < |uses| && p(uses[i])
    ensures Tally(uses, p) >= 1
    ensures i < j < |uses| && p(uses[j]) ==> Tally(uses, p) >= 2
  {
    if i > 0 {
      TallyTwo(uses[1..], p, i - 1, if j > 0 then j - 1 else 0);
    } else if 0 < j < |uses| && p(uses[j]) {
      TallyTwo(uses[1..], p, j - 1, j - 1);
    }
  }

  lemma {:induction false} TallyNone(uses: seq<Pc>, p: Pc -> bool)
    requires forall pc :: pc in uses ==> !p(pc)
    ensures Tally(uses, p) == 0
  {
    if uses != [] {
      assert uses[0] in uses && forall pc :: pc in uses[1..] ==> pc in uses;
      TallyNone(uses[1..], p);
    }
  }

  // ---------------------------------------------------------------- the invariant

  ghost predicate Sound(s: State) {
    && s.status == 2 * Readers(s) + Owners(s)
    && Owners(s) <= 1
    && s.status <= INT32_MAX
    && (Entrants(s) > 0 ==> Readers(s) == 0)
    && (forall pc :: pc in s.uses ==> Local(pc))
  }

  /** What a use knows from its copy of the status: a holder's copy shows its own lock, every copy is a
      value the status had, and no unlock has failed. */
  predicate Local(pc: Pc) {
    match pc
    case EndingRead(src) => 2 <= src <= INT32_MAX
    case EndingWrite(src) => src % 2 == 1 && 0 <= src <= INT32_MAX
    case TryingRead(src) => 0 <= src <= INT32_MAX
    case TryingWrite(src) => 0 <= src <= INT32_MAX
    case ClaimingFrom(src) => src % 2 == 0 && 0 <= src < INT32_MAX
    case UnlockFailed => false
    case _ => true
  }

  /** How a step moves the three counts. */
  lemma Moves(s: State, step: Step)
    requires step.use < |s.uses|
    ensures var pc := s.uses[step.use]; var q := Turn(s.status, pc, step.want, step.spurious).1;
            var r := Advance(s, step);
            && Readers(r) == Readers(s) - (if pc.Reader() then 1 else 0) + (if q.Reader() then 1 else 0)
            && Owners(r) == Owners(s) - (if pc.Owner() then 1 else 0) + (if q.Owner() then 1 else 0)
            && Entrants(r) == Entrants(s) - (if pc.Entered() then 1 else 0) + (if q.Entered() then 1 else 0)
  {
    var q := Turn(s.status, s.uses[step.use], step.want, step.spurious).1;
    TallyUpdate(s.uses, (pc: Pc) => pc.Reader(), step.use, q);
    TallyUpdate(s.uses, (pc: Pc) => pc.Owner(), step.use, q);
    TallyUpdate(s.uses, (pc: Pc) => pc.Entered(), step.use, q);
  }

  /** The counts see the use that is about to move. */
  lemma Seen(s: State, i: nat)
    requires i < |s.uses|
    ensures s.uses[i].Reader() ==> Readers(s) >= 1
    ensures s.uses[i].Owner() ==> Owners(s) >= 1
    ensures s.uses[i].Entered() ==> Entrants(s) >= 1
  {
    if s.uses[i].Reader() { TallyTwo(s.uses, (pc: Pc) => pc.Reader(), i, i); }
    if s.uses[i].Owner() { TallyTwo(s.uses, (pc: Pc) => pc.Owner(), i, i); }
    if s.uses[i].Entered() { TallyTwo(s.uses, (pc: Pc) => pc.Entered(), i, i); }
  }

  /** An entered writer owns the flag. */
  lemma {:induction false} EnteredOwns(uses: seq<Pc>)
    ensures Tally(uses, (pc: Pc) => pc.Entered()) <= Tally(uses, (pc: Pc) => pc.Owner())
  {
    if uses != [] { EnteredOwns(uses[1..]); }
  }

  lemma AdvanceSound(s: State, step: Step)
    requires Sound(s)
    ensures Sound(Advance(s, step))
  {
    if step.use < |s.uses| {
      var pc := s.uses[step.use];
      var q := Turn(s.status, pc, step.want, step.spurious).1;
      assert pc in s.uses && Local(pc);
      Moves(s, step);
      Seen(s, step.use);
      EnteredOwns(s.uses);
      TurnLocal(s, step);
      forall x | x in Advance(s, step).uses ensures Local(x) {
        assert x == q || x in s.uses;
      }
    }
  }

  lemma TurnLocal(s: State, step: Step)
    requires Sound(s) && step.use < |s.uses|
    ensures Local(Turn(s.status, s.uses[step.use], step.want, step.spurious).1)
  {
    assert s.uses[step.use] in s.uses;
    Seen(s, step.use);
  }

  lemma FreshSound(n: nat)
    ensures Sound(Fresh(n))
  {
    var s := Fresh(n);
    TallyNone(s.uses, (pc: Pc) => pc.Reader());
    TallyNone(s.uses, (pc: Pc) => pc.Owner());
    TallyNone(s.uses, (pc: Pc) => pc.Entered());
  }

  lemma {:induction false} RunSound(s: State, steps: seq<Step>)
    requires Sound(s)
    ensures Sound(Run(s, steps))
    decreases steps
  {
    if steps != [] {
      AdvanceSound(s, steps[0]);
      RunSound(Advance(s, steps[0]), steps[1..]);
    }
  }

  // ---------------------------------------------------------------- exclusion

  /** After any interleaving from a new lock the status counts the readers and the flag and stays in
      range, and no unlock by a holder has failed. */
  lemma StatusCounts(n: nat, steps: seq<Step>)
    ensures var s := Run(Fresh(n), steps);
            && |s.uses| == n && UnlockFailed !in s.uses
            && s.status == 2 * Readers(s) + Owners(s) && 0 <= s.status <= 2_147_483_647 && Owners(s) <= 1
  {
    FreshSound(n);
    RunSound(Fresh(n), steps);
  }

  /** And the flag has at most one owner, and no reader stands beside a writer whose lock call has
      returned. */
  lemma Exclusion(n: nat, steps: seq<Step>, i: nat, j: nat)
    requires i < n && j < n && i != j
    ensures var s := Run(Fresh(n), steps);
            && |s.uses| == n
            && !(s.uses[i].Owner() && s.uses[j].Owner())
            && !(s.uses[i].Entered() && s.uses[j].Reader())
  {
    FreshSound(n);
    RunSound(Fresh(n), steps);
    var s := Run(Fresh(n), steps);
    Seen(s, i);
    Seen(s, j);
    if s.uses[i].Owner() && s.uses[j].Owner() {
      TallyTwo(s.uses, (pc: Pc) => pc.Owner(), if i < j then i else j, if i < j then j else i);
    }
  }

  /** When every use stands outside the lock is free again. */
  lemma FreeAgain(s: State)
    requires Sound(s) && forall pc :: pc in s.uses ==> !pc.Reader() && !pc.Owner()
    ensures s.status == 0
  {
    TallyNone(s.uses, (pc: Pc) => pc.Reader());
    TallyNone(s.uses, (pc: Pc) => pc.Owner());
  }

  // ---------------------------------------------------------------- refinement of an ideal lock

  /** The lock as its callers see it. `claimed` says that a writer bars new readers. */
  datatype Ideal = Ideal(readers: nat, claimed: bool, writing: bool)

  /** The moves of an ideal lock: a reader comes in when no writer has claimed the lock, a writer claims
      it when nobody has, and the claimant comes in when the last reader is gone. */
  predicate IdealMove(a: Ideal, b: Ideal) {
    || b == a
    || (!a.claimed && b == a.(readers := a.readers + 1))
    || (a.readers > 0 && b == a.(readers := a.readers - 1))
    || (!a.claimed && b == a.(claimed := true))
    || (a.claimed && !a.writing && a.readers == 0 && b == a.(writing := true))
    || (!a.claimed && a.readers == 0 && b == Ideal(0, true, true))
    || (a.writing && b == a.(claimed := false, writing := false))
  }

  function Abstract(s: State): Ideal { Ideal(Readers(s), Owners(s) > 0, Entrants(s) > 0) }

  /** Every atomic step is a move of the ideal lock or changes nothing a caller can see. */
  lemma Refines(s: State, step: Step)
    requires Sound(s)
    ensures IdealMove(Abstract(s), Abstract(Advance(s, step)))
  {
    if step.use < |s.uses| {
      assert s.uses[step.use] in s.uses;
      Moves(s, step);
      Seen(s, step.use);
      EnteredOwns(s.uses);
    } else {
      assert Advance(s, step) == s;
    }
  }

  // ---------------------------------------------------------------- progress of a writer

  /** The flag is set before every step of the run. */
  ghost predicate FlagHeld(s: State, steps: seq<Step>)
    decreases steps
  {
    s.status % 2 == 1 && (steps != [] ==> FlagHeld(Advance(s, steps[0]), steps[1..]))
  }

  /** How many read locks the run gives back. */
  function Released(s: State, steps: seq<Step>): nat
    decreases steps
  {
    if steps == [] then 0
    else
      var r := Advance(s, steps[0]);
      (if r.status == s.status - 2 then 1 else 0) + Released(r, steps[1..])
  }

  /** While the flag is set no reader comes in, so every read unlock brings a waiting writer one nearer:
      the readers that are left are those at the start less the ones that left. */
  lemma {:induction false} WriterProgress(s: State, steps: seq<Step>)
    requires Sound(s) && FlagHeld(s, steps)
    ensures Readers(Run(s, steps)) + Released(s, steps) == Readers(s)
    decreases steps
  {
    if steps != [] {
      var r := Advance(s, steps[0]);
      AdvanceSound(s, steps[0]);
      if steps[0].use < |s.uses| {
        assert s.uses[steps[0].use] in s.uses;
        Moves(s, steps[0]);
        Seen(s, steps[0].use);
      }
      WriterProgress(r, steps[1..]);
    }
  }

  /** The waiting writer's next look lets it in exactly when as many read locks have been given back as
      there were when it set the flag. */
  lemma WriterEnters(s: State, steps: seq<Step>, w: nat, want: Want, spurious: bool)
    requires Sound(s) && FlagHeld(s, steps)
    requires w < |s.uses| && Run(s, steps).uses[w].Draining?
    ensures Advance(Run(s, steps), Step(w, want, spurious)).uses[w].Writing? <==> Released(s, steps) == Readers(s)
  {
    RunSound(s, steps);
    WriterProgress(s, steps);
    Seen(Run(s, steps), w);
  }

  // ---------------------------------------------------------------- what a try may answer

  /** One step of a use that nobody disturbs. */
  function Solo(s: State, use: nat, want: Want): State { Advance(s, Step(use, want, false)) }

  /** Whatever stands around it, a try that nobody disturbs lets the use in exactly when the lock as its
      callers see it admits it. */
  lemma SoloRead(s: State, use: nat)
    requires Sound(s) && use < |s.uses| && s.uses[use].Outside?
    ensures var r := Solo(Solo(s, use, Read), use, Read);
            r.uses[use].Reading? <==> !Abstract(s).claimed && Readers(s) < 1_073_741_823
  {}

  lemma SoloWrite(s: State, use: nat)
    requires Sound(s) && use < |s.uses| && s.uses[use].Outside?
    ensures var r := Solo(Solo(s, use, TryWrite), use, TryWrite);
            r.uses[use].Writing? <==> !Abstract(s).claimed && Readers(s) == 0
  {}

  /** A blocking write lock claims the lock exactly when nobody has, and is in two steps later exactly when
      moreover nobody reads. */
  lemma SoloClaim(s: State, use: nat)
    requires Sound(s) && use < |s.uses| && s.uses[use].Outside?
    ensures var r := Solo(Solo(Solo(s, use, Write), use, Write), use, Write);
            && (r.uses[use].Draining? <==> !Abstract(s).claimed)
            && (Solo(r, use, Write).uses[use].Writing? <==> !Abstract(s).claimed && Readers(s) == 0)
  {
    var t := Solo(Solo(s, use, Write), use, Write);
    assert t.status == s.status && t.uses[use] == if s.status % 2 == 1 then Claiming else ClaimingFrom(s.status);
  }

  /** A holder that nobody disturbs gives its lock back in two steps. */
  lemma SoloUnlock(s: State, use: nat)
    requires Sound(s) && use < |s.uses| && (s.uses[use].Reading? || s.uses[use].Writing?)
    ensures var r := Solo(Solo(s, use, Read), use, Read);
            && r.uses[use].Outside?
            && Readers(r) == Readers(s) - (if s.uses[use].Reading? then 1 else 0)
            && Owners(r) == Owners(s) - (if s.uses[use].Writing? then 1 else 0)
  {
    var step := Step(use, Read, false);
    var t := Advance(s, step);
    Seen(s, use);
    Moves(s, step);
    Moves(t, step);
  }
}
