/** The methods of `spin_rw_lock` (include/lock/spin_rw_lock.h) with their retry loops, as one use of the
    lock executes them while the others go on. Before each atomic access the other uses take the steps the
    next moment of a schedule lists; a method that is still retrying when the schedule ends answers `None`. */
module SpinRwLockObject {
  import opened Wrappers
  import opened SpinRwLock

  /** What happens right before an atomic access, and whether a compare-exchange there fails spuriously. */
  datatype Moment = Moment(others: seq<Step>, spurious: bool)

  /** The schedule moves every use but `me`. */
  predicate Spares(schedule: seq<Moment>, me: nat) {
    forall i, j :: 0 <= i < |schedule| && 0 <= j < |schedule[i].others| ==> schedule[i].others[j].use != me
  }

  predicate Left(schedule: seq<Moment>, rest: seq<Moment>) {
    |rest| <= |schedule| && rest == schedule[|schedule| - |rest|..]
  }

  lemma {:induction false} RunSnoc(s: State, steps: seq<Step>, step: Step)
    ensures Run(s, steps + [step]) == Advance(Run(s, steps), step)
    decreases steps
  {
    if steps == [] {
      assert steps + [step] == [step];
    } else {
      assert (steps + [step])[1..] == steps[1..] + [step];
      RunSnoc(Advance(s, steps[0]), steps[1..], step);
    }
  }

  class Lock {
    var status: int
    // Where every use of the lock stands.
    var uses: seq<Pc>

    ghost const users: nat
    ghost var trace: seq<Step>

    ghost function Value(): State
      reads this
    {
      State(status, uses)
    }

    /** The lock is where an interleaving of atomic steps from a new lock leads. */
    ghost predicate Valid()
      reads this
    {
      Value() == Run(Fresh(users), trace)
    }

    constructor (users: nat)
      ensures Valid() && this.users == users && status == 0 && uses == seq(users, _ => Outside)
    {
      status, uses, this.users, trace := 0, seq(users, _ => Outside), users, [];
    }

    /** Hence the laws of every interleaving hold of it. */
    lemma Lawful()
      requires Valid()
      ensures Sound(Value()) && |uses| == users
    {
      FreshSound(users);
      RunSound(Fresh(users), trace);
    }

    ghost method Record(step: Step)
      requires Value() == Advance(Run(Fresh(users), trace), step)
      modifies this`trace
      ensures Valid() && trace == old(trace) + [step]
    {
      RunSnoc(Fresh(users), trace, step);
      trace := trace + [step];
    }

    /** The other uses go on. */
    method Interfere(others: seq<Step>, me: nat)
      requires Valid() && me < |uses| && forall j :: 0 <= j < |others| ==> others[j].use != me
      modifies this
      ensures Valid() && |uses| == |old(uses)| && uses[me] == old(uses[me]) && old(trace) <= trace
    {
      for j := 0 to |others|
        invariant Valid() && |uses| == |old(uses)| && uses[me] == old(uses[me]) && old(trace) <= trace
      {
        var step := others[j];
        if step.use < |uses| {
          var (now, pc) := Turn(status, uses[step.use], step.want, step.spurious);
          status, uses := now, uses[step.use := pc];
        }
        Record(step);
      }
    }

    /** This use moves on to `pc`, the status to `now`, in one atomic step. */
    method Move(me: nat, now: int, pc: Pc, ghost step: Step)
      requires Valid() && me < |uses| && step.use == me
      requires Turn(status, uses[me], step.want, step.spurious) == (now, pc)
      modifies this
      ensures Valid() && status == now && uses == old(uses)[me := pc] && trace == old(trace) + [step]
    {
      status, uses := now, uses[me := pc];
      Record(step);
    }

    /** A reader that is in stands beside no writer that is. */
    lemma ReaderAlone(me: nat)
      requires Valid() && me < |uses|
      ensures uses[me].Reading? ==> Entrants(Value()) == 0
      ensures uses[me].Writing? ==> Readers(Value()) == 0 && Owners(Value()) == 1
      ensures !uses[me].UnlockFailed?
    {
      Lawful();
      assert uses[me] in uses;
      Seen(Value(), me);
    }

    /** After the steps `at` a writer had claimed the lock, or there was no room for another reader, or for
        a writer if `reading` is not set. */
    ghost predicate Barred(at: seq<Step>, reading: bool) {
      var s := Run(Fresh(users), at);
      Owners(s) > 0 || (Readers(s) > 0 && (reading ==> Readers(s) >= 1_073_741_823))
    }

    lemma LookBarred(at: seq<Step>, reading: bool)
      requires var src := Run(Fresh(users), at).status;
               src % 2 == 1 || src >= if reading then MAX_READ_LOCK_HOLDER else 2
      ensures Barred(at, reading)
    {
      FreshSound(users);
      RunSound(Fresh(users), at);
    }

    /** try_read_lock: on success no writer is in; it fails only if during the call the flag was set or
        there was no room for another reader. */
    method TryReadLock(me: nat, schedule: seq<Moment>)
      returns (ok: Option<bool>, rest: seq<Moment>, ghost at: seq<Step>)
      requires Valid() && me < |uses| && uses[me].Outside? && Spares(schedule, me)
      modifies this
      ensures Valid() && |uses| == |old(uses)| && Left(schedule, rest)
      ensures ok.Some? && ok.value ==> uses[me].Reading? && Entrants(Value()) == 0
      ensures ok.Some? && !ok.value ==> uses[me].Outside? && |rest| < |schedule|
      ensures ok.Some? && !ok.value ==> old(trace) <= at <= trace && Barred(at, true)
      ensures ok.None? ==> rest == []
    {
      rest, at := schedule, trace;
      if rest == [] { return None, rest, at; }
      Interfere(rest[0].others, me);
      rest := rest[1..];
      var src := status;
      Move(me, status, TryingRead(src), Step(me, Read, false));
      at := trace;
      while true
        invariant Valid() && |uses| == |old(uses)| && uses[me] == TryingRead(src)
        invariant old(trace) <= at <= trace && Run(Fresh(users), at).status == src
        invariant |rest| < |schedule| && Left(schedule, rest) && Spares(rest, me)
        decreases |rest|
      {
        if src % 2 == 1 || src >= MAX_READ_LOCK_HOLDER {
          LookBarred(at, true);
          Move(me, status, Outside, Step(me, Read, false));
          return Some(false), rest, at;
        }
        if rest == [] { return None, rest, at; }
        Interfere(rest[0].others, me);
        var spurious := rest[0].spurious;
        rest := rest[1..];
        if status == src && !spurious {
          Move(me, src + 2, Reading, Step(me, Read, false));
          ReaderAlone(me);
          return Some(true), rest, at;
        }
        src := status;
        Move(me, status, TryingRead(src), Step(me, Read, spurious));
        at := trace;
      }
    }

    /** read_lock: try until it works. */
    method ReadLock(me: nat, schedule: seq<Moment>) returns (done: bool, rest: seq<Moment>)
      requires Valid() && me < |uses| && uses[me].Outside? && Spares(schedule, me)
      modifies this
      ensures Valid() && |uses| == |old(uses)| && Left(schedule, rest)
      ensures done ==> uses[me].Reading? && Entrants(Value()) == 0
      ensures !done ==> rest == []
    {
      rest := schedule;
      while true
        invariant Valid() && |uses| == |old(uses)| && uses[me].Outside?
        invariant Left(schedule, rest) && Spares(rest, me)
        decreases |rest|
      {
        var ok, left, at := TryReadLock(me, rest);
        rest := left;
        if ok.None? { return false, rest; }
        if ok.value { return true, rest; }
      }
    }

    /** try_read_unlock by a holder: it never fails. */
    method TryReadUnlock(me: nat, schedule: seq<Moment>) returns (ok: Option<bool>, rest: seq<Moment>)
      requires Valid() && me < |uses| && uses[me].Reading? && Spares(schedule, me)
      modifies this
      ensures Valid() && |uses| == |old(uses)| && Left(schedule, rest)
      ensures ok.Some? && ok.value ==> uses[me].Outside?
      ensures ok.None? ==> rest == []
      ensures ok.Some? ==> ok.value
    {
      rest := schedule;
      if rest == [] { return None, rest; }
      Interfere(rest[0].others, me);
      rest := rest[1..];
      var src := status;
      Move(me, status, EndingRead(src), Step(me, Read, false));
      while true
        invariant Valid() && |uses| == |old(uses)| && uses[me] == EndingRead(src)
        invariant Left(schedule, rest) && Spares(rest, me)
        decreases |rest|
      {
        if src < 2 {
          Move(me, status, UnlockFailed, Step(me, Read, false));
          ReaderAlone(me);
          assert false;
        }
        if rest == [] { return None, rest; }
        Interfere(rest[0].others, me);
        var spurious := rest[0].spurious;
        rest := rest[1..];
        if status == src && !spurious {
          Move(me, src - 2, Outside, Step(me, Read, false));
          return Some(true), rest;
        }
        src := status;
        Move(me, status, EndingRead(src), Step(me, Read, spurious));
      }
    }

    /** write_lock: set the flag, then wait for the readers; on return none is left. */
    method WriteLock(me: nat, schedule: seq<Moment>) returns (done: bool, rest: seq<Moment>)
      requires Valid() && me < |uses| && uses[me].Outside? && Spares(schedule, me)
      modifies this
      ensures Valid() && |uses| == |old(uses)| && Left(schedule, rest)
      ensures done ==> uses[me].Writing? && Readers(Value()) == 0 && Owners(Value()) == 1
      ensures !done ==> rest == []
    {
      Move(me, status, Claiming, Step(me, Write, false));
      rest := schedule;
      var owned := false;
      while rest != []
        invariant Valid() && |uses| == |old(uses)| && uses[me] == if owned then Draining else Claiming
        invariant Left(schedule, rest) && Spares(rest, me)
        decreases |rest|
      {
        Interfere(rest[0].others, me);
        rest := rest[1..];
        var src := status;
        if owned {
          if src < 2 {
            Move(me, status, Writing, Step(me, Write, false));
            ReaderAlone(me);
            return true, rest;
          }
          Move(me, status, Draining, Step(me, Write, false));
        } else if src % 2 == 1 {
          Move(me, status, Claiming, Step(me, Write, false));
        } else {
          Move(me, status, ClaimingFrom(src), Step(me, Write, false));
          if rest == [] { return false, rest; }
          owned, rest := SetFlag(me, src, rest);
        }
      }
      return false, rest;
    }

    /** The compare-exchange of write_lock. */
    method SetFlag(me: nat, src: int, schedule: seq<Moment>) returns (owned: bool, rest: seq<Moment>)
      requires Valid() && me < |uses| && uses[me] == ClaimingFrom(src) && Spares(schedule, me) && schedule != []
      modifies this
      ensures Valid() && |uses| == |old(uses)| && rest == schedule[1..]
      ensures uses[me] == if owned then Draining else Claiming
    {
      Interfere(schedule[0].others, me);
      owned := status == src && !schedule[0].spurious;
      rest := schedule[1..];
      if owned {
        Move(me, src + 1, Draining, Step(me, Write, false));
      } else {
        Move(me, status, Claiming, Step(me, Write, schedule[0].spurious));
      }
    }

    /** try_write_lock: on success nobody else is in; it fails only if during the call the flag was set or a
        reader was in. */
    method TryWriteLock(me: nat, schedule: seq<Moment>)
      returns (ok: Option<bool>, rest: seq<Moment>, ghost at: seq<Step>)
      requires Valid() && me < |uses| && uses[me].Outside? && Spares(schedule, me)
      modifies this
      ensures Valid() && |uses| == |old(uses)| && Left(schedule, rest)
      ensures ok.Some? && ok.value ==> uses[me].Writing? && Readers(Value()) == 0 && Owners(Value()) == 1
      ensures ok.Some? && !ok.value ==> uses[me].Outside? && old(trace) <= at <= trace && Barred(at, false)
      ensures ok.None? ==> rest == []
    {
      rest, at := schedule, trace;
      if rest == [] { return None, rest, at; }
      Interfere(rest[0].others, me);
      rest := rest[1..];
      var src := status;
      Move(me, status, TryingWrite(src), Step(me, TryWrite, false));
      at := trace;
      while true
        invariant Valid() && |uses| == |old(uses)| && uses[me] == TryingWrite(src)
        invariant old(trace) <= at <= trace && Run(Fresh(users), at).status == src
        invariant Left(schedule, rest) && Spares(rest, me)
        decreases |rest|
      {
        if src % 2 == 1 || src >= 2 {
          LookBarred(at, false);
          Move(me, status, Outside, Step(me, TryWrite, false));
          return Some(false), rest, at;
        }
        if rest == [] { return None, rest, at; }
        Interfere(rest[0].others, me);
        var spurious := rest[0].spurious;
        rest := rest[1..];
        if status == src && !spurious {
          Move(me, src + 1, Writing, Step(me, TryWrite, false));
          ReaderAlone(me);
          return Some(true), rest, at;
        }
        src := status;
        Move(me, status, TryingWrite(src), Step(me, TryWrite, spurious));
        at := trace;
      }
    }

    /** try_write_unlock by the holder: it never fails. */
    method TryWriteUnlock(me: nat, schedule: seq<Moment>) returns (ok: Option<bool>, rest: seq<Moment>)
      requires Valid() && me < |uses| && uses[me].Writing? && Spares(schedule, me)
      modifies this
      ensures Valid() && |uses| == |old(uses)| && Left(schedule, rest)
      ensures ok.Some? && ok.value ==> uses[me].Outside?
      ensures ok.None? ==> rest == []
      ensures ok.Some? ==> ok.value
    {
      rest := schedule;
      if rest == [] { return None, rest; }
      Interfere(rest[0].others, me);
      rest := rest[1..];
      var src := status;
      Move(me, status, EndingWrite(src), Step(me, Write, false));
      while true
        invariant Valid() && |uses| == |old(uses)| && uses[me] == EndingWrite(src)
        invariant Left(schedule, rest) && Spares(rest, me)
        decreases |rest|
      {
        if src % 2 == 0 {
          Move(me, status, UnlockFailed, Step(me, Write, false));
          ReaderAlone(me);
          assert false;
        }
        if rest == [] { return None, rest; }
        Interfere(rest[0].others, me);
        var spurious := rest[0].spurious;
        rest := rest[1..];
        if status == src && !spurious {
          Move(me, src - 1, Outside, Step(me, Write, false));
          return Some(true), rest;
        }
        src := status;
        Move(me, status, EndingWrite(src), Step(me, Write, spurious));
      }
    }
  }
}
