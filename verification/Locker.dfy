/**
 * The reader/writer lock of src/locker.c as a monitor: one mutex, one condition variable,
 * a writer flag and a reader count. Each stretch of code between taking the mutex and
 * releasing it (by unlocking or by waiting) is one step; threads are numbered. The lock does
 * not know who is inside, so a thread inside may call it again.
 */
module LockerSpec {
  import opened Bytes

  type Tid = nat

  /** Where a call is stopped. Wait is asleep, Woken is about to re-test; Claim is past setting the flag. */
  datatype Wait = ReadWait | ReadWoken | WriteWait | WriteWoken | ClaimWait | ClaimWoken

  /** The two fields, the calls not yet returned, and who is inside: readers once for each time, at most one writer. */
  datatype State = State(
    writerPresence: bool, readersNumber: int,
    waiting: map<Tid, Wait>, readers: multiset<Tid>, writer: Option<Tid>)

  datatype Step =
    | ReadLock(t: Tid) | ReadUnlock(t: Tid)
    | WriteLock(t: Tid) | WriteUnlock(t: Tid)
    | SpuriousWakeup(t: Tid)

  const INIT := State(false, 0, map[], multiset{}, None)

  predicate Asleep(w: Wait) {
    w.ReadWait? || w.WriteWait? || w.ClaimWait?
  }

  function WakeOne(w: Wait): Wait {
    match w
    case ReadWait => ReadWoken
    case WriteWait => WriteWoken
    case ClaimWait => ClaimWoken
    case _ => w
  }

  /** pthread_cond_broadcast: every sleeper will re-test its condition. */
  function Broadcast(waiting: map<Tid, Wait>): map<Tid, Wait> {
    map t | t in waiting :: WakeOne(waiting[t])
  }

  /** A thread makes one call at a time, and undoes only what it has done. */
  predicate Enabled(s: State, a: Step) {
    match a
    case ReadLock(t) => t !in s.waiting || s.waiting[t].ReadWoken?
    case WriteLock(t) => t !in s.waiting || s.waiting[t].WriteWoken? || s.waiting[t].ClaimWoken?
    case ReadUnlock(t) => t !in s.waiting && t in s.readers
    case WriteUnlock(t) => t !in s.waiting && s.writer == Some(t)
    case SpuriousWakeup(t) => t in s.waiting && Asleep(s.waiting[t])
  }

  function EnterOrAwaitReaders(s: State, t: Tid): State {
    if s.readersNumber != 0 then s.(waiting := s.waiting[t := ClaimWait])
    else s.(waiting := s.waiting - {t}, writer := Some(t))
  }

  function Next(s: State, a: Step): State
    requires Enabled(s, a)
  {
    match a
    case ReadLock(t) =>
      if s.writerPresence then s.(waiting := s.waiting[t := ReadWait])
      else s.(readersNumber := s.readersNumber + 1, waiting := s.waiting - {t}, readers := s.readers[t := s.readers[t] + 1])
    case WriteLock(t) =>
      if t in s.waiting && s.waiting[t].ClaimWoken? then EnterOrAwaitReaders(s, t)
      else if s.writerPresence then s.(waiting := s.waiting[t := WriteWait])
      else EnterOrAwaitReaders(s.(writerPresence := true), t)
    case ReadUnlock(t) =>
      var left := s.(readersNumber := s.readersNumber - 1, readers := s.readers[t := s.readers[t] - 1]);
      if left.readersNumber == 0 then left.(waiting := Broadcast(left.waiting)) else left
    case WriteUnlock(t) =>
      s.(writerPresence := false, writer := None, waiting := Broadcast(s.waiting))
    case SpuriousWakeup(t) =>
      s.(waiting := s.waiting[t := WakeOne(s.waiting[t])])
  }

  // ----- the invariant -----

  /** t has set writerPresence and waits for the readers to leave. */
  predicate Claiming(s: State, t: Tid) {
    t in s.waiting && (s.waiting[t].ClaimWait? || s.waiting[t].ClaimWoken?)
  }

  predicate Claims(s: State, t: Tid) {
    Claiming(s, t) || s.writer == Some(t)
  }

  /** The flag is up exactly while one thread has claimed the lock, and a writer inside is alone. */
  ghost predicate ClaimInv(s: State) {
    && (s.writerPresence <==> exists t :: Claims(s, t))
    && (forall t, u :: Claims(s, t) && Claims(s, u) ==> t == u)
    && (s.writer.Some? ==> s.readersNumber == 0 && !Claiming(s, s.writer.value))
  }

  /** Nobody sleeps on a condition that already holds. */
  ghost predicate WaitInv(s: State) {
    && (forall t :: t in s.waiting && (s.waiting[t].ReadWait? || s.waiting[t].WriteWait?) ==> s.writerPresence)
    && (forall t :: t in s.waiting && s.waiting[t].ClaimWait? ==> s.readersNumber != 0)
  }

  ghost predicate Inv(s: State) {
    s.readersNumber == |s.readers| && ClaimInv(s) && WaitInv(s)
  }

  lemma InitInv()
    ensures Inv(INIT)
  {
  }

  lemma ReadersAfter(s: State, a: Step)
    requires s.readersNumber == |s.readers| && Enabled(s, a)
    ensures Next(s, a).readersNumber == |Next(s, a).readers|
    ensures forall t :: t != a.t ==> Next(s, a).readers[t] == s.readers[t]
  {
  }

  lemma ClaimsAfter(s: State, a: Step, t: Tid)
    requires ClaimInv(s) && Enabled(s, a)
    ensures Claims(Next(s, a), t) <==>
      (Claims(s, t) && a != WriteUnlock(t)) || (a == WriteLock(t) && !s.writerPresence)
  {
    assert s.writer.Some? ==> Claims(s, s.writer.value);
    assert Claiming(s, a.t) ==> Claims(s, a.t);
  }

  lemma StepClaims(s: State, a: Step)
    requires Inv(s) && Enabled(s, a)
    ensures ClaimInv(Next(s, a))
  {
    var s' := Next(s, a);
    forall t ensures Claims(s', t) <==> (Claims(s, t) && a != WriteUnlock(t)) || (a == WriteLock(t) && !s.writerPresence) {
      ClaimsAfter(s, a, t);
    }
    assert a.WriteUnlock? ==> Claims(s, a.t);
    assert s.writer.Some? ==> Claims(s, s.writer.value);
    assert a.ReadUnlock? ==> s.readersNumber > 0;
  }

  lemma StepWaits(s: State, a: Step)
    requires Inv(s) && Enabled(s, a)
    ensures WaitInv(Next(s, a))
  {
    var s' := Next(s, a);
    forall t | t in s'.waiting && Asleep(s'.waiting[t])
      ensures if s'.waiting[t].ClaimWait? then s'.readersNumber != 0 else s'.writerPresence
    {
      if t in s.waiting && s.waiting[t].ClaimWait? { assert Claims(s, t); }
    }
  }

  lemma StepInv(s: State, a: Step)
    requires Inv(s) && Enabled(s, a)
    ensures Inv(Next(s, a))
  {
    ReadersAfter(s, a);
    StepClaims(s, a);
    StepWaits(s, a);
  }

  // ----- what every run keeps -----

  /** The steps can be taken one after the other. */
  predicate SleepsIn(s: State, t: Tid) {
    t in s.waiting && Asleep(s.waiting[t])
  }

  /** A reader comes in exactly when the flag is down, once more each time, and goes out once with each unlock. */
  lemma ReadersStep(s: State, a: Step, t: Tid)
    requires Inv(s) && Enabled(s, a)
    ensures Next(s, a).readers[t] ==
      s.readers[t] + (if a == ReadLock(t) && !s.writerPresence then 1 else 0) - (if a == ReadUnlock(t) then 1 else 0)
  {
  }

  /**
   * A writer comes in exactly when nobody is reading and it has claimed the lock, or finds it unclaimed; and
   * stays until its unlock.
   */
  lemma WriterStep(s: State, a: Step, t: Tid)
    requires Inv(s) && Enabled(s, a)
    ensures Next(s, a).writer == Some(t) <==>
      || (s.writer == Some(t) && a != WriteUnlock(t))
      || (a == WriteLock(t) && |s.readers| == 0 && (Claiming(s, t) || !s.writerPresence))
  {
    assert s.writer.Some? ==> Claims(s, s.writer.value);
    assert a.WriteLock? && Claiming(s, a.t) ==> Claims(s, a.t);
  }

  /** The flag goes up with a writer's call that finds it down, and down with the writer's unlock, and at no other step. */
  lemma FlagStep(s: State, a: Step)
    requires Inv(s) && Enabled(s, a)
    ensures Next(s, a).writerPresence <==> (s.writerPresence && !a.WriteUnlock?) || (a.WriteLock? && !s.writerPresence)
  {
    assert a.WriteLock? && Claiming(s, a.t) ==> Claims(s, a.t);
  }

  /**
   * Who sleeps after a step: the caller that found the flag up or readers inside, and every other sleeper
   * until a writer, or the last reader, goes out. Nobody is woken besides, but for spurious wakeups.
   */
  lemma SleepsIff(s: State, a: Step, t: Tid)
    requires Inv(s) && Enabled(s, a)
    ensures SleepsIn(Next(s, a), t) <==>
      if a.t == t then
        || (a.ReadLock? && s.writerPresence)
        || (a.WriteLock? && !(|s.readers| == 0 && (Claiming(s, t) || !s.writerPresence)))
      else SleepsIn(s, t) && !a.WriteUnlock? && !(a.ReadUnlock? && |s.readers| == 1)
  {
    assert a.WriteLock? && Claiming(s, a.t) ==> Claims(s, a.t);
    assert s.writer.Some? ==> Claims(s, s.writer.value);
  }

  predicate Valid(s: State, run: seq<Step>)
    decreases |run|
  {
    run == [] || (Enabled(s, run[0]) && Valid(Next(s, run[0]), run[1..]))
  }

  function After(s: State, run: seq<Step>): State
    requires Valid(s, run)
    decreases |run|
  {
    if run == [] then s else After(Next(s, run[0]), run[1..])
  }

  lemma {:induction false} RunInv(s: State, run: seq<Step>)
    requires Inv(s) && Valid(s, run)
    ensures Inv(After(s, run))
    decreases |run|
  {
    if run != [] {
      StepInv(s, run[0]);
      RunInv(Next(s, run[0]), run[1..]);
    }
  }

  /** In every reachable state a writer inside has the lock to itself. */
  lemma WriterExcludes(run: seq<Step>, w: Tid, t: Tid)
    requires Valid(INIT, run) && After(INIT, run).writer == Some(w)
    ensures var s := After(INIT, run); t !in s.readers && (s.writer == Some(t) ==> t == w)
  {
    InitInv();
    RunInv(INIT, run);
    assert |After(INIT, run).readers| == 0;
  }

  /** The count is the readers inside and the flag says that exactly one thread has claimed the lock. */
  lemma FieldsCountThreads(run: seq<Step>)
    requires Valid(INIT, run)
    ensures var s := After(INIT, run);
      && s.readersNumber == |s.readers|
      && (s.writerPresence <==> exists c :: Claims(s, c) && forall t :: Claims(s, t) ==> t == c)
  {
    InitInv();
    RunInv(INIT, run);
  }

  function CountReadUnlocks(run: seq<Step>): nat {
    if run == [] then 0 else (if run[0].ReadUnlock? then 1 else 0) + CountReadUnlocks(run[1..])
  }

  /**
   * Writer preference: from a claim until the claiming writer unlocks, no thread becomes a
   * reader, and the writer is held up by exactly the readers that were inside, one unlock each.
   */
  lemma {:induction false} NoReaderAfterClaim(s: State, run: seq<Step>)
    requires Inv(s) && s.writerPresence && Valid(s, run)
    requires forall i :: 0 <= i < |run| ==> !run[i].WriteUnlock?
    ensures var e := After(s, run);
      && e.writerPresence && e.readers <= s.readers
      && e.readersNumber == s.readersNumber - CountReadUnlocks(run)
      && (forall t :: Claims(s, t) <==> Claims(e, t))
    decreases |run|
  {
    if run != [] {
      var s' := Next(s, run[0]);
      StepInv(s, run[0]);
      forall t ensures Claims(s', t) <==> Claims(s, t) { ClaimsAfter(s, run[0], t); }
      NoReaderAfterClaim(s', run[1..]);
    }
  }

  /**
   * No lost wakeup: until it unlocks, a thread that has claimed the lock is inside, or will be at
   * its next attempt, exactly when every reader that was inside has left.
   */
  lemma ClaimantEnters(s: State, c: Tid, run: seq<Step>)
    requires Inv(s) && Claims(s, c) && Valid(s, run)
    requires forall i :: 0 <= i < |run| ==> !run[i].WriteUnlock?
    ensures var e := After(s, run);
      e.writer == Some(c) || (Enabled(e, WriteLock(c)) && Next(e, WriteLock(c)).writer == Some(c)) <==>
        CountReadUnlocks(run) == s.readersNumber
  {
    RunInv(s, run);
    NoReaderAfterClaim(s, run);
    assert Claims(After(s, run), c);
  }

  /** Progress: while any call is unfinished, some call can go on or somebody is inside. */
  lemma SomeoneAwake(s: State, t: Tid)
    requires Inv(s) && t in s.waiting
    ensures exists u :: (u in s.waiting && !Asleep(s.waiting[u])) || u in s.readers || s.writer == Some(u)
  {
    if Asleep(s.waiting[t]) {
      if s.readersNumber != 0 {
        var u :| u in s.readers;
      } else {
        var c :| Claims(s, c);
      }
    }
  }

  // ----- a thread that calls the lock again -----

  /** A writer inside that calls the lock again, in either mode, never returns: nobody else can clear the flag. */
  lemma {:induction false} WriterWaitsForItself(s: State, t: Tid, run: seq<Step>)
    requires Inv(s) && s.writer == Some(t) && t in s.waiting && Valid(s, run)
    ensures After(s, run).writer == Some(t) && t in After(s, run).waiting
    decreases |run|
  {
    if run != [] {
      StepInv(s, run[0]);
      assert Claims(s, t) && (Claiming(s, run[0].t) ==> Claims(s, run[0].t));
      WriterWaitsForItself(Next(s, run[0]), t, run[1..]);
    }
  }

  /** A reader inside that asks to write never gets in, and having claimed the lock lets no reader in either. */
  lemma {:induction false} ReaderWaitsForItself(s: State, t: Tid, run: seq<Step>)
    requires Inv(s) && t in s.readers && Claiming(s, t) && Valid(s, run)
    ensures t in After(s, run).readers && Claiming(After(s, run), t) && After(s, run).readers <= s.readers
    decreases |run|
  {
    if run != [] {
      StepInv(s, run[0]);
      assert Claims(s, t);
      assert s.readersNumber > 0;
      ReaderWaitsForItself(Next(s, run[0]), t, run[1..]);
    }
  }
}

/** The lock object itself: its two fields, changed in place by one region at a time. */
module Locker {
  import opened Bytes
  import opened LockerSpec

  class Lock {
    var writerPresence: bool
    var readersNumber: int
    ghost var waiting: map<Tid, Wait>
    ghost var readers: multiset<Tid>
    ghost var writer: Option<Tid>

    ghost function Abs(): State
      reads this
    {
      State(writerPresence, readersNumber, waiting, readers, writer)
    }

    constructor ()
      ensures Abs() == INIT
    {
      writerPresence, readersNumber := false, 0;
      waiting, readers, writer := map[], multiset{}, None;
    }

    /** One pass of readLock: either the thread enters or it goes to sleep, to try again later. */
    method ReadLock(ghost t: Tid) returns (entered: bool)
      requires Inv(Abs()) && Enabled(Abs(), LockerSpec.Step.ReadLock(t))
      modifies this
      ensures Inv(Abs()) && Abs() == Next(old(Abs()), LockerSpec.Step.ReadLock(t))
      ensures entered <==> t !in waiting
    {
      StepInv(Abs(), LockerSpec.Step.ReadLock(t));
      if writerPresence {
        waiting := waiting[t := ReadWait];
        return false;
      }
      readersNumber := readersNumber + 1;
      waiting := waiting - {t};
      readers := readers[t := readers[t] + 1];
      return true;
    }

    method ReadUnlock(ghost t: Tid)
      requires Inv(Abs()) && Enabled(Abs(), LockerSpec.Step.ReadUnlock(t))
      modifies this
      ensures Inv(Abs()) && Abs() == Next(old(Abs()), LockerSpec.Step.ReadUnlock(t))
    {
      StepInv(Abs(), LockerSpec.Step.ReadUnlock(t));
      readersNumber := readersNumber - 1;
      readers := readers[t := readers[t] - 1];
      if readersNumber == 0 {
        waiting := Broadcast(waiting);
      }
    }

    /** One pass of writeLock; claimed tells which of the two loops the thread is in. */
    method WriteLock(ghost t: Tid, claimed: bool) returns (entered: bool)
      requires Inv(Abs()) && Enabled(Abs(), LockerSpec.Step.WriteLock(t))
      requires claimed <==> t in waiting && waiting[t].ClaimWoken?
      modifies this
      ensures Inv(Abs()) && Abs() == Next(old(Abs()), LockerSpec.Step.WriteLock(t))
      ensures entered <==> t !in waiting
    {
      StepInv(Abs(), LockerSpec.Step.WriteLock(t));
      if !claimed {
        if writerPresence {
          waiting := waiting[t := WriteWait];
          return false;
        }
        writerPresence := true;
      }
      if readersNumber != 0 {
        waiting := waiting[t := ClaimWait];
        return false;
      }
      waiting := waiting - {t};
      writer := Some(t);
      return true;
    }

    method WriteUnlock(ghost t: Tid)
      requires Inv(Abs()) && Enabled(Abs(), LockerSpec.Step.WriteUnlock(t))
      modifies this
      ensures Inv(Abs()) && Abs() == Next(old(Abs()), LockerSpec.Step.WriteUnlock(t))
    {
      StepInv(Abs(), LockerSpec.Step.WriteUnlock(t));
      writerPresence := false;
      writer := None;
      waiting := Broadcast(waiting);
    }
  }
}
