/**
 * What the leaking verdicts lead to in every run, whoever else runs and leaks: a worker that
 * waits for itself, or a lock nobody will ever release.
 */
module LockLeaks {
  import L = LockerSpec
  import opened Bytes
  import opened LockProtocol
  import opened LockProtocolProofs
  import opened LockDiscipline

  /** The thread is inside the file's lock and about to judge the file. */
  ghost predicate AtCheck(s: Sys, t: nat, id: nat) {
    t < |s.threads| && s.threads[t].rest == [Check(id)]
  }

  lemma CheckerInside(s: Sys, t: nat, id: nat)
    requires Sane(s) && AtCheck(s, t, id)
    ensures File(id) in s.locks && In(s.locks[File(id)], t, CheckMode(s.threads[t].op))
    ensures !Late(s.threads[t].op) ==> In(s.locks[Storage], t, LookupMode(s.threads[t].op))
  {
    var th := s.threads[t];
    assert SaneThread(th, s.locks);
    HolderInside(s, t, File(id), CheckMode(th.op));
    if !Late(th.op) { HolderInside(s, t, Storage, LookupMode(th.op)); }
  }

  /** A file is freed only by the thread that is inside its lock for writing. */
  lemma FreedByWriter(s: Sys, u: nat, id: nat)
    requires Sane(s) && Enabled(s, Run(u)) && s.threads[u].rest[0] == FreeFile(id)
    ensures In(s.locks[File(id)], u, W)
  {
    assert SaneThread(s.threads[u], s.locks);
    HolderInside(s, u, File(id), W);
  }

  /** The step evicts the file and frees its lock with it. */
  predicate Evicts(a: Step, lock: LockId) {
    a.Effect? && lock.File? && lock.id in a.gone
  }

  /** The run never evicts the file. */
  ghost predicate Spared(run: seq<Step>, id: nat) {
    forall i :: 0 <= i < |run| ==> !Evicts(run[i], File(id))
  }

  /** The lock operation a step performs on a given lock, if any. */
  function LockOperation(s: Sys, a: Step, lock: LockId): Option<L.Step>
    requires Enabled(s, a)
  {
    if a.SpuriousWakeup? && s.threads[a.t].rest[0].lock == lock then Some(L.SpuriousWakeup(a.t))
    else if a.Run? && !s.threads[a.t].rest[0].FreeFile? && s.threads[a.t].rest[0].lock == lock then
      Some(LockStep(s.threads[a.t].rest[0], a.t))
    else None
  }

  lemma LockAfter(s: Sys, a: Step, lock: LockId)
    requires Enabled(s, a) && lock in s.locks && !Evicts(a, lock)
    requires !(a.Run? && lock.File? && s.threads[a.t].rest[0] == FreeFile(lock.id))
    ensures lock in Next(s, a).locks
    ensures var o := LockOperation(s, a, lock);
      if o == None then Next(s, a).locks[lock] == s.locks[lock]
      else o.value.t == a.t && L.Enabled(s.locks[lock], o.value) && Next(s, a).locks[lock] == L.Next(s.locks[lock], o.value)
  {
    hide L.Next;
  }

  /** Other threads' steps leave t where it is inside a lock. */
  lemma OthersLeaveInside(s: Sys, a: Step, t: nat, lock: LockId, m: Mode)
    requires Sane(s) && Enabled(s, a) && t < |s.threads| && a.t != t && lock in s.locks && In(s.locks[lock], t, m)
    requires !Evicts(a, lock)
    ensures lock in Next(s, a).locks && In(Next(s, a).locks[lock], t, m)
    ensures Next(s, a).locks[lock].readers[t] == s.locks[lock].readers[t]
  {
    LockIsSane(s, lock);
    hide Sane, L.Inv, L.Next, L.Enabled;
    if a.Run? && lock.File? && s.threads[a.t].rest[0] == FreeFile(lock.id) {
      FreedByWriter(s, a.t, lock.id);
      WriterAlone(s, a.t, lock, t, m);
      assert false;
    } else {
      LockAfter(s, a, lock);
      var o := LockOperation(s, a, lock);
      if o.Some? { OthersKept(s.locks[lock], o.value, t); }
    }
  }

  // ----- write to a file the client has not opened, append to a file locked by another -----

  /** The worker is inside the file's lock for writing and has yet to take it a second time. */
  ghost predicate SelfLocked(s: Sys, t: nat, id: nat) {
    && t < |s.threads| && File(id) in s.locks && In(s.locks[File(id)], t, W)
    && (s.threads[t].rest == [Release(Storage, W), Acquire(File(id), W)] || s.threads[t].rest == [Acquire(File(id), W)])
  }

  /** A writer inside that calls writeLock again is put to sleep, or stays in the call. */
  lemma WriterCallsAgain(l: L.State, t: nat)
    requires L.Inv(l) && l.writer == Some(t) && L.Enabled(l, L.WriteLock(t))
    ensures L.Next(l, L.WriteLock(t)).writer == Some(t) && t in L.Next(l, L.WriteLock(t)).waiting
  {
    assert L.Claims(l, t);
  }

  lemma SelfLockedRefers(th: Thread, id: nat)
    requires th.rest == [Release(Storage, W), Acquire(File(id), W)] || th.rest == [Acquire(File(id), W)]
    ensures Refers(th, id)
  {
    assert NamesFile(th.rest[|th.rest| - 1], id);
  }

  lemma SelfLockedStep(s: Sys, t: nat, id: nat, a: Step)
    requires Sane(s) && SelfLocked(s, t, id) && Enabled(s, a)
    ensures SelfLocked(Next(s, a), t, id)
  {
    hide Sane, L.Inv, Scripted;
    LockIsSane(s, File(id));
    if a.t != t {
      SelfLockedRefers(s.threads[t], id);
      OthersLeaveInside(s, a, t, File(id), W);
    } else if s.threads[t].rest[0].Acquire? && a.Run? {
      WriterCallsAgain(s.locks[File(id)], t);
    }
  }

  /**
   * From the moment a write or an append takes its leaking branch, whatever anyone does, the
   * worker never finishes the operation, and nobody else ever gets into the file.
   */
  lemma {:induction false} SelfLockIsForEver(s: Sys, t: nat, id: nat, run: seq<Step>)
    requires Sane(s) && SelfLocked(s, t, id) && Valid(s, run)
    ensures SelfLocked(After(s, run), t, id)
    ensures forall u, m :: u != t ==> !In(After(s, run).locks[File(id)], u, m)
    decreases |run|
  {
    if run != [] {
      StepSane(s, run[0]);
      SelfLockedStep(s, t, id, run[0]);
      SelfLockIsForEver(Next(s, run[0]), t, id, run[1..]);
    } else {
      forall u, m | u != t ensures !In(s.locks[File(id)], u, m) {
        LockIsSane(s, File(id));
        if In(s.locks[File(id)], u, m) { WriterAlone(s, t, File(id), u, m); }
      }
    }
  }

  lemma WriteLeakSelfLocks(s: Sys, t: nat, id: nat)
    requires Sane(s) && AtCheck(s, t, id) && (s.threads[t].op.Write? || s.threads[t].op.Append?)
    requires Enabled(s, Judge(t, Leak))
    ensures SelfLocked(Next(s, Judge(t, Leak)), t, id)
  {
    CheckerInside(s, t, id);
  }

  // ----- remove of a file the client has not opened -----

  /** The worker is inside the storage lock for writing and no step of its program will undo that. */
  ghost predicate StorageLost(s: Sys, t: nat) {
    && t < |s.threads| && Storage in s.locks && In(s.locks[Storage], t, W)
    && var rest := s.threads[t].rest;
       rest == [] || (|rest| == 1 && rest[0].Release? && rest[0].lock.File?) || (rest[0].Acquire? && rest[0].lock == Storage)
  }

  lemma WriterReads(l: L.State, t: nat)
    requires L.Inv(l) && l.writer == Some(t) && L.Enabled(l, L.ReadLock(t))
    ensures L.Next(l, L.ReadLock(t)).writer == Some(t) && t in L.Next(l, L.ReadLock(t)).waiting
  {
    assert L.Claims(l, t);
  }

  lemma StorageLostStep(s: Sys, t: nat, a: Step)
    requires Sane(s) && StorageLost(s, t) && Enabled(s, a)
    ensures StorageLost(Next(s, a), t)
  {
    hide Sane, L.Inv, Scripted;
    LockIsSane(s, Storage);
    if a.t != t {
      OthersLeaveInside(s, a, t, Storage, W);
    } else if a.Run? && s.threads[t].rest[0].Acquire? {
      if s.threads[t].rest[0].mode == W { WriterCallsAgain(s.locks[Storage], t); } else { WriterReads(s.locks[Storage], t); }
    }
  }

  /** From then on, whatever anyone does, no other thread is ever inside the storage lock. */
  lemma {:induction false} StorageLostForEver(s: Sys, t: nat, run: seq<Step>)
    requires Sane(s) && StorageLost(s, t) && Valid(s, run)
    ensures StorageLost(After(s, run), t)
    ensures forall u, m :: u != t ==> !In(After(s, run).locks[Storage], u, m)
    decreases |run|
  {
    if run != [] {
      StepSane(s, run[0]);
      StorageLostStep(s, t, run[0]);
      StorageLostForEver(Next(s, run[0]), t, run[1..]);
    } else {
      forall u, m | u != t ensures !In(s.locks[Storage], u, m) {
        LockIsSane(s, Storage);
        if In(s.locks[Storage], u, m) { WriterAlone(s, t, Storage, u, m); }
      }
    }
  }

  lemma RemoveLeakLosesStorage(s: Sys, t: nat, id: nat)
    requires Sane(s) && AtCheck(s, t, id) && s.threads[t].op.Remove?
    requires Enabled(s, Judge(t, Leak))
    ensures StorageLost(Next(s, Judge(t, Leak)), t)
  {
    CheckerInside(s, t, id);
  }

  // ----- read of an empty file -----

  /** The thread's present stay in the file as a reader, if its program will still end it. */
  function Pending(th: Thread, id: nat): nat {
    if th.onFile == Some((id, R)) && (Release(File(id), R) in th.rest || Check(id) in th.rest) then 1 else 0
  }

  /** The worker is inside the file's lock as a reader once more than it will ever undo. */
  ghost predicate LeftIn(s: Sys, t: nat, id: nat) {
    t < |s.threads| && File(id) in s.locks && s.locks[File(id)].readers[t] > Pending(s.threads[t], id)
  }

  lemma ReadersStopWriters(l: L.State, t: nat)
    requires L.Inv(l) && t in l.readers
    ensures l.writer == None && l.readersNumber > 0
  {
  }

  /** A lock step of t itself on the file it is left in. */
  lemma OwnLockStep(th: Thread, t: nat, id: nat, l: L.State)
    requires L.Inv(l) && Scripted(th.op, th.rest, th.onStorage, th.onFile) && l.readers[t] > Pending(th, id)
    requires th.rest != [] && (th.rest[0].Acquire? || th.rest[0].Release?) && th.rest[0].lock == File(id)
    requires th.onFile == Some((id, W)) ==> l.writer == Some(t)
    requires L.Enabled(l, LockStep(th.rest[0], t))
    ensures var l' := L.Next(l, LockStep(th.rest[0], t)); var popped := th.(rest := th.rest[1..]);
      var th' := if th.rest[0].Release? then Drop(popped, File(id))
                 else if Waits(l', t) then th
                 else Grant(popped, File(id), th.rest[0].mode);
      l'.readers[t] > Pending(th', id)
  {
    ReadersStopWriters(l, t);
    if th.rest[0].Release? { assert th.rest[0] in th.rest; }
  }

  lemma PoppedPending(th: Thread, th': Thread, id: nat)
    requires th.rest != [] && th'.rest == th.rest[1..]
    requires th'.onFile == th.onFile || th'.onFile == None || th'.onFile.value.0 != id
    ensures Pending(th', id) <= Pending(th, id)
  {
  }

  lemma OwnAtFile(s: Sys, t: nat, id: nat)
    requires Sane(s) && LeftIn(s, t, id) && Enabled(s, Run(t))
    requires s.threads[t].rest[0].Acquire? || s.threads[t].rest[0].Release?
    requires s.threads[t].rest[0].lock == File(id)
    ensures LeftIn(Next(s, Run(t)), t, id)
  {
    var th, l := s.threads[t], s.locks[File(id)];
    LockIsSane(s, File(id));
    ThreadIsSane(s, t);
    assert Fits(th, t, File(id), l);
    assert th.onFile == Some((id, W)) ==> Holds(th, File(id), W) && In(l, t, W);
    hide Sane, L.Inv, L.Next;
    OwnLockStep(th, t, id, l);
  }

  /** A left reader cannot come to free its file: it would have to be inside as a writer. */
  lemma OwnNotFreed(s: Sys, t: nat, id: nat)
    requires Sane(s) && LeftIn(s, t, id) && s.threads[t].rest != []
    ensures s.threads[t].rest[0] != FreeFile(id)
  {
    LockIsSane(s, File(id));
    ThreadIsSane(s, t);
    assert Fits(s.threads[t], t, File(id), s.locks[File(id)]);
    assert s.threads[t].onFile == Some((id, W)) ==> Holds(s.threads[t], File(id), W) && In(s.locks[File(id)], t, W);
    ReadersStopWriters(s.locks[File(id)], t);
  }

  lemma OwnRun(s: Sys, t: nat, id: nat)
    requires Sane(s) && LeftIn(s, t, id) && Enabled(s, Run(t))
    ensures LeftIn(Next(s, Run(t)), t, id)
  {
    var th := s.threads[t];
    var i := th.rest[0];
    ThreadIsSane(s, t);
    OwnNotFreed(s, t, id);
    hide Sane, L.Inv, L.Next, L.Enabled;
    if !i.FreeFile? && i.lock == File(id) {
      OwnAtFile(s, t, id);
    } else if Next(s, Run(t)).threads[t].rest == th.rest[1..] {
      PoppedPending(th, Next(s, Run(t)).threads[t], id);
    }
  }

  lemma OwnDecision(s: Sys, t: nat, id: nat, a: Step)
    requires Sane(s) && LeftIn(s, t, id) && Enabled(s, a) && a.t == t && (a.Request? || a.Branch? || a.Judge? || a.Effect?)
    requires !Evicts(a, File(id))
    ensures LeftIn(Next(s, a), t, id)
  {
    ThreadIsSane(s, t);
    hide Sane;
    assert a.Judge? ==> s.threads[t].rest[0] in s.threads[t].rest;
  }

  lemma LeftInStep(s: Sys, t: nat, id: nat, a: Step)
    requires Sane(s) && LeftIn(s, t, id) && Enabled(s, a) && !Evicts(a, File(id))
    ensures LeftIn(Next(s, a), t, id)
  {
    hide Sane, L.Next;
    if a.t != t {
      OthersLeaveInside(s, a, t, File(id), R);
    } else {
      match a
      case Run(_) => OwnRun(s, t, id);
      case SpuriousWakeup(_) => LockAfter(s, a, File(id)); SpuriousReaders(s, a, File(id));
      case Request(_, _) => OwnDecision(s, t, id, a);
      case Branch(_, _) => OwnDecision(s, t, id, a);
      case Judge(_, _) => OwnDecision(s, t, id, a);
      case Effect(_, _) => OwnDecision(s, t, id, a);
    }
  }

  lemma SpuriousReaders(s: Sys, a: Step, lock: LockId)
    requires Enabled(s, a) && a.SpuriousWakeup? && lock in s.locks
    ensures lock in Next(s, a).locks && Next(s, a).locks[lock].readers == s.locks[lock].readers
  {
  }

  /**
   * From the moment a read of an empty file takes its leaking branch, whatever anyone does: as long as the
   * file is not evicted, which an empty file never is, it is never freed and no writer is ever inside its
   * lock, the reading worker included.
   */
  lemma {:induction false} LeftReaderShutsWritersOut(s: Sys, t: nat, id: nat, run: seq<Step>)
    requires Sane(s) && LeftIn(s, t, id) && Valid(s, run) && Spared(run, id)
    ensures LeftIn(After(s, run), t, id) && After(s, run).locks[File(id)].writer == None
    decreases |run|
  {
    if run != [] {
      StepSane(s, run[0]);
      LeftInStep(s, t, id, run[0]);
      LeftReaderShutsWritersOut(Next(s, run[0]), t, id, run[1..]);
    } else {
      LockIsSane(s, File(id));
      ReadersStopWriters(s.locks[File(id)], t);
    }
  }

  lemma ReadLeakKeepsReader(s: Sys, t: nat, id: nat)
    requires Sane(s) && AtCheck(s, t, id) && s.threads[t].op.Read?
    requires Enabled(s, Judge(t, Leak))
    ensures LeftIn(Next(s, Judge(t, Leak)), t, id)
  {
    CheckerInside(s, t, id);
  }

  /** The thread is inside the storage lock for writing and about to take the file's lock for writing. */
  ghost predicate WritesNext(s: Sys, u: nat, id: nat) {
    && u < |s.threads| && Storage in s.locks && In(s.locks[Storage], u, W)
    && s.threads[u].rest != [] && s.threads[u].rest[0] == Acquire(File(id), W)
  }

  lemma WriterKeptOut(l: L.State, t: nat, u: nat)
    requires L.Inv(l) && t in l.readers && L.Enabled(l, L.WriteLock(u))
    ensures u in L.Next(l, L.WriteLock(u)).waiting
  {
    ReadersStopWriters(l, t);
  }

  lemma WritesNextStep(s: Sys, t: nat, u: nat, id: nat, a: Step)
    requires Sane(s) && LeftIn(s, t, id) && WritesNext(s, u, id) && Enabled(s, a)
    ensures WritesNext(Next(s, a), u, id)
  {
    LockIsSane(s, File(id));
    hide Sane, L.Inv, Scripted;
    if a.t != u {
      OthersLeaveInside(s, a, u, Storage, W);
    } else if a.Run? {
      WriterKeptOut(s.locks[File(id)], t, u);
    }
  }

  /**
   * Whoever then comes to write to or remove that file, the same worker included, has the storage
   * lock and never gets on: no other thread is ever inside the storage lock again.
   */
  lemma {:induction false} LeftReaderLosesStorage(s: Sys, t: nat, u: nat, id: nat, run: seq<Step>)
    requires Sane(s) && LeftIn(s, t, id) && WritesNext(s, u, id) && Valid(s, run) && Spared(run, id)
    ensures WritesNext(After(s, run), u, id)
    ensures forall v, m :: v != u ==> !In(After(s, run).locks[Storage], v, m)
    decreases |run|
  {
    if run != [] {
      StepSane(s, run[0]);
      LeftInStep(s, t, id, run[0]);
      WritesNextStep(s, t, u, id, run[0]);
      LeftReaderLosesStorage(Next(s, run[0]), t, u, id, run[1..]);
    } else {
      forall v, m | v != u ensures !In(s.locks[Storage], v, m) {
        LockIsSane(s, Storage);
        if In(s.locks[Storage], v, m) { WriterAlone(s, u, Storage, v, m); }
      }
    }
  }

  // ----- all leaking verdicts -----

  /** The thread is inside some lock. */
  ghost predicate InsideSome(s: Sys, t: nat) {
    exists lock, m :: lock in s.locks && In(s.locks[lock], t, m)
  }

  /** After a leaking verdict the worker is inside some lock for ever, whatever it and the others do. */
  lemma LeakIsForEver(s: Sys, t: nat, id: nat, run: seq<Step>)
    requires Sane(s) && AtCheck(s, t, id) && Enabled(s, Judge(t, Leak))
    requires Valid(Next(s, Judge(t, Leak)), run) && (s.threads[t].op.Read? ==> Spared(run, id))
    ensures InsideSome(After(Next(s, Judge(t, Leak)), run), t)
  {
    var s' := Next(s, Judge(t, Leak));
    StepSane(s, Judge(t, Leak));
    if s.threads[t].op.Read? {
      ReadLeakKeepsReader(s, t, id);
      LeftReaderShutsWritersOut(s', t, id, run);
      assert In(After(s', run).locks[File(id)], t, R);
    } else if s.threads[t].op.Remove? {
      RemoveLeakLosesStorage(s, t, id);
      StorageLostForEver(s', t, run);
      assert In(After(s', run).locks[Storage], t, W);
    } else {
      WriteLeakSelfLocks(s, t, id);
      SelfLockIsForEver(s', t, id, run);
      assert In(After(s', run).locks[File(id)], t, W);
    }
  }

  /** Without leaking verdicts a thread between operations is inside no lock. */
  lemma CleanWhenDone(s: Sys, t: nat)
    requires Inv(s) && t < |s.threads| && s.threads[t].rest == []
    ensures !InsideSome(s, t)
  {
    forall lock, m | lock in s.locks ensures !In(s.locks[lock], t, m) {
      assert ExactLock(s, lock) && Exact(s.threads[t], t, lock, s.locks[lock]) && Tidy(s.threads[t], s.locks);
    }
  }
}
