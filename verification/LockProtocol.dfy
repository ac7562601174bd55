/**
 * The two-level locking of src/storage.c: every storage operation as the sequence of lock
 * steps it takes on the storage lock and on file locks, run by any number of threads on
 * locks that behave as src/locker.c.
 */
module LockProtocol {
  import L = LockerSpec
  import opened Bytes

  datatype LockId = Storage | File(id: nat)

  datatype Mode = R | W

  datatype Instr =
    | Acquire(lock: LockId, mode: Mode)
    | Release(lock: LockId, mode: Mode)
    | Lookup              // search the table, then continue with the branch that applies
    | Check(id: nat)      // test the file's openers, owner and size, then continue with the verdict
    | Act(id: nat)        // do to the file, or the store, what was granted
    | FreeFile(id: nat)   // icl_hash_delete frees the file and its lock

  datatype Op = OpenCreate | OpenExisting | Read | ReadN | Write | Append | LockFile | UnlockFile | Close | Remove

  /** What an operation finds in the table. */
  datatype Branch = Missing | Created(id: nat) | Found(id: nat) | Listed(ids: seq<nat>)

  /**
   * What an operation makes of the file it found. Leak stands for the branches that keep a lock;
   * Onward and Enough say whether readN goes on to the next file.
   */
  datatype Verdict = Denied | Granted | Leak | Onward | Enough

  datatype Thread = Thread(op: Op, rest: seq<Instr>, onStorage: Option<Mode>, onFile: Option<(nat, Mode)>)

  datatype Sys = Sys(locks: map<LockId, L.State>, table: set<nat>, threads: seq<Thread>)

  datatype Step =
    | Request(t: nat, op: Op)            // an idle thread starts an operation
    | Run(t: nat)                        // a thread takes its next lock step
    | Branch(t: nat, branch: Branch)     // a thread at its lookup goes on
    | Judge(t: nat, verdict: Verdict)    // a thread at a check goes on
    | Effect(t: nat, gone: set<nat>)     // a thread acts; the victims' files and locks are freed
    | SpuriousWakeup(t: nat)

  // ----- the operations -----

  /** The mode in which an operation holds the storage lock at its lookup. */
  function LookupMode(op: Op): Mode {
    match op
    case OpenCreate => W
    case Write => W
    case Append => W
    case Remove => W
    case _ => R
  }

  /** The mode in which an operation holds the file's lock at its check. */
  function CheckMode(op: Op): Mode {
    if op.Read? || op.Close? || op.ReadN? then R else W
  }

  /** The mode in which it holds the file's lock when it acts. */
  function ActMode(op: Op): Mode {
    if op.Read? then R else W
  }

  /** The operations that let go of the storage lock once they have the file's, before they look at the file. */
  predicate Late(op: Op) {
    op.Read? || op.LockFile? || op.UnlockFile? || op.OpenExisting?
  }

  /** How an operation holds the storage lock when it checks and when it acts. */
  function HeldThen(op: Op): Option<Mode> {
    if Late(op) then None else Some(LookupMode(op))
  }

  function Start(op: Op): seq<Instr> {
    match op
    case OpenExisting => [Acquire(Storage, W), Release(Storage, W), Acquire(Storage, R), Lookup]
    case _ => [Acquire(Storage, LookupMode(op)), Lookup]
  }

  function Visit(ids: seq<nat>): seq<Instr> {
    if ids == [] then [Release(Storage, R)]
    else [Acquire(File(ids[0]), R), Check(ids[0]), Release(File(ids[0]), R)] + Visit(ids[1..])
  }

  predicate Possible(op: Op, b: Branch) {
    match b
    case Missing => true
    case Created(_) => op.OpenCreate?
    case Found(_) => !op.OpenCreate? && !op.ReadN?
    case Listed(_) => op.ReadN?
  }

  /** The steps left after the lookup. */
  function Continue(op: Op, b: Branch): seq<Instr> {
    match b
    case Missing => [Release(Storage, LookupMode(op))]
    case Created(_) => [Release(Storage, LookupMode(op))]
    case Found(id) =>
      if Late(op) then [Acquire(File(id), CheckMode(op)), Release(Storage, LookupMode(op)), Check(id)]
      else [Acquire(File(id), CheckMode(op)), Check(id)]
    case Listed(ids) => Visit(ids)
  }

  predicate CanLeak(op: Op) {
    op.Read? || op.Write? || op.Append? || op.Remove?
  }

  predicate PossibleVerdict(op: Op, v: Verdict) {
    match v
    case Leak => CanLeak(op)
    case Onward => op.ReadN?
    case Enough => op.ReadN?
    case _ => !op.ReadN?
  }

  function StorageFirst(op: Op, id: nat): seq<Instr> {
    [Release(Storage, LookupMode(op)), Release(File(id), CheckMode(op))]
  }

  function FileFirst(op: Op, id: nat): seq<Instr> {
    [Release(File(id), CheckMode(op)), Release(Storage, LookupMode(op))]
  }

  /** The steps left after the check of one file. */
  function Conclude(op: Op, id: nat, v: Verdict): seq<Instr> {
    match v
    case Denied =>
      if Late(op) then [Release(File(id), CheckMode(op))]
      else if op.Close? then FileFirst(op, id)
      else StorageFirst(op, id)
    case Granted =>
      (match op
       case Write => [Act(id)] + FileFirst(op, id)
       case Append => [Act(id)] + FileFirst(op, id)
       case Close => [Release(File(id), R), Acquire(File(id), W), Act(id), Release(File(id), W), Release(Storage, R)]
       case Remove => [Act(id), FreeFile(id), Release(Storage, W)]
       case _ => [Act(id), Release(File(id), CheckMode(op))])
    case Leak =>
      (match op
       case Read => []
       case Remove => [Release(File(id), W)]
       case _ => [Release(Storage, W), Acquire(File(id), W)])
    case Onward => []
    case Enough => FileFirst(op, id)
  }

  /** How a thread at a check goes on. */
  function Concluded(op: Op, rest: seq<Instr>, v: Verdict): seq<Instr>
    requires rest != [] && rest[0].Check?
  {
    if v.Onward? then rest[1..] else Conclude(op, rest[0].id, v)
  }

  /** The files a branch refers to. */
  predicate InTable(b: Branch, table: set<nat>) {
    match b
    case Listed(ids) => forall i :: 0 <= i < |ids| ==> ids[i] in table
    case Found(id) => id in table
    case _ => true
  }

  // ----- the steps -----

  function LockStep(i: Instr, t: nat): L.Step
    requires i.Acquire? || i.Release?
  {
    match i
    case Acquire(_, R) => L.ReadLock(t)
    case Acquire(_, W) => L.WriteLock(t)
    case Release(_, R) => L.ReadUnlock(t)
    case Release(_, W) => L.WriteUnlock(t)
  }

  function Grant(th: Thread, lock: LockId, mode: Mode): Thread {
    match lock
    case Storage => th.(onStorage := Some(mode))
    case File(id) => th.(onFile := Some((id, mode)))
  }

  function Drop(th: Thread, lock: LockId): Thread {
    match lock
    case Storage => th.(onStorage := None)
    case File(_) => th.(onFile := None)
  }

  /** The thread's call on the lock has not returned. */
  predicate Waits(l: L.State, t: nat) {
    t in l.waiting
  }

  predicate AsleepAt(l: L.State, t: nat) {
    t in l.waiting && L.Asleep(l.waiting[t])
  }

  predicate Blocked(s: Sys, t: nat)
    requires t < |s.threads|
  {
    var r := s.threads[t].rest;
    r != [] && r[0].Acquire? && r[0].lock in s.locks && AsleepAt(s.locks[r[0].lock], t)
  }

  predicate NamesFile(i: Instr, id: nat) {
    i == FreeFile(id) || i == Check(id) || i == Act(id) || ((i.Acquire? || i.Release?) && i.lock == File(id))
  }

  /** The thread's program names the file, or the thread holds its lock. */
  predicate Refers(th: Thread, id: nat) {
    (exists i :: 0 <= i < |th.rest| && NamesFile(th.rest[i], id)) || (th.onFile.Some? && th.onFile.value.0 == id)
  }

  /** Freeing the file would pull it from under another thread. */
  predicate UsedByOther(s: Sys, t: nat, id: nat) {
    exists u :: 0 <= u < |s.threads| && u != t && Refers(s.threads[u], id)
  }

  function LocksOf(ids: set<nat>): set<LockId> {
    set id | id in ids :: File(id)
  }

  predicate Enabled(s: Sys, a: Step) {
    && a.t < |s.threads|
    && var th := s.threads[a.t];
    match a
    case Request(t, op) => th.rest == []
    case Run(t) =>
      && th.rest != []
      && (match th.rest[0]
          case Lookup => false
          case Check(_) => false
          case Act(_) => false
          case FreeFile(id) => File(id) in s.locks
          case i => i.lock in s.locks && L.Enabled(s.locks[i.lock], LockStep(i, t)))
    case Branch(t, b) =>
      && th.rest == [Lookup] && Possible(th.op, b) && InTable(b, s.table)
      && (b.Created? ==> File(b.id) !in s.locks)
    case Judge(t, v) => th.rest != [] && th.rest[0].Check? && PossibleVerdict(th.op, v)
    case Effect(t, gone) =>
      && th.rest != [] && th.rest[0].Act? && th.rest[0].id !in gone && gone <= s.table
      && (gone != {} ==> th.op.Write? || th.op.Append?)
      && forall id :: id in gone ==> !UsedByOther(s, t, id)
    case SpuriousWakeup(t) => Blocked(s, t)
  }

  function Next(s: Sys, a: Step): Sys
    requires Enabled(s, a)
  {
    var th := s.threads[a.t];
    match a
    case Request(t, op) => s.(threads := s.threads[t := Thread(op, Start(op), None, None)])
    case Run(t) =>
      var popped := th.(rest := th.rest[1..]);
      (match th.rest[0]
       case FreeFile(id) =>
         s.(locks := s.locks - {File(id)}, table := s.table - {id}, threads := s.threads[t := popped.(onFile := None)])
       case Acquire(lock, mode) =>
         var l := L.Next(s.locks[lock], LockStep(th.rest[0], t));
         s.(locks := s.locks[lock := l], threads := if Waits(l, t) then s.threads else s.threads[t := Grant(popped, lock, mode)])
       case Release(lock, mode) =>
         var l := L.Next(s.locks[lock], LockStep(th.rest[0], t));
         s.(locks := s.locks[lock := l], threads := s.threads[t := Drop(popped, lock)]))
    case Branch(t, b) =>
      var go := s.(threads := s.threads[t := th.(rest := Continue(th.op, b))]);
      if b.Created? then go.(locks := go.locks[File(b.id) := L.INIT], table := go.table + {b.id}) else go
    case Judge(t, v) => s.(threads := s.threads[t := th.(rest := Concluded(th.op, th.rest, v))])
    case Effect(t, gone) =>
      s.(locks := s.locks - LocksOf(gone), table := s.table - gone, threads := s.threads[t := th.(rest := th.rest[1..])])
    case SpuriousWakeup(t) =>
      var lock := th.rest[0].lock;
      s.(locks := s.locks[lock := L.Next(s.locks[lock], L.SpuriousWakeup(t))])
  }

  function Init(n: nat): Sys {
    Sys(map[Storage := L.INIT], {}, seq(n, _ => Thread(Read, [], None, None)))
  }

  predicate Valid(s: Sys, run: seq<Step>)
    decreases |run|
  {
    run == [] || (Enabled(s, run[0]) && Valid(Next(s, run[0]), run[1..]))
  }

  function After(s: Sys, run: seq<Step>): Sys
    requires Valid(s, run)
    decreases |run|
  {
    if run == [] then s else After(Next(s, run[0]), run[1..])
  }

  // ----- what every script keeps, the leaking ones included -----

  /** The thread holds what its next steps take it to hold, and releases only what it took. */
  ghost predicate Scripted(op: Op, rest: seq<Instr>, onStorage: Option<Mode>, onFile: Option<(nat, Mode)>)
    decreases |rest|
  {
    rest == [] ||
    match rest[0]
    case Lookup => rest == [Lookup] && onStorage == Some(LookupMode(op)) && onFile == None
    case Check(id) =>
      && !op.OpenCreate? && onStorage == HeldThen(op) && onFile == Some((id, CheckMode(op)))
      && (if op.ReadN? then Scripted(op, rest[1..], onStorage, onFile) else rest == [Check(id)])
    case Act(id) =>
      && onStorage == HeldThen(op) && onFile == Some((id, ActMode(op))) && Scripted(op, rest[1..], onStorage, onFile)
      && (op.Write? || op.Append? ==> rest[1..] == FileFirst(op, id))
    case FreeFile(id) => rest == [FreeFile(id), Release(Storage, W)] && onStorage == Some(W) && onFile == Some((id, W))
    case Acquire(Storage, m) => onStorage == None && onFile == None && Scripted(op, rest[1..], Some(m), None)
    case Acquire(File(id), m) => Scripted(op, rest[1..], onStorage, Some((id, m)))
    case Release(Storage, m) => onStorage == Some(m) && Scripted(op, rest[1..], None, onFile)
    case Release(File(id), m) => onFile == Some((id, m)) && Scripted(op, rest[1..], onStorage, None)
  }

  // ----- the discipline of every script but the leaking ones -----

  ghost predicate NamesNoFile(rest: seq<Instr>) {
    forall i, id :: 0 <= i < |rest| ==> !NamesFile(rest[i], id)
  }

  /**
   * A thread takes the storage lock holding nothing and before it knows any file, takes a
   * file lock only while it holds the storage lock and no file lock, and ends holding nothing.
   */
  ghost predicate Disciplined(op: Op, rest: seq<Instr>, onStorage: Option<Mode>, onFile: Option<(nat, Mode)>)
    decreases |rest|
  {
    if rest == [] then onStorage == None && onFile == None
    else match rest[0]
      case Lookup => rest == [Lookup] && onStorage == Some(LookupMode(op)) && onFile == None
      case Check(id) =>
        && !op.OpenCreate? && onStorage == HeldThen(op) && onFile == Some((id, CheckMode(op)))
        && (if op.ReadN? then Disciplined(op, rest[1..], onStorage, onFile) else rest == [Check(id)])
      case Act(id) =>
        && onStorage == HeldThen(op) && onFile == Some((id, ActMode(op)))
        && Disciplined(op, rest[1..], onStorage, onFile)
        && (op.Write? || op.Append? ==> rest[1..] == FileFirst(op, id))
      case FreeFile(id) => rest == [FreeFile(id), Release(Storage, W)] && onStorage == Some(W) && onFile == Some((id, W))
      case Acquire(Storage, m) =>
        onStorage == None && onFile == None && NamesNoFile(rest) && Disciplined(op, rest[1..], Some(m), None)
      case Acquire(File(id), m) =>
        onStorage != None && onFile == None && Disciplined(op, rest[1..], onStorage, Some((id, m)))
      case Release(Storage, m) => onStorage == Some(m) && Disciplined(op, rest[1..], None, onFile)
      case Release(File(id), m) => onFile == Some((id, m)) && Disciplined(op, rest[1..], onStorage, None)
  }

  lemma {:induction false} DisciplinedScripted(op: Op, rest: seq<Instr>, onStorage: Option<Mode>, onFile: Option<(nat, Mode)>)
    requires Disciplined(op, rest, onStorage, onFile)
    ensures Scripted(op, rest, onStorage, onFile)
    decreases |rest|
  {
    if rest != [] {
      match rest[0]
      case Lookup =>
      case Check(_) => if op.ReadN? { DisciplinedScripted(op, rest[1..], onStorage, onFile); }
      case Act(_) => DisciplinedScripted(op, rest[1..], onStorage, onFile);
      case FreeFile(_) =>
      case Acquire(Storage, m) => DisciplinedScripted(op, rest[1..], Some(m), None);
      case Acquire(File(id), m) => DisciplinedScripted(op, rest[1..], onStorage, Some((id, m)));
      case Release(Storage, m) => DisciplinedScripted(op, rest[1..], None, onFile);
      case Release(File(id), m) => DisciplinedScripted(op, rest[1..], onStorage, None);
    }
  }

  /** Peels a script: the discipline of a literal sequence, one instruction at a time. */
  lemma Peel(i: Instr, tail: seq<Instr>, rest: seq<Instr>)
    requires rest == [i] + tail
    ensures rest != [] && rest[0] == i && rest[1..] == tail
  {
  }

  lemma StartDisciplined(op: Op)
    ensures Disciplined(op, Start(op), None, None)
  {
    var m := LookupMode(op);
    assert Disciplined(op, [Lookup], Some(m), None);
    Peel(Acquire(Storage, m), [Lookup], [Acquire(Storage, m), Lookup]);
    assert Disciplined(op, [Acquire(Storage, m), Lookup], None, None);
    if op.OpenExisting? {
      var tail := [Acquire(Storage, R), Lookup];
      Peel(Release(Storage, W), tail, [Release(Storage, W), Acquire(Storage, R), Lookup]);
      assert Disciplined(op, [Release(Storage, W), Acquire(Storage, R), Lookup], Some(W), None);
      Peel(Acquire(Storage, W), [Release(Storage, W), Acquire(Storage, R), Lookup], Start(op));
    }
  }

  lemma OneVisit(id: nat, tail: seq<Instr>)
    requires Disciplined(ReadN, tail, Some(R), None)
    ensures Disciplined(ReadN, [Acquire(File(id), R), Check(id), Release(File(id), R)] + tail, Some(R), None)
  {
    var last := [Release(File(id), R)] + tail;
    var check := [Check(id)] + last;
    Peel(Release(File(id), R), tail, last);
    assert Disciplined(ReadN, last, Some(R), Some((id, R)));
    Peel(Check(id), last, check);
    assert Disciplined(ReadN, check, Some(R), Some((id, R)));
    Peel(Acquire(File(id), R), check, [Acquire(File(id), R), Check(id), Release(File(id), R)] + tail);
  }

  lemma {:induction false} VisitDisciplined(ids: seq<nat>)
    ensures Disciplined(ReadN, Visit(ids), Some(R), None)
  {
    if ids == [] {
      assert Disciplined(ReadN, [], None, None);
    } else {
      VisitDisciplined(ids[1..]);
      OneVisit(ids[0], Visit(ids[1..]));
    }
  }

  /** However an operation goes on after its lookup, it keeps the discipline up to its check. */
  lemma ContinueDisciplined(op: Op, b: Branch)
    requires Possible(op, b)
    ensures Disciplined(op, Continue(op, b), Some(LookupMode(op)), None)
  {
    assert Disciplined(op, [], None, None);
    match b
    case Listed(ids) => VisitDisciplined(ids);
    case Found(id) =>
      var m, rest := LookupMode(op), Continue(op, b);
      assert Disciplined(op, [Check(id)], HeldThen(op), Some((id, CheckMode(op))));
      if Late(op) {
        Peel(Release(Storage, m), [Check(id)], [Release(Storage, m), Check(id)]);
        assert Disciplined(op, [Release(Storage, m), Check(id)], Some(m), Some((id, CheckMode(op))));
        Peel(Acquire(File(id), CheckMode(op)), [Release(Storage, m), Check(id)], rest);
      } else {
        Peel(Acquire(File(id), CheckMode(op)), [Check(id)], rest);
      }
    case Missing => Peel(Release(Storage, LookupMode(op)), [], Continue(op, b));
    case Created(_) => Peel(Release(Storage, LookupMode(op)), [], Continue(op, b));
  }

  lemma BothReleased(op: Op, id: nat, s: Mode, f: Mode)
    ensures Disciplined(op, [Release(Storage, s), Release(File(id), f)], Some(s), Some((id, f)))
    ensures Disciplined(op, [Release(File(id), f), Release(Storage, s)], Some(s), Some((id, f)))
    ensures Disciplined(op, [Release(Storage, s)], Some(s), None)
    ensures Disciplined(op, [Release(File(id), f)], None, Some((id, f)))
  {
    assert Disciplined(op, [], None, None);
    Peel(Release(File(id), f), [], [Release(File(id), f)]);
    Peel(Release(Storage, s), [], [Release(Storage, s)]);
    assert Disciplined(op, [Release(File(id), f)], None, Some((id, f)));
    assert Disciplined(op, [Release(Storage, s)], Some(s), None);
    Peel(Release(Storage, s), [Release(File(id), f)], [Release(Storage, s), Release(File(id), f)]);
    Peel(Release(File(id), f), [Release(Storage, s)], [Release(File(id), f), Release(Storage, s)]);
  }

  /** Acting changes nothing about the locks. */
  lemma ActDisciplined(op: Op, id: nat, tail: seq<Instr>)
    requires Disciplined(op, tail, HeldThen(op), Some((id, ActMode(op))))
    requires op.Write? || op.Append? ==> tail == FileFirst(op, id)
    ensures Disciplined(op, [Act(id)] + tail, HeldThen(op), Some((id, ActMode(op))))
  {
    Peel(Act(id), tail, [Act(id)] + tail);
  }

  lemma CloseDisciplined(id: nat)
    ensures Disciplined(Close, Conclude(Close, id, Granted), Some(R), Some((id, R)))
  {
    BothReleased(Close, id, R, W);
    var two := [Release(File(id), W), Release(Storage, R)];
    ActDisciplined(Close, id, two);
    var three := [Act(id)] + two;
    var four := [Acquire(File(id), W)] + three;
    Peel(Acquire(File(id), W), three, four);
    assert Disciplined(Close, four, Some(R), None);
    Peel(Release(File(id), R), four, Conclude(Close, id, Granted));
  }

  lemma GrantedDisciplined(op: Op, id: nat)
    requires !op.ReadN? && !op.OpenCreate?
    ensures Disciplined(op, Conclude(op, id, Granted), HeldThen(op), Some((id, CheckMode(op))))
  {
    BothReleased(op, id, LookupMode(op), CheckMode(op));
    if op.Close? {
      CloseDisciplined(id);
    } else if op.Remove? {
      ActDisciplined(op, id, [FreeFile(id), Release(Storage, W)]);
    } else if Late(op) {
      ActDisciplined(op, id, [Release(File(id), CheckMode(op))]);
    } else {
      ActDisciplined(op, id, FileFirst(op, id));
    }
  }

  lemma LeakUndisciplined(op: Op, id: nat)
    requires CanLeak(op)
    ensures !Disciplined(op, Conclude(op, id, Leak), HeldThen(op), Some((id, CheckMode(op))))
  {
    var rest := Conclude(op, id, Leak);
    if op.Remove? {
      assert rest[1..] == [] && !Disciplined(op, [], Some(W), None);
    } else if !op.Read? {
      assert rest[1..] == [Acquire(File(id), W)];
      assert !Disciplined(op, rest[1..], None, Some((id, W)));
    }
  }

  /** A script that has come to a check. */
  ghost predicate Checking(op: Op, rest: seq<Instr>, id: nat) {
    rest != [] && rest[0] == Check(id) && Disciplined(op, rest, HeldThen(op), Some((id, CheckMode(op))))
  }

  /** Of all the ways any operation can go on after its check, exactly the leaking ones break the discipline. */
  lemma DisciplinedIffNotLeaking(op: Op, rest: seq<Instr>, id: nat, v: Verdict)
    requires Checking(op, rest, id) && PossibleVerdict(op, v)
    ensures Disciplined(op, Concluded(op, rest, v), HeldThen(op), Some((id, CheckMode(op)))) <==> !v.Leak?
  {
    BothReleased(op, id, LookupMode(op), CheckMode(op));
    match v
    case Denied =>
    case Onward =>
    case Enough =>
    case Leak => LeakUndisciplined(op, id);
    case Granted => GrantedDisciplined(op, id);
  }

  lemma ConcludeScripted(op: Op, rest: seq<Instr>, id: nat, v: Verdict)
    requires rest != [] && rest[0] == Check(id) && PossibleVerdict(op, v)
    requires Scripted(op, rest, HeldThen(op), Some((id, CheckMode(op))))
    ensures Scripted(op, Concluded(op, rest, v), HeldThen(op), Some((id, CheckMode(op))))
  {
    if v.Leak? {
      var left := Conclude(op, id, v);
      if op.Write? || op.Append? {
        assert left[1..] == [Acquire(File(id), W)];
        assert Scripted(op, [Acquire(File(id), W)], None, Some((id, W)));
      }
    } else if !v.Onward? {
      BothReleased(op, id, LookupMode(op), CheckMode(op));
      if v.Granted? { GrantedDisciplined(op, id); }
      DisciplinedScripted(op, Conclude(op, id, v), HeldThen(op), Some((id, CheckMode(op))));
    }
  }

  /** Without the storage lock a disciplined thread refers to no file but the one it holds. */
  lemma {:induction false} FilesUnderStorageLock(op: Op, rest: seq<Instr>, onFile: Option<(nat, Mode)>, i: nat, id: nat)
    requires Disciplined(op, rest, None, onFile) && i < |rest| && NamesFile(rest[i], id)
    ensures onFile.Some? && onFile.value.0 == id
    decreases |rest|
  {
    if i > 0 {
      assert rest[1..][i - 1] == rest[i];
      if rest[0].Act? { FilesUnderStorageLock(op, rest[1..], onFile, i - 1, id); }
    }
  }
}
