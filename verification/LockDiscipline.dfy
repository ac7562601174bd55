/** What every run without a leaking verdict keeps besides: no lock is held twice, and none is left behind. */
module LockDiscipline {
  import L = LockerSpec
  import opened Bytes
  import opened LockProtocol
  import opened LockProtocolProofs

  ghost predicate Tidy(th: Thread, locks: map<LockId, L.State>) {
    && Disciplined(th.op, th.rest, th.onStorage, th.onFile)
    && (forall id :: Refers(th, id) ==> File(id) in locks)
  }

  /** A thread is inside a lock once when it holds it, and not at all otherwise. */
  ghost predicate Exact(th: Thread, t: nat, lock: LockId, l: L.State) {
    && l.readers[t] == (if Holds(th, lock, R) then 1 else 0)
    && (l.writer == Some(t) ==> Holds(th, lock, W))
  }

  ghost predicate ExactLock(s: Sys, lock: LockId)
    requires lock in s.locks
  {
    forall t: nat :: t < |s.threads| ==> Exact(s.threads[t], t, lock, s.locks[lock])
  }

  ghost predicate Inv(s: Sys) {
    && Sane(s)
    && (forall t: nat :: t < |s.threads| ==> Tidy(s.threads[t], s.locks))
    && (forall lock :: lock in s.locks ==> ExactLock(s, lock))
  }

  predicate Leaks(a: Step) {
    a.Judge? && a.verdict.Leak?
  }

  lemma InitInv(n: nat)
    ensures Inv(Init(n))
  {
    InitSane(n);
    var s := Init(n);
    forall t: nat | t < n ensures Tidy(s.threads[t], s.locks) {
      assert s.threads[t] == Thread(Read, [], None, None);
    }
  }

  // ----- lock steps -----

  /** A lock step by thread t whose record becomes th', given the record is tidy and exact. */
  lemma LockStepKeeps(s: Sys, t: nat, lock: LockId, a: L.Step, th': Thread, s': Sys)
    requires Inv(s) && t < |s.threads| && a.t == t && lock in s.locks && L.Enabled(s.locks[lock], a)
    requires s' == s.(locks := s.locks[lock := L.Next(s.locks[lock], a)], threads := s.threads[t := th'])
    requires Sane(s') && Tidy(th', s.locks) && Exact(th', t, lock, s'.locks[lock])
    requires forall other :: other in s.locks && other != lock ==> Exact(th', t, other, s.locks[other])
    ensures Inv(s')
  {
    hide L.Inv, L.Next, L.Enabled, Tidy, ExactLock, Exact, SaneThread, SaneLock;
    assert s'.locks.Keys == s.locks.Keys;
    forall u: nat | u < |s'.threads| ensures Tidy(s'.threads[u], s'.locks) {
      SameKeys(s'.threads[u], s.locks, s'.locks);
      assert u != t ==> Tidy(s.threads[u], s.locks);
    }
    forall k | k in s'.locks ensures ExactLock(s', k) {
      assert ExactLock(s, k) && SaneLock(s, k);
      if k == lock { LockStepExact(s, t, lock, a, th', s'); } else { OtherLockExact(s, t, k, th', s'); }
    }
  }

  lemma SameKeys(th: Thread, locks: map<LockId, L.State>, locks': map<LockId, L.State>)
    requires locks'.Keys == locks.Keys
    ensures Tidy(th, locks') <==> Tidy(th, locks)
  {
    hide Disciplined;
  }

  lemma LockStepExact(s: Sys, t: nat, k: LockId, a: L.Step, th': Thread, s': Sys)
    requires t < |s.threads| && a.t == t && k in s.locks && SaneLock(s, k) && ExactLock(s, k) && L.Enabled(s.locks[k], a)
    requires k in s'.locks && s'.locks[k] == L.Next(s.locks[k], a) && s'.threads == s.threads[t := th']
    requires Exact(th', t, k, s'.locks[k])
    ensures ExactLock(s', k)
  {
    hide L.Inv, L.Next, L.Enabled, Exact, Fits;
    forall u: nat | u < |s'.threads| ensures Exact(s'.threads[u], u, k, s'.locks[k]) {
      if u != t { OthersExact(s.locks[k], a, s.threads[u], u, k); }
    }
  }

  lemma OtherLockExact(s: Sys, t: nat, k: LockId, th': Thread, s': Sys)
    requires t < |s.threads| && k in s.locks && ExactLock(s, k)
    requires k in s'.locks && s'.locks[k] == s.locks[k] && s'.threads == s.threads[t := th'] && Exact(th', t, k, s.locks[k])
    ensures ExactLock(s', k)
  {
  }

  lemma OthersExact(l: L.State, a: L.Step, th: Thread, u: nat, lock: LockId)
    requires L.Inv(l) && L.Enabled(l, a) && u != a.t && Exact(th, u, lock, l)
    ensures Exact(th, u, lock, L.Next(l, a))
  {
    OthersKept(l, a, u);
  }

  lemma PoppedRefers(th: Thread, th': Thread, id: nat)
    requires th.rest != [] && th'.rest == th.rest[1..] && Refers(th', id)
    requires th'.onFile == th.onFile || th'.onFile == None || NamesFile(th.rest[0], th'.onFile.value.0)
    ensures Refers(th, id)
  {
    if i :| 0 <= i < |th'.rest| && NamesFile(th'.rest[i], id) {
      assert th.rest[i + 1] == th'.rest[i];
    }
  }

  lemma AcquireExact(th: Thread, t: nat, lock: LockId, mode: Mode, l: L.State)
    requires L.Inv(l) && About(th, lock, mode) && L.Enabled(l, LockStep(th.rest[0], t))
    requires Exact(th, t, lock, l) && !Holds(th, lock, R) && !Holds(th, lock, W)
    ensures var l' := L.Next(l, LockStep(th.rest[0], t));
      Exact(if Waits(l', t) then th else Grant(th.(rest := th.rest[1..]), lock, mode), t, lock, l')
  {
  }

  /** What taking or releasing one lock leaves of the others. */
  lemma OthersStayExact(s: Sys, t: nat, lock: LockId, th': Thread)
    requires Inv(s) && t < |s.threads|
    requires forall other, m :: other != lock ==> (Holds(th', other, m) <==> Holds(s.threads[t], other, m))
    ensures forall other :: other in s.locks && other != lock ==> Exact(th', t, other, s.locks[other])
  {
    hide Sane, Tidy;
    forall other | other in s.locks && other != lock ensures Exact(th', t, other, s.locks[other]) {
      assert ExactLock(s, other) && Exact(s.threads[t], t, other, s.locks[other]);
    }
  }

  lemma PoppedTidy(th: Thread, th': Thread, locks: map<LockId, L.State>)
    requires Tidy(th, locks) && th.rest != [] && th'.op == th.op && th'.rest == th.rest[1..]
    requires Disciplined(th'.op, th'.rest, th'.onStorage, th'.onFile)
    requires th'.onFile == th.onFile || th'.onFile == None || NamesFile(th.rest[0], th'.onFile.value.0)
    ensures Tidy(th', locks)
  {
    hide Disciplined;
    forall id | Refers(th', id) ensures File(id) in locks { PoppedRefers(th, th', id); }
  }

  /** A disciplined thread takes a file lock only when it has none, and the storage lock only when it has nothing. */
  lemma AcquireHoldsNot(th: Thread, lock: LockId, mode: Mode)
    requires Disciplined(th.op, th.rest, th.onStorage, th.onFile) && About(th, lock, mode)
    ensures forall m :: !Holds(th, lock, m)
    ensures var th' := Grant(th.(rest := th.rest[1..]), lock, mode);
      && Disciplined(th'.op, th'.rest, th'.onStorage, th'.onFile)
      && (th'.onFile == th.onFile || NamesFile(th.rest[0], th'.onFile.value.0))
      && forall other, m :: other != lock ==> (Holds(th', other, m) <==> Holds(th, other, m))
  {
  }

  lemma AcquireKeeps(s: Sys, t: nat)
    requires Inv(s) && Enabled(s, Run(t)) && s.threads[t].rest[0].Acquire?
    ensures Inv(Next(s, Run(t)))
  {
    AcquireSane(s, t);
    var th := s.threads[t];
    var Acquire(lock, mode) := th.rest[0];
    var a := LockStep(th.rest[0], t);
    assert SaneLock(s, lock) && ExactLock(s, lock) && Tidy(th, s.locks);
    AcquireHoldsNot(th, lock, mode);
    AcquireExact(th, t, lock, mode, s.locks[lock]);
    var l := L.Next(s.locks[lock], a);
    var granted := Grant(th.(rest := th.rest[1..]), lock, mode);
    var th' := if Waits(l, t) then th else granted;
    hide L.Inv, L.Next, L.Enabled, Sane, SaneLock, Inv, Disciplined, Tidy, Exact, Grant;
    assert s.threads == s.threads[t := th];
    OthersStayExact(s, t, lock, th');
    PoppedTidy(th, granted, s.locks);
    LockStepKeeps(s, t, lock, a, th', Next(s, Run(t)));
  }

  lemma ReleaseExact(th: Thread, t: nat, lock: LockId, mode: Mode, l: L.State)
    requires L.Inv(l) && th.rest != [] && th.rest[0] == Release(lock, mode) && L.Enabled(l, LockStep(th.rest[0], t))
    requires Exact(th, t, lock, l) && Holds(th, lock, mode)
    ensures Exact(Drop(th.(rest := th.rest[1..]), lock), t, lock, L.Next(l, LockStep(th.rest[0], t)))
  {
    assert l.writer == Some(t) ==> mode == W;
  }

  lemma ReleaseHolds(th: Thread, lock: LockId, mode: Mode)
    requires Disciplined(th.op, th.rest, th.onStorage, th.onFile) && th.rest != [] && th.rest[0] == Release(lock, mode)
    ensures Holds(th, lock, mode)
    ensures var th' := Drop(th.(rest := th.rest[1..]), lock);
      && Disciplined(th'.op, th'.rest, th'.onStorage, th'.onFile)
      && (th'.onFile == th.onFile || th'.onFile == None)
      && forall other, m :: other != lock ==> (Holds(th', other, m) <==> Holds(th, other, m))
  {
  }

  lemma ReleaseKeeps(s: Sys, t: nat)
    requires Inv(s) && Enabled(s, Run(t)) && s.threads[t].rest[0].Release?
    ensures Inv(Next(s, Run(t)))
  {
    ReleaseSane(s, t);
    var th := s.threads[t];
    var Release(lock, mode) := th.rest[0];
    var th' := Drop(th.(rest := th.rest[1..]), lock);
    assert SaneLock(s, lock) && ExactLock(s, lock) && Tidy(th, s.locks);
    ReleaseHolds(th, lock, mode);
    ReleaseExact(th, t, lock, mode, s.locks[lock]);
    hide L.Inv, L.Next, L.Enabled, Sane, SaneLock, Inv, Disciplined, Tidy, Exact, Drop;
    OthersStayExact(s, t, lock, th');
    PoppedTidy(th, th', s.locks);
    LockStepKeeps(s, t, lock, LockStep(th.rest[0], t), th', Next(s, Run(t)));
  }

  // ----- freeing a file -----

  /**
   * When storageRemoveFile frees a file, no other thread holds its lock, waits for it, or has
   * any later use of it in its program.
   */
  lemma FreeIsSafe(s: Sys, t: nat, u: nat)
    requires Inv(s) && Enabled(s, Run(t)) && s.threads[t].rest[0].FreeFile?
    requires u < |s.threads| && u != t
    ensures var id := s.threads[t].rest[0].id; var l := s.locks[File(id)];
      !Refers(s.threads[u], id) && u !in l.waiting && u !in l.readers && l.writer != Some(u)
  {
    var id, th := s.threads[t].rest[0].id, s.threads[u];
    assert SaneThread(s.threads[t], s.locks) && Tidy(th, s.locks);
    HolderInside(s, t, Storage, W);
    HolderInside(s, t, File(id), W);
    NoOneHolds(s, t, Storage, u);
    NoOneHolds(s, t, File(id), u);
    WriterAlone(s, t, File(id), u, R);
    WriterAlone(s, t, File(id), u, W);
    forall i | 0 <= i < |th.rest| ensures !NamesFile(th.rest[i], id) {
      if NamesFile(th.rest[i], id) {
        FilesUnderStorageLock(th.op, th.rest, th.onFile, i, id);
        assert false;
      }
    }
    assert SaneLock(s, File(id)) && Fits(th, u, File(id), s.locks[File(id)]);
    assert th.rest != [] && th.rest[0].Acquire? ==> th.rest[0].lock != File(id);
  }

  lemma FreeKeepsTidy(s: Sys, t: nat, u: nat)
    requires Inv(s) && Enabled(s, Run(t)) && s.threads[t].rest[0].FreeFile? && u < |s.threads|
    ensures Tidy(Next(s, Run(t)).threads[u], Next(s, Run(t)).locks)
  {
    var th, s' := s.threads[t], Next(s, Run(t));
    assert Tidy(th, s.locks) && Tidy(s.threads[u], s.locks);
    if u == t {
      BothReleased(th.op, 0, W, W);
      assert s'.threads[t].rest == [Release(Storage, W)];
      assert forall other :: !Refers(s'.threads[t], other);
    } else {
      FreeIsSafe(s, t, u);
    }
  }

  lemma FreeKeeps(s: Sys, t: nat)
    requires Inv(s) && Enabled(s, Run(t)) && s.threads[t].rest[0].FreeFile?
    ensures Inv(Next(s, Run(t)))
  {
    FreeSane(s, t);
    var th, s' := s.threads[t], Next(s, Run(t));
    hide L.Inv, L.Next, L.Enabled, Sane, Tidy, Exact;
    forall u: nat | u < |s'.threads| ensures Tidy(s'.threads[u], s'.locks) {
      FreeKeepsTidy(s, t, u);
    }
    assert SaneThread(th, s.locks) by { ThreadIsSane(s, t); }
    forall k | k in s'.locks ensures ExactLock(s', k) {
      assert ExactLock(s, k) && Exact(th, t, k, s.locks[k]);
      SameHoldsExact(th, s'.threads[t], t, k, s.locks[k]);
    }
  }

  lemma SameHoldsExact(th: Thread, th': Thread, t: nat, lock: LockId, l: L.State)
    requires Exact(th, t, lock, l) && forall m :: Holds(th', lock, m) <==> Holds(th, lock, m)
    ensures Exact(th', t, lock, l)
  {
  }

  // ----- steps that only change a script -----

  lemma {:induction false} VisitNames(ids: seq<nat>, i: nat, id: nat)
    requires i < |Visit(ids)| && NamesFile(Visit(ids)[i], id)
    ensures id in ids
  {
    if ids != [] && i >= 3 {
      assert Visit(ids)[i] == Visit(ids[1..])[i - 3];
      VisitNames(ids[1..], i - 3, id);
    }
  }

  lemma BranchNames(op: Op, b: Branch, table: set<nat>, i: nat, id: nat)
    requires Possible(op, b) && InTable(b, table)
    requires i < |Continue(op, b)| && NamesFile(Continue(op, b)[i], id)
    ensures id in table
  {
    if b.Listed? { VisitNames(b.ids, i, id); }
  }

  lemma NewScriptKeeps(s: Sys, t: nat, th': Thread, s': Sys)
    requires Inv(s) && Sane(s') && t < |s.threads|
    requires s'.threads == s.threads[t := th'] && Tidy(th', s.locks)
    requires th'.onStorage == s.threads[t].onStorage && th'.onFile == s.threads[t].onFile
    requires forall k :: k in s.locks ==> k in s'.locks && s'.locks[k] == s.locks[k]
    requires forall k :: k in s'.locks && k !in s.locks ==> k.File? && s'.locks[k] == L.INIT
    ensures Inv(s')
  {
    hide Sane, Disciplined;
    forall u: nat | u < |s'.threads| ensures Tidy(s'.threads[u], s'.locks) {
      assert u != t ==> Tidy(s.threads[u], s.locks);
    }
    forall k | k in s'.locks ensures ExactLock(s', k) {
      if k in s.locks {
        assert ExactLock(s, k) && Exact(s.threads[t], t, k, s.locks[k]);
      } else {
        forall u: nat | u < |s.threads| ensures Exact(s'.threads[u], u, k, s'.locks[k]) {
          assert Tidy(s.threads[u], s.locks) && !Refers(s.threads[u], k.id);
        }
      }
    }
  }

  lemma ContinueTidy(th: Thread, b: Branch, s: Sys)
    requires Tidy(th, s.locks) && th.rest == [Lookup] && Possible(th.op, b) && InTable(b, s.table)
    requires forall id :: id in s.table ==> File(id) in s.locks
    ensures Tidy(th.(rest := Continue(th.op, b)), s.locks)
  {
    var th' := th.(rest := Continue(th.op, b));
    ContinueDisciplined(th.op, b);
    hide Disciplined;
    forall id | Refers(th', id) ensures File(id) in s.locks {
      if i :| 0 <= i < |th'.rest| && NamesFile(th'.rest[i], id) {
        BranchNames(th.op, b, s.table, i, id);
      } else {
        assert Refers(th, id);
      }
    }
  }

  lemma LookupAfter(s: Sys, t: nat, b: Branch)
    requires Enabled(s, Step.Branch(t, b))
    ensures var s' := Next(s, Step.Branch(t, b));
      && s'.threads == s.threads[t := s.threads[t].(rest := Continue(s.threads[t].op, b))]
      && (forall k :: k in s.locks ==> k in s'.locks && s'.locks[k] == s.locks[k])
      && (forall k :: k in s'.locks && k !in s.locks ==> k.File? && s'.locks[k] == L.INIT)
  {
  }

  lemma LookupKeeps(s: Sys, t: nat, b: Branch)
    requires Inv(s) && Enabled(s, Step.Branch(t, b))
    ensures Inv(Next(s, Step.Branch(t, b)))
  {
    StepSane(s, Step.Branch(t, b));
    ContinueTidy(s.threads[t], b, s);
    LookupAfter(s, t, b);
    hide Sane, Tidy, Continue, ExactLock, Next, Inv;
    NewScriptKeeps(s, t, s.threads[t].(rest := Continue(s.threads[t].op, b)), Next(s, Step.Branch(t, b)));
  }

  lemma ConcludeNames(op: Op, id: nat, v: Verdict, i: nat, other: nat)
    requires i < |Conclude(op, id, v)| && NamesFile(Conclude(op, id, v)[i], other)
    ensures other == id
  {
  }

  lemma ConcludedRefers(th: Thread, v: Verdict, other: nat)
    requires th.rest != [] && th.rest[0].Check? && Refers(th.(rest := Concluded(th.op, th.rest, v)), other)
    ensures Refers(th, other)
  {
    var rest := Concluded(th.op, th.rest, v);
    if i :| 0 <= i < |rest| && NamesFile(rest[i], other) {
      if v.Onward? {
        assert th.rest[i + 1] == rest[i];
      } else {
        ConcludeNames(th.op, th.rest[0].id, v, i, other);
        assert NamesFile(th.rest[0], other);
      }
    }
  }

  lemma CheckKeeps(s: Sys, t: nat, v: Verdict)
    requires Inv(s) && Enabled(s, Judge(t, v)) && !v.Leak?
    ensures Inv(Next(s, Judge(t, v)))
  {
    StepSane(s, Judge(t, v));
    var th, s' := s.threads[t], Next(s, Judge(t, v));
    var id, th' := th.rest[0].id, s'.threads[t];
    assert Tidy(th, s.locks);
    DisciplinedIffNotLeaking(th.op, th.rest, id, v);
    forall other | Refers(th', other) ensures File(other) in s.locks { ConcludedRefers(th, v, other); }
    hide Sane, Disciplined;
    NewScriptKeeps(s, t, th', s');
  }

  // ----- acting -----

  /**
   * While a thread has the storage lock for writing, freeing a file is safe exactly when no other
   * thread is inside the file's lock.
   */
  lemma UsedIffInside(s: Sys, t: nat, id: nat)
    requires Inv(s) && t < |s.threads| && s.threads[t].onStorage == Some(W) && File(id) in s.locks
    ensures UsedByOther(s, t, id) <==> exists u, m :: u != t && In(s.locks[File(id)], u, m)
  {
    assert SaneLock(s, File(id)) && ExactLock(s, File(id));
    HolderInside(s, t, Storage, W);
    if u :| 0 <= u < |s.threads| && u != t && Refers(s.threads[u], id) {
      var th := s.threads[u];
      NoOneHolds(s, t, Storage, u);
      assert Tidy(th, s.locks);
      if i :| 0 <= i < |th.rest| && NamesFile(th.rest[i], id) {
        FilesUnderStorageLock(th.op, th.rest, th.onFile, i, id);
      }
      HolderInside(s, u, File(id), th.onFile.value.1);
    }
    if u: nat, m :| u != t && In(s.locks[File(id)], u, m) {
      assert Exact(s.threads[u], u, File(id), s.locks[File(id)]);
      assert Refers(s.threads[u], id);
    }
  }

  lemma EffectKeepsTidy(s: Sys, t: nat, gone: set<nat>, u: nat)
    requires Inv(s) && Enabled(s, Effect(t, gone)) && u < |s.threads|
    ensures Tidy(Next(s, Effect(t, gone)).threads[u], Next(s, Effect(t, gone)).locks)
  {
    var th, s' := s.threads[u], Next(s, Effect(t, gone));
    assert Tidy(th, s.locks);
    if u == t {
      assert Disciplined(th.op, th.rest[1..], th.onStorage, th.onFile);
      hide Disciplined;
      forall id | Refers(s'.threads[t], id) ensures File(id) in s'.locks {
        PoppedRefers(th, s'.threads[t], id);
        if gone != {} { ActorRefers(th, id); }
      }
    } else {
      assert forall id :: Refers(th, id) ==> id !in gone;
    }
  }

  /** A thread that makes room refers to no file but its own. */
  lemma ActorRefers(th: Thread, id: nat)
    requires Disciplined(th.op, th.rest, th.onStorage, th.onFile) && (th.op.Write? || th.op.Append?)
    requires th.rest != [] && th.rest[0].Act? && Refers(th, id)
    ensures id == th.rest[0].id
  {
    if i :| 0 <= i < |th.rest| && NamesFile(th.rest[i], id) {
      assert i > 0 ==> th.rest[1..][i - 1] == th.rest[i];
    }
  }

  lemma EffectKeeps(s: Sys, t: nat, gone: set<nat>)
    requires Inv(s) && Enabled(s, Effect(t, gone))
    ensures Inv(Next(s, Effect(t, gone)))
  {
    EffectSane(s, t, gone);
    var th, s' := s.threads[t], Next(s, Effect(t, gone));
    hide L.Inv, L.Next, L.Enabled, Sane, Tidy, Exact;
    forall u: nat | u < |s'.threads| ensures Tidy(s'.threads[u], s'.locks) {
      EffectKeepsTidy(s, t, gone, u);
    }
    forall k | k in s'.locks ensures ExactLock(s', k) {
      assert ExactLock(s, k) && Exact(th, t, k, s.locks[k]);
      SameHoldsExact(th, s'.threads[t], t, k, s.locks[k]);
    }
  }

  lemma RequestKeeps(s: Sys, t: nat, op: Op)
    requires Inv(s) && Enabled(s, Request(t, op))
    ensures Inv(Next(s, Request(t, op)))
  {
    StepSane(s, Request(t, op));
    assert Tidy(s.threads[t], s.locks);
    StartDisciplined(op);
    NewScriptKeeps(s, t, Thread(op, Start(op), None, None), Next(s, Request(t, op)));
  }

  lemma SpuriousKeeps(s: Sys, t: nat)
    requires Inv(s) && Enabled(s, SpuriousWakeup(t))
    ensures Inv(Next(s, SpuriousWakeup(t)))
  {
    SpuriousSane(s, t);
    var th := s.threads[t];
    var lock := th.rest[0].lock;
    assert s.threads == s.threads[t := th] && Tidy(th, s.locks);
    forall k | k in s.locks ensures Exact(th, t, k, s.locks[k]) { assert ExactLock(s, k); }
    LockStepKeeps(s, t, lock, L.SpuriousWakeup(t), th, Next(s, SpuriousWakeup(t)));
  }

  lemma StepInv(s: Sys, a: Step)
    requires Inv(s) && Enabled(s, a) && !Leaks(a)
    ensures Inv(Next(s, a))
  {
    hide Sane, Disciplined;
    match a
    case Request(t, op) => RequestKeeps(s, t, op);
    case Branch(t, b) => LookupKeeps(s, t, b);
    case Judge(t, v) => CheckKeeps(s, t, v);
    case Effect(t, gone) => EffectKeeps(s, t, gone);
    case SpuriousWakeup(t) => SpuriousKeeps(s, t);
    case Run(t) =>
      match s.threads[t].rest[0] {
        case Acquire(_, _) => AcquireKeeps(s, t);
        case Release(_, _) => ReleaseKeeps(s, t);
        case FreeFile(_) => FreeKeeps(s, t);
      }
  }
}
