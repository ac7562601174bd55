/** What the two-level locking keeps: first in every run, the leaking ones included, then in every other. */
module LockProtocolProofs {
  import L = LockerSpec
  import opened Bytes
  import opened LockProtocol

  ghost predicate Holds(th: Thread, lock: LockId, mode: Mode) {
    match lock
    case Storage => th.onStorage == Some(mode)
    case File(id) => th.onFile == Some((id, mode))
  }

  ghost predicate About(th: Thread, lock: LockId, mode: Mode) {
    th.rest != [] && th.rest[0] == Acquire(lock, mode)
  }

  predicate In(l: L.State, t: nat, mode: Mode) {
    match mode
    case R => t in l.readers
    case W => l.writer == Some(t)
  }

  function ModeOf(w: L.Wait): Mode {
    if w.ReadWait? || w.ReadWoken? then R else W
  }

  // ----- what holds in every run -----

  /** A thread is inside every lock it holds, and stopped only in the call it is about to make. */
  ghost predicate Fits(th: Thread, t: nat, lock: LockId, l: L.State) {
    && (forall m :: Holds(th, lock, m) ==> In(l, t, m))
    && (t in l.waiting ==> About(th, lock, ModeOf(l.waiting[t])))
  }

  ghost predicate Bounded(l: L.State, n: nat) {
    && (forall t :: t in l.waiting ==> t < n)
    && (forall t :: t in l.readers ==> t < n)
    && (l.writer.Some? ==> l.writer.value < n)
  }

  ghost predicate SaneLock(s: Sys, lock: LockId)
    requires lock in s.locks
  {
    && L.Inv(s.locks[lock]) && Bounded(s.locks[lock], |s.threads|)
    && (forall t: nat :: t < |s.threads| ==> Fits(s.threads[t], t, lock, s.locks[lock]))
  }

  ghost predicate SaneThread(th: Thread, locks: map<LockId, L.State>) {
    && Scripted(th.op, th.rest, th.onStorage, th.onFile)
    && (th.onFile.Some? ==> File(th.onFile.value.0) in locks)
  }

  ghost predicate Sane(s: Sys) {
    && Storage in s.locks
    && (forall id :: id in s.table ==> File(id) in s.locks)
    && (forall t: nat :: t < |s.threads| ==> SaneThread(s.threads[t], s.locks))
    && (forall lock :: lock in s.locks ==> SaneLock(s, lock))
  }

  lemma InitSane(n: nat)
    ensures Sane(Init(n))
  {
    L.InitInv();
  }

  lemma AnyStorage(s: Sys)
    requires Sane(s)
    ensures Storage in s.locks
  {
  }

  lemma LockIsSane(s: Sys, lock: LockId)
    requires Sane(s) && lock in s.locks
    ensures SaneLock(s, lock)
  {
  }

  lemma ThreadIsSane(s: Sys, t: nat)
    requires Sane(s) && t < |s.threads|
    ensures SaneThread(s.threads[t], s.locks)
  {
  }

  lemma OthersKept(l: L.State, a: L.Step, u: nat)
    requires L.Inv(l) && L.Enabled(l, a) && u != a.t
    ensures var l' := L.Next(l, a);
      && l'.readers[u] == l.readers[u] && (l'.writer == Some(u) <==> l.writer == Some(u))
      && (u in l'.waiting <==> u in l.waiting)
      && (u in l.waiting ==> l'.waiting[u] == l.waiting[u] || l'.waiting[u] == L.WakeOne(l.waiting[u]))
  {
    assert l.writer.Some? ==> L.Claims(l, l.writer.value);
    assert L.Claiming(l, a.t) ==> L.Claims(l, a.t);
  }

  lemma OthersFit(l: L.State, a: L.Step, th: Thread, u: nat, lock: LockId)
    requires L.Inv(l) && L.Enabled(l, a) && u != a.t && Fits(th, u, lock, l)
    ensures Fits(th, u, lock, L.Next(l, a))
  {
    OthersKept(l, a, u);
    hide L.Inv, L.Next, L.Enabled;
    forall m | Holds(th, lock, m) ensures In(L.Next(l, a), u, m) { assert In(l, u, m); }
  }

  /** The effect of a lock step by thread t whose record becomes th', given the record fits every lock. */
  lemma LockStepSane(s: Sys, t: nat, lock: LockId, a: L.Step, th': Thread, s': Sys)
    requires Sane(s) && t < |s.threads| && a.t == t && lock in s.locks && L.Enabled(s.locks[lock], a)
    requires s' == s.(locks := s.locks[lock := L.Next(s.locks[lock], a)], threads := s.threads[t := th'])
    requires SaneThread(th', s.locks) && Fits(th', t, lock, s'.locks[lock])
    requires forall other :: other in s.locks && other != lock ==> Fits(th', t, other, s.locks[other])
    ensures Sane(s')
  {
    hide L.Inv, L.Next, L.Enabled, Scripted, Fits;
    assert SaneLock(s, lock);
    L.StepInv(s.locks[lock], a);
    assert s'.locks.Keys == s.locks.Keys;
    forall u: nat | u < |s'.threads| ensures SaneThread(s'.threads[u], s'.locks) {
      assert u != t ==> SaneThread(s.threads[u], s.locks);
    }
    forall k | k in s'.locks ensures SaneLock(s', k) {
      assert SaneLock(s, k);
      forall u: nat | u < |s'.threads| ensures Fits(s'.threads[u], u, k, s'.locks[k]) {
        if u != t && k == lock { OthersFit(s.locks[k], a, s.threads[u], u, k); }
      }
      if k == lock { StaysBounded(s.locks[k], a, |s.threads|); }
    }
  }

  lemma StaysBounded(l: L.State, a: L.Step, n: nat)
    requires L.Enabled(l, a) && Bounded(l, n) && a.t < n
    ensures Bounded(L.Next(l, a), n)
  {
  }

  lemma AcquireFits(th: Thread, t: nat, lock: LockId, mode: Mode, l: L.State)
    requires L.Inv(l) && About(th, lock, mode) && L.Enabled(l, LockStep(th.rest[0], t)) && Fits(th, t, lock, l)
    ensures var l' := L.Next(l, LockStep(th.rest[0], t));
      if Waits(l', t) then Fits(th, t, lock, l') else Fits(Grant(th.(rest := th.rest[1..]), lock, mode), t, lock, l')
  {
    var l' := L.Next(l, LockStep(th.rest[0], t));
    forall m | Holds(th, lock, m) ensures In(l', t, m) { assert In(l, t, m); }
  }

  lemma AcquireSane(s: Sys, t: nat)
    requires Sane(s) && Enabled(s, Run(t)) && s.threads[t].rest[0].Acquire?
    ensures Sane(Next(s, Run(t)))
  {
    var th := s.threads[t];
    var Acquire(lock, mode) := th.rest[0];
    var a := LockStep(th.rest[0], t);
    assert SaneLock(s, lock) && SaneThread(th, s.locks);
    AcquireFits(th, t, lock, mode, s.locks[lock]);
    var l := L.Next(s.locks[lock], a);
    var th' := if Waits(l, t) then th else Grant(th.(rest := th.rest[1..]), lock, mode);
    hide L.Inv, L.Next, L.Enabled;
    assert s.threads == s.threads[t := th];
    forall other | other in s.locks && other != lock ensures Fits(th', t, other, s.locks[other]) {
      assert SaneLock(s, other) && Fits(th, t, other, s.locks[other]);
      forall m | Holds(th', other, m) ensures In(s.locks[other], t, m) { assert Holds(th, other, m); }
    }
    LockStepSane(s, t, lock, a, th', Next(s, Run(t)));
  }

  lemma ReleaseSane(s: Sys, t: nat)
    requires Sane(s) && Enabled(s, Run(t)) && s.threads[t].rest[0].Release?
    ensures Sane(Next(s, Run(t)))
  {
    var th := s.threads[t];
    var Release(lock, mode) := th.rest[0];
    var th' := Drop(th.(rest := th.rest[1..]), lock);
    var a := LockStep(th.rest[0], t);
    assert SaneLock(s, lock) && SaneThread(th, s.locks) && Fits(th, t, lock, s.locks[lock]);
    assert t !in L.Next(s.locks[lock], a).waiting;
    hide L.Inv, L.Next, L.Enabled;
    forall other | other in s.locks && other != lock ensures Fits(th', t, other, s.locks[other]) {
      assert SaneLock(s, other) && Fits(th, t, other, s.locks[other]);
      forall m | Holds(th', other, m) ensures In(s.locks[other], t, m) { assert Holds(th, other, m); }
    }
    LockStepSane(s, t, lock, a, th', Next(s, Run(t)));
  }

  /** Holding a lock is being inside it. */
  lemma HolderInside(s: Sys, t: nat, lock: LockId, m: Mode)
    requires Sane(s) && t < |s.threads| && lock in s.locks && Holds(s.threads[t], lock, m)
    ensures In(s.locks[lock], t, m)
  {
    assert SaneLock(s, lock) && Fits(s.threads[t], t, lock, s.locks[lock]);
  }

  /** While t is inside a lock for writing, nobody else is inside it. */
  lemma WriterAlone(s: Sys, t: nat, lock: LockId, u: nat, m: Mode)
    requires Sane(s) && t < |s.threads| && lock in s.locks && In(s.locks[lock], t, W)
    requires u < |s.threads| && u != t
    ensures !In(s.locks[lock], u, m) && !Holds(s.threads[u], lock, m)
  {
    assert SaneLock(s, lock);
    if Holds(s.threads[u], lock, m) { HolderInside(s, u, lock, m); }
    assert |s.locks[lock].readers| == 0;
  }

  lemma NoOneHolds(s: Sys, t: nat, lock: LockId, u: nat)
    requires Sane(s) && t < |s.threads| && lock in s.locks && In(s.locks[lock], t, W)
    requires u < |s.threads| && u != t
    ensures lock.Storage? ==> s.threads[u].onStorage == None
    ensures lock.File? && s.threads[u].onFile != None ==> s.threads[u].onFile.value.0 != lock.id
  {
    WriterAlone(s, t, lock, u, R);
    WriterAlone(s, t, lock, u, W);
    match s.threads[u].onStorage { case None => case Some(R) => case Some(W) => }
    match s.threads[u].onFile { case None => case Some((id, m)) => assert m == R || m == W; }
  }

  lemma FreeSane(s: Sys, t: nat)
    requires Sane(s) && Enabled(s, Run(t)) && s.threads[t].rest[0].FreeFile?
    ensures Sane(Next(s, Run(t)))
  {
    var th, s' := s.threads[t], Next(s, Run(t));
    var id := th.rest[0].id;
    assert SaneThread(th, s.locks);
    assert Scripted(th.op, th.rest[1..], th.onStorage, None) by {
      assert Scripted(th.op, [], None, None);
      Peel(Release(Storage, W), [], th.rest[1..]);
    }
    HolderInside(s, t, File(id), W);
    hide L.Inv, Scripted;
    forall u: nat | u < |s'.threads| ensures SaneThread(s'.threads[u], s'.locks) {
      assert u != t ==> SaneThread(s.threads[u], s.locks);
      if u != t { NoOneHolds(s, t, File(id), u); }
    }
    forall k | k in s'.locks ensures SaneLock(s', k) {
      assert SaneLock(s, k) && Fits(th, t, k, s.locks[k]);
      forall m | Holds(s'.threads[t], k, m) ensures In(s.locks[k], t, m) { assert Holds(th, k, m); }
    }
  }

  /** Acting frees only files no other thread refers to, and not the file acted on. */
  lemma EffectSane(s: Sys, t: nat, gone: set<nat>)
    requires Sane(s) && Enabled(s, Effect(t, gone))
    ensures Sane(Next(s, Effect(t, gone)))
  {
    var th, s' := s.threads[t], Next(s, Effect(t, gone));
    assert SaneThread(th, s.locks);
    hide L.Inv, Scripted;
    forall u: nat | u < |s'.threads| ensures SaneThread(s'.threads[u], s'.locks) {
      assert u != t ==> SaneThread(s.threads[u], s.locks);
    }
    forall k | k in s'.locks ensures SaneLock(s', k) {
      assert SaneLock(s, k) && Fits(th, t, k, s.locks[k]);
      forall m | Holds(s'.threads[t], k, m) ensures In(s.locks[k], t, m) { assert Holds(th, k, m); }
    }
  }

  /** A step that changes only the script of thread t, which is in no call on any lock. */
  lemma NewScriptSane(s: Sys, t: nat, th': Thread, s': Sys)
    requires Sane(s) && t < |s.threads| && (s.threads[t].rest == [] || !s.threads[t].rest[0].Acquire?)
    requires s'.threads == s.threads[t := th'] && SaneThread(th', s.locks)
    requires th'.onStorage in {None, s.threads[t].onStorage} && th'.onFile in {None, s.threads[t].onFile}
    requires forall k :: k in s.locks ==> k in s'.locks && s'.locks[k] == s.locks[k]
    requires forall k :: k in s'.locks && k !in s.locks ==> k.File? && s'.locks[k] == L.INIT
    requires forall id :: id in s'.table ==> File(id) in s'.locks
    ensures Sane(s')
  {
    hide Scripted;
    forall u: nat | u < |s'.threads| ensures SaneThread(s'.threads[u], s'.locks) {
      assert u != t ==> SaneThread(s.threads[u], s.locks);
    }
    L.InitInv();
    forall k | k in s'.locks ensures SaneLock(s', k) {
      if k in s.locks {
        assert SaneLock(s, k) && Fits(s.threads[t], t, k, s.locks[k]);
        forall m | Holds(th', k, m) ensures In(s.locks[k], t, m) { assert Holds(s.threads[t], k, m); }
      } else {
        forall u: nat | u < |s.threads| ensures Fits(s'.threads[u], u, k, s'.locks[k]) {
          assert SaneThread(s.threads[u], s.locks);
        }
      }
    }
  }

  lemma SpuriousSane(s: Sys, t: nat)
    requires Sane(s) && Enabled(s, SpuriousWakeup(t))
    ensures Sane(Next(s, SpuriousWakeup(t)))
  {
    var th := s.threads[t];
    var lock := th.rest[0].lock;
    assert s.threads == s.threads[t := th];
    assert SaneThread(th, s.locks);
    forall k | k in s.locks ensures Fits(th, t, k, s.locks[k]) { assert SaneLock(s, k); }
    SpuriousFits(th, t, lock, s.locks[lock]);
    LockStepSane(s, t, lock, L.SpuriousWakeup(t), th, Next(s, SpuriousWakeup(t)));
  }

  lemma SpuriousFits(th: Thread, t: nat, lock: LockId, l: L.State)
    requires Fits(th, t, lock, l) && L.Enabled(l, L.SpuriousWakeup(t))
    ensures Fits(th, t, lock, L.Next(l, L.SpuriousWakeup(t)))
  {
    forall m | Holds(th, lock, m) ensures In(L.Next(l, L.SpuriousWakeup(t)), t, m) { assert In(l, t, m); }
  }

  /** Every step of any thread, leaking or not, keeps who is inside which lock and who waits where. */
  lemma StepSane(s: Sys, a: Step)
    requires Sane(s) && Enabled(s, a)
    ensures Sane(Next(s, a))
  {
    var th, s' := s.threads[a.t], Next(s, a);
    assert SaneThread(th, s.locks);
    match a
    case Request(t, op) =>
      StartDisciplined(op);
      DisciplinedScripted(op, Start(op), None, None);
      NewScriptSane(s, t, s'.threads[t], s');
    case Branch(t, b) =>
      ContinueDisciplined(th.op, b);
      DisciplinedScripted(th.op, Continue(th.op, b), th.onStorage, None);
      NewScriptSane(s, t, s'.threads[t], s');
    case Judge(t, v) =>
      ConcludeScripted(th.op, th.rest, th.rest[0].id, v);
      NewScriptSane(s, t, s'.threads[t], s');
    case Effect(t, gone) => EffectSane(s, t, gone);
    case SpuriousWakeup(t) => SpuriousSane(s, t);
    case Run(t) =>
      match th.rest[0] {
        case Acquire(_, _) => AcquireSane(s, t);
        case Release(_, _) => ReleaseSane(s, t);
        case FreeFile(_) => FreeSane(s, t);
      }
  }
}
