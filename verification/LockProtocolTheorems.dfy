/** Whole runs of the two-level locking: invariant, deadlock freedom and completion. */
module LockProtocolTheorems {
  import L = LockerSpec
  import opened Bytes
  import opened LockProtocol
  import opened LockProtocolProofs
  import opened LockDiscipline

  lemma {:induction false} RunInv(s: Sys, run: seq<Step>)
    requires Inv(s) && Valid(s, run) && forall i :: 0 <= i < |run| ==> !Leaks(run[i])
    ensures Inv(After(s, run))
    decreases |run|
  {
    if run != [] {
      StepInv(s, run[0]);
      RunInv(Next(s, run[0]), run[1..]);
    }
  }

  /** The thread is at its lookup, at a check, or about to act. */
  predicate AtTurn(th: Thread) {
    th.rest != [] && (th.rest[0].Lookup? || th.rest[0].Check? || th.rest[0].Act?)
  }

  /** The thread can take its next lock step, or has a turn to decide or act. */
  predicate CanGo(s: Sys, t: nat) {
    t < |s.threads| && (Enabled(s, Run(t)) || AtTurn(s.threads[t]))
  }

  lemma AwakeCanGo(s: Sys, t: nat)
    requires Inv(s) && t < |s.threads| && s.threads[t].rest != [] && !Blocked(s, t)
    ensures CanGo(s, t)
  {
    var th := s.threads[t];
    assert Tidy(th, s.locks);
    match th.rest[0]
    case Lookup =>
    case Check(_) =>
    case Act(_) =>
    case FreeFile(id) => assert NamesFile(th.rest[0], id);
    case Release(lock, m) =>
      HolderInside(s, t, lock, m);
      assert SaneLock(s, lock) && Fits(th, t, lock, s.locks[lock]);
    case Acquire(lock, m) =>
      if lock.File? { assert NamesFile(th.rest[0], lock.id); }
      assert SaneLock(s, lock) && Fits(th, t, lock, s.locks[lock]);
  }

  /** Whatever a thread sleeps on, someone at that lock is awake there: inside it or about to re-test. */
  lemma AwakeAtLock(s: Sys, t: nat) returns (u: nat)
    requires Inv(s) && t < |s.threads| && Blocked(s, t)
    ensures u < |s.threads| && s.threads[u].rest != []
    ensures var lock := s.threads[t].rest[0].lock;
      || ((About(s.threads[u], lock, R) || About(s.threads[u], lock, W)) && !Blocked(s, u))
      || Holds(s.threads[u], lock, R) || Holds(s.threads[u], lock, W)
  {
    var lock := s.threads[t].rest[0].lock;
    var l := s.locks[lock];
    assert SaneLock(s, lock) && ExactLock(s, lock);
    L.SomeoneAwake(l, t);
    u :| (u in l.waiting && !L.Asleep(l.waiting[u])) || u in l.readers || l.writer == Some(u);
    assert Fits(s.threads[u], u, lock, l) && Exact(s.threads[u], u, lock, l) && Tidy(s.threads[u], s.locks);
  }

  /** A thread that holds a file lock never waits for anything. */
  lemma FileHolderNotBlocked(s: Sys, u: nat)
    requires Inv(s) && u < |s.threads| && s.threads[u].onFile != None
    ensures s.threads[u].rest != [] && !Blocked(s, u)
  {
    assert Tidy(s.threads[u], s.locks);
  }

  /** A thread waiting for a file lock holds the storage lock. */
  lemma FileWaiterHoldsStorage(s: Sys, t: nat)
    requires Inv(s) && t < |s.threads| && Blocked(s, t) && s.threads[t].rest[0].lock.File?
    ensures s.threads[t].onStorage != None && s.threads[t].onFile == None
  {
    assert Tidy(s.threads[t], s.locks);
  }

  lemma Progress(s: Sys, t: nat)
    requires Inv(s) && t < |s.threads| && s.threads[t].rest != []
    ensures exists u :: CanGo(s, u)
  {
    var u := t;
    if Blocked(s, u) { u := AwakeAtLock(s, u); }
    if Blocked(s, u) {
      // u holds the storage lock and waits for a file; at the file lock no holder waits
      assert Tidy(s.threads[u], s.locks);
      FileWaiterOrDone(s, t, u);
      u := AwakeAtLock(s, u);
      if s.threads[u].onFile != None { FileHolderNotBlocked(s, u); }
    }
    AwakeCanGo(s, u);
  }

  lemma FileWaiterOrDone(s: Sys, t: nat, u: nat)
    requires Inv(s) && t < |s.threads| && u < |s.threads| && Blocked(s, t) && Blocked(s, u)
    requires Holds(s.threads[u], s.threads[t].rest[0].lock, R) || Holds(s.threads[u], s.threads[t].rest[0].lock, W)
    ensures s.threads[u].rest[0].lock.File?
  {
    assert Tidy(s.threads[u], s.locks);
  }

  /**
   * In every run without a leaking branch, when storageRemoveFile is about to free a file no other thread holds
   * its lock, sleeps at it, or has any use of it left in its program.
   */
  lemma RemoveFreesUnused(n: nat, run: seq<Step>, t: nat, u: nat)
    requires Valid(Init(n), run) && forall i :: 0 <= i < |run| ==> !Leaks(run[i])
    requires var s := After(Init(n), run);
      Enabled(s, Run(t)) && s.threads[t].rest[0].FreeFile? && u < |s.threads| && u != t
    ensures var s := After(Init(n), run); var id := s.threads[t].rest[0].id; var l := s.locks[File(id)];
      !Refers(s.threads[u], id) && u !in l.waiting && u !in l.readers && l.writer != Some(u)
  {
    InitInv(n);
    RunInv(Init(n), run);
    FreeIsSafe(After(Init(n), run), t, u);
  }

  /** In every such run, while a thread holds a lock for writing nobody else holds it. */
  lemma WriterAloneInRuns(n: nat, run: seq<Step>, t: nat, lock: LockId, u: nat, m: Mode)
    requires Valid(Init(n), run) && forall i :: 0 <= i < |run| ==> !Leaks(run[i])
    requires var s := After(Init(n), run);
      t < |s.threads| && u < |s.threads| && u != t && lock in s.locks && Holds(s.threads[t], lock, W)
    ensures !Holds(After(Init(n), run).threads[u], lock, m)
  {
    InitInv(n);
    RunInv(Init(n), run);
    HolderInside(After(Init(n), run), t, lock, W);
    WriterAlone(After(Init(n), run), t, lock, u, m);
  }

  // ----- every operation finishes -----

  function Sum(xs: seq<nat>): nat {
    if xs == [] then 0 else xs[0] + Sum(xs[1..])
  }

  lemma {:induction false} SumUpdate(xs: seq<nat>, ys: seq<nat>, i: nat)
    requires |xs| == |ys| && i < |xs|
    requires forall k :: 0 <= k < |xs| && k != i ==> xs[k] == ys[k]
    ensures Sum(ys) == Sum(xs) - xs[i] + ys[i]
  {
    if i > 0 {
      SumUpdate(xs[1..], ys[1..], i - 1);
    } else {
      assert xs[1..] == ys[1..];
    }
  }

  predicate HasCheck(rest: seq<Instr>) {
    exists i :: 0 <= i < |rest| && rest[i].Check?
  }

  /** The decisions a thread has still to take: a lookup may lead to a check. */
  function DecisionsOf(th: Thread): nat {
    if Lookup in th.rest then 2 else if HasCheck(th.rest) then 1 else 0
  }

  ghost function DecisionCounts(s: Sys): (r: seq<nat>)
    ensures |r| == |s.threads| && forall i :: 0 <= i < |r| ==> r[i] == DecisionsOf(s.threads[i])
  {
    seq(|s.threads|, i requires 0 <= i < |s.threads| => DecisionsOf(s.threads[i]))
  }

  ghost function Lengths(s: Sys): (r: seq<nat>)
    ensures |r| == |s.threads| && forall i :: 0 <= i < |r| ==> r[i] == |s.threads[i].rest|
  {
    seq(|s.threads|, i requires 0 <= i < |s.threads| => |s.threads[i].rest|)
  }

  ghost function AwakeFlags(s: Sys): (r: seq<nat>)
    ensures |r| == |s.threads| && forall i :: 0 <= i < |r| ==> r[i] == if Blocked(s, i) then 0 else 1
  {
    seq(|s.threads|, i requires 0 <= i < |s.threads| => if Blocked(s, i) then 0 else 1)
  }

  ghost function Decisions(s: Sys): nat { Sum(DecisionCounts(s)) }

  ghost function Instrs(s: Sys): nat { Sum(Lengths(s)) }

  ghost function AwakeCount(s: Sys): nat { Sum(AwakeFlags(s)) }

  /** Decisions to come, lock steps to come, threads awake: compared in that order. */
  ghost predicate Closer(s': Sys, s: Sys) {
    || Decisions(s') < Decisions(s)
    || (Decisions(s') == Decisions(s) && Instrs(s') < Instrs(s))
    || (Decisions(s') == Decisions(s) && Instrs(s') == Instrs(s) && AwakeCount(s') < AwakeCount(s))
  }

  lemma CountsUpdate(s: Sys, s': Sys, t: nat)
    requires t < |s.threads| == |s'.threads| && s'.threads == s.threads[t := s'.threads[t]]
    ensures Decisions(s') == Decisions(s) - DecisionsOf(s.threads[t]) + DecisionsOf(s'.threads[t])
    ensures Instrs(s') == Instrs(s) - |s.threads[t].rest| + |s'.threads[t].rest|
  {
    SumUpdate(DecisionCounts(s), DecisionCounts(s'), t);
    SumUpdate(Lengths(s), Lengths(s'), t);
  }

  lemma {:induction false} VisitLooksUpNothing(ids: seq<nat>)
    ensures Lookup !in Visit(ids)
  {
    if ids != [] {
      VisitLooksUpNothing(ids[1..]);
      var v, tail := Visit(ids), Visit(ids[1..]);
      assert forall i :: 3 <= i < |v| ==> v[i] == tail[i - 3];
    }
  }

  lemma ContinueDecides(op: Op, b: Branch)
    requires Possible(op, b)
    ensures Lookup !in Continue(op, b)
  {
    if b.Listed? { VisitLooksUpNothing(b.ids); }
  }

  lemma ConcludeDecides(op: Op, id: nat, v: Verdict)
    ensures Lookup !in Conclude(op, id, v) && !HasCheck(Conclude(op, id, v))
  {
  }

  lemma PoppedDecides(th: Thread, th': Thread)
    requires th.rest != [] && th'.rest == th.rest[1..]
    ensures DecisionsOf(th') <= DecisionsOf(th)
  {
    if i :| 0 <= i < |th'.rest| && th'.rest[i].Check? { assert th.rest[i + 1].Check?; }
  }

  /** A failed attempt puts the thread to sleep and disturbs nobody. */
  lemma FailedAcquire(s: Sys, t: nat)
    requires Enabled(s, Run(t)) && s.threads[t].rest[0].Acquire?
    requires Next(s, Run(t)).threads == s.threads
    ensures AwakeCount(Next(s, Run(t))) == AwakeCount(s) - 1
  {
    var s' := Next(s, Run(t));
    var lock := s.threads[t].rest[0].lock;
    var a := LockStep(s.threads[t].rest[0], t);
    forall u: nat | u < |s.threads| && u != t ensures Blocked(s', u) == Blocked(s, u) {
      OthersUntouched(s.locks[lock], a, u);
    }
    assert !Blocked(s, t) && Blocked(s', t);
    assert AwakeFlags(s)[t] == 1 && AwakeFlags(s')[t] == 0;
    SumUpdate(AwakeFlags(s), AwakeFlags(s'), t);
  }

  lemma OthersUntouched(l: L.State, a: L.Step, u: nat)
    requires L.Enabled(l, a) && u != a.t && (a.ReadLock? || a.WriteLock?)
    ensures u in L.Next(l, a).waiting <==> u in l.waiting
    ensures u in l.waiting ==> L.Next(l, a).waiting[u] == l.waiting[u]
  {
  }

  predicate Productive(a: Step) {
    a.Run? || a.Branch? || a.Judge? || a.Effect?
  }

  lemma RunAdvances(s: Sys, t: nat)
    requires Enabled(s, Run(t))
    ensures Closer(Next(s, Run(t)), s)
  {
    var s', th := Next(s, Run(t)), s.threads[t];
    CountsUpdate(s, s', t);
    if th.rest[0].Acquire? && s'.threads == s.threads {
      FailedAcquire(s, t);
    } else {
      assert s'.threads != s.threads ==> s'.threads[t].rest == th.rest[1..];
      PoppedDecides(th, s'.threads[t]);
    }
  }

  lemma BranchAdvances(s: Sys, t: nat, b: Branch)
    requires Enabled(s, Step.Branch(t, b))
    ensures Closer(Next(s, Step.Branch(t, b)), s)
  {
    var s', th := Next(s, Step.Branch(t, b)), s.threads[t];
    CountsUpdate(s, s', t);
    ContinueDecides(th.op, b);
  }

  /** A verdict on one file settles it, unless readN goes on to the next. */
  lemma JudgeAdvances(s: Sys, t: nat, v: Verdict)
    requires Enabled(s, Judge(t, v)) && SaneThread(s.threads[t], s.locks)
    ensures Closer(Next(s, Judge(t, v)), s)
  {
    var s', th := Next(s, Judge(t, v)), s.threads[t];
    CountsUpdate(s, s', t);
    assert HasCheck(th.rest);
    if v.Onward? {
      PoppedDecides(th, s'.threads[t]);
    } else {
      ConcludeDecides(th.op, th.rest[0].id, v);
      assert Lookup !in s'.threads[t].rest;
    }
  }

  lemma EffectAdvances(s: Sys, t: nat, gone: set<nat>)
    requires Enabled(s, Effect(t, gone))
    ensures Closer(Next(s, Effect(t, gone)), s)
  {
    var s' := Next(s, Effect(t, gone));
    CountsUpdate(s, s', t);
    PoppedDecides(s.threads[t], s'.threads[t]);
  }

  /**
   * Every step but a new request or a spurious wakeup brings the whole system closer to
   * its end in a well-founded order, whatever the scheduler picks.
   */
  lemma EveryStepAdvances(s: Sys, a: Step)
    requires Sane(s) && Enabled(s, a) && Productive(a)
    ensures Closer(Next(s, a), s)
  {
    match a
    case Run(t) => RunAdvances(s, t);
    case Branch(t, b) => BranchAdvances(s, t, b);
    case Judge(t, v) => ThreadIsSane(s, t); JudgeAdvances(s, t, v);
    case Effect(t, gone) => EffectAdvances(s, t, gone);
  }

  ghost predicate Finished(s: Sys) {
    forall t :: 0 <= t < |s.threads| ==> s.threads[t].rest == []
  }
}
