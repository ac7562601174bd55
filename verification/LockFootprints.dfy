/** Which locks each operation has, and in which mode, whenever it looks at the table or a file, and how it gives them back. */
module LockFootprints {
  import L = LockerSpec
  import opened Bytes
  import opened LockProtocol
  import opened LockProtocolProofs
  import opened LockDiscipline

  // ----- at each access -----

  /** The operations that change the table, the queue or the counters. */
  predicate ChangesStorage(op: Op) {
    op == OpenCreate || op == Write || op == Append || op == Remove
  }

  /** What a thread about to take this step has. */
  ghost predicate HasForStep(s: Sys, t: nat, i: Instr)
    requires Storage in s.locks && t < |s.threads|
  {
    var th := s.threads[t];
    match i
    case Lookup => In(s.locks[Storage], t, if ChangesStorage(th.op) then W else R) && th.onFile == None
    case Check(id) =>
      && File(id) in s.locks && In(s.locks[File(id)], t, if th.op in {Read, ReadN, Close} then R else W)
      && (ChangesStorage(th.op) ==> In(s.locks[Storage], t, W))
      && (th.op in {ReadN, Close} ==> In(s.locks[Storage], t, R))
      && (th.op in {Read, LockFile, UnlockFile, OpenExisting} ==> th.onStorage == None)
    case Act(id) =>
      && File(id) in s.locks && In(s.locks[File(id)], t, if th.op == Read then R else W)
      && (ChangesStorage(th.op) ==> In(s.locks[Storage], t, W))
      && (th.op == Close ==> In(s.locks[Storage], t, R))
      && (th.op in {Read, LockFile, UnlockFile, OpenExisting} ==> th.onStorage == None)
    case FreeFile(id) => File(id) in s.locks && In(s.locks[File(id)], t, W) && In(s.locks[Storage], t, W)
    case _ => true
  }

  /**
   * In every run, leaks included: whoever looks into the table is inside the storage lock, alone if it may
   * change the storage. Whoever looks at a file is inside the file's lock, as a reader for read, readN and
   * the check of close and alone otherwise; those that may change the storage still have it to themselves,
   * readN and close are still inside as readers, and read, lock, unlock and open have let go of it.
   */
  lemma LocksAtAccess(s: Sys, t: nat)
    requires Sane(s) && t < |s.threads| && s.threads[t].rest != []
    ensures Storage in s.locks && HasForStep(s, t, s.threads[t].rest[0])
  {
    var th := s.threads[t];
    ThreadIsSane(s, t);
    AnyStorage(s);
    if th.onStorage.Some? { HolderInside(s, t, Storage, th.onStorage.value); }
    if th.onFile.Some? { HolderInside(s, t, File(th.onFile.value.0), th.onFile.value.1); }
    hide Sane;
  }

  /** Without leaks it is inside no other lock, and in no other mode. */
  lemma NothingElse(s: Sys, t: nat, lock: LockId, m: Mode)
    requires Inv(s) && t < |s.threads| && lock in s.locks && In(s.locks[lock], t, m)
    ensures Holds(s.threads[t], lock, m) && (m == R ==> s.locks[lock].readers[t] == 1)
  {
    assert ExactLock(s, lock) && Exact(s.threads[t], t, lock, s.locks[lock]);
  }

  // ----- locks come and go with their files -----

  /** There is the storage lock, and one lock for each file. */
  ghost predicate LocksMatch(s: Sys) {
    Storage in s.locks && forall id :: File(id) in s.locks <==> id in s.table
  }

  lemma MatchStep(s: Sys, a: Step)
    requires LocksMatch(s) && Enabled(s, a)
    ensures LocksMatch(Next(s, a))
  {
    hide L.Next, L.Enabled;
  }

  lemma {:induction false} MatchRun(s: Sys, run: seq<Step>)
    requires LocksMatch(s) && Valid(s, run)
    ensures LocksMatch(After(s, run))
    decreases |run|
  {
    if run != [] {
      MatchStep(s, run[0]);
      MatchRun(Next(s, run[0]), run[1..]);
    }
  }

  /** In every run a lock is there exactly as long as its file: from its creation until a removal or an eviction frees it. */
  lemma LocksLastAsFiles(n: nat, run: seq<Step>)
    requires Valid(Init(n), run)
    ensures LocksMatch(After(Init(n), run))
  {
    MatchRun(Init(n), run);
  }

  // ----- the way out -----

  /** What a thread has: of the storage lock, and of a file's lock. */
  datatype Has = Has(storage: Option<Mode>, file: Option<Mode>)

  function Having(th: Thread): Has {
    Has(th.onStorage, if th.onFile.Some? then Some(th.onFile.value.1) else None)
  }

  /** From here the thread's own lock steps succeed at once, whatever the others do, and leave it with these in turn. */
  ghost predicate GoesThrough(s: Sys, t: nat, way: seq<Has>)
    decreases |way|
  {
    way == [] ||
    (Enabled(s, Run(t)) && Having(Next(s, Run(t)).threads[t]) == way[0] && GoesThrough(Next(s, Run(t)), t, way[1..]))
  }

  lemma LetsGo(s: Sys, t: nat)
    requires Inv(s) && t < |s.threads| && s.threads[t].rest != []
    requires s.threads[t].rest[0].Release? || s.threads[t].rest[0].FreeFile?
    ensures Enabled(s, Run(t)) && Inv(Next(s, Run(t))) && |Next(s, Run(t)).threads| == |s.threads|
    ensures var th, th' := s.threads[t], Next(s, Run(t)).threads[t];
      && th'.rest == th.rest[1..] && th'.op == th.op
      && Having(th') == Without(Having(th), th.rest[0])
  {
    var th := s.threads[t];
    assert Tidy(th, s.locks);
    if th.rest[0].Release? {
      ReleaseHolds(th, th.rest[0].lock, th.rest[0].mode);
      HolderInside(s, t, th.rest[0].lock, th.rest[0].mode);
      LockIsSane(s, th.rest[0].lock);
      assert Fits(th, t, th.rest[0].lock, s.locks[th.rest[0].lock]);
    } else {
      assert NamesFile(th.rest[0], th.rest[0].id);
    }
    hide Disciplined, Tidy, ExactLock, L.Inv;
    StepInv(s, Run(t));
  }

  ghost predicate OnlyLetsGo(rest: seq<Instr>) {
    forall i :: 0 <= i < |rest| ==> rest[i].Release? || rest[i].FreeFile?
  }

  /** What is left after a step that lets go. */
  function Without(has: Has, i: Instr): Has {
    match i
    case Release(Storage, _) => Has(None, has.file)
    case _ => Has(has.storage, None)
  }

  /** What is left after each of them. */
  function WayOf(has: Has, rest: seq<Instr>): seq<Has>
    decreases |rest|
  {
    if rest == [] then [] else [Without(has, rest[0])] + WayOf(Without(has, rest[0]), rest[1..])
  }

  lemma {:induction false} GoesOut(s: Sys, t: nat)
    requires Inv(s) && t < |s.threads| && OnlyLetsGo(s.threads[t].rest)
    ensures GoesThrough(s, t, WayOf(Having(s.threads[t]), s.threads[t].rest))
    decreases |s.threads[t].rest|
  {
    var th := s.threads[t];
    if th.rest != [] {
      LetsGo(s, t);
      var s' := Next(s, Run(t));
      hide Inv, Next, Enabled;
      assert forall i :: 0 <= i < |th.rest[1..]| ==> th.rest[1..][i] == th.rest[i + 1];
      GoesOut(s', t);
      var way := WayOf(Having(th), th.rest);
      assert way[1..] == WayOf(Having(s'.threads[t]), th.rest[1..]);
    }
  }

  /**
   * After a denial the way out is free, and is this: read, lock, unlock and open only have the file's lock to
   * give back; close gives back the file's lock and then the storage lock; write, append and remove the
   * storage lock and then the file's.
   */
  lemma DeniedWayOut(s: Sys, t: nat)
    requires Inv(s) && Enabled(s, Judge(t, Denied))
    ensures var op, s' := s.threads[t].op, Next(s, Judge(t, Denied));
      GoesThrough(s', t,
        if op in {Read, LockFile, UnlockFile, OpenExisting} then [Has(None, None)]
        else if op == Close then [Has(Some(R), None), Has(None, None)]
        else [Has(None, Some(W)), Has(None, None)])
  {
    var th, s' := s.threads[t], Next(s, Judge(t, Denied));
    assert Tidy(th, s.locks);
    StepInv(s, Judge(t, Denied));
    DeniedWay(th);
    hide Inv, Next, Enabled, Tidy, Disciplined;
    GoesOut(s', t);
  }

  lemma DeniedWay(th: Thread)
    requires th.rest != [] && th.rest[0].Check? && PossibleVerdict(th.op, Denied)
    requires Disciplined(th.op, th.rest, th.onStorage, th.onFile)
    ensures var rest := Concluded(th.op, th.rest, Denied);
      OnlyLetsGo(rest) && WayOf(Having(th), rest) ==
        if th.op in {Read, LockFile, UnlockFile, OpenExisting} then [Has(None, None)]
        else if th.op == Close then [Has(Some(R), None), Has(None, None)]
        else [Has(None, Some(W)), Has(None, None)]
  {
    var rest := Concluded(th.op, th.rest, Denied);
    ShortWay(Having(th), rest);
  }

  lemma ShortWay(has: Has, rest: seq<Instr>)
    ensures |rest| == 1 ==> WayOf(has, rest) == [Without(has, rest[0])]
    ensures |rest| == 2 ==> WayOf(has, rest) == [Without(has, rest[0]), Without(Without(has, rest[0]), rest[1])]
  {
    if |rest| == 1 {
      assert WayOf(Without(has, rest[0]), rest[1..]) == [];
    } else if |rest| == 2 {
      var next := Without(has, rest[0]);
      assert rest[1..] == [rest[1]] && WayOf(Without(next, rest[1]), rest[1..][1..]) == [];
      assert WayOf(next, rest[1..]) == [Without(next, rest[1])];
    }
  }

  /** What a thread is to do when its operation has been granted, at its turn to act. */
  predicate AboutToAct(th: Thread, id: nat) {
    th.rest == if th.op == Close then Conclude(Close, id, Granted)[2..] else Conclude(th.op, id, Granted)
  }

  lemma ActedWay(th: Thread, id: nat)
    requires AboutToAct(th, id) && th.rest != [] && th.rest[0] == Act(id) && !th.op.ReadN? && !th.op.OpenCreate?
    requires Disciplined(th.op, th.rest, th.onStorage, th.onFile)
    ensures OnlyLetsGo(th.rest[1..]) && WayOf(Having(th), th.rest[1..]) ==
      if th.op in {Write, Append, Remove} then [Has(Some(W), None), Has(None, None)]
      else if th.op == Close then [Has(Some(R), None), Has(None, None)]
      else [Has(None, None)]
  {
    ShortWay(Having(th), th.rest[1..]);
  }

  /**
   * Once it has acted the way out is free too: write, append and remove are rid of their file's lock first,
   * remove of the file itself, and then of the storage lock; close likewise; the others have the file's
   * lock alone to give back.
   */
  lemma ActedWayOut(s: Sys, t: nat, gone: set<nat>, id: nat)
    requires Inv(s) && Enabled(s, Effect(t, gone)) && AboutToAct(s.threads[t], id) && s.threads[t].rest[0] == Act(id)
    requires !s.threads[t].op.ReadN? && !s.threads[t].op.OpenCreate?
    ensures var op, s' := s.threads[t].op, Next(s, Effect(t, gone));
      GoesThrough(s', t,
        if op in {Write, Append, Remove} then [Has(Some(W), None), Has(None, None)]
        else if op == Close then [Has(Some(R), None), Has(None, None)]
        else [Has(None, None)])
  {
    var s' := Next(s, Effect(t, gone));
    assert Tidy(s.threads[t], s.locks);
    StepInv(s, Effect(t, gone));
    ActedWay(s.threads[t], id);
    assert Having(s'.threads[t]) == Having(s.threads[t]) && s'.threads[t].rest == s.threads[t].rest[1..];
    hide Inv, Next, Enabled, Tidy, Disciplined, AboutToAct;
    GoesOut(s', t);
  }

  /** The thread's next lock step succeeds at once and leaves it this to do. */
  ghost predicate LeftToDo(s: Sys, t: nat, rest: seq<Instr>) {
    Enabled(s, Run(t)) && t < |Next(s, Run(t)).threads| && Next(s, Run(t)).threads[t].rest == rest
  }

  /** A close that was granted lets go of the file and takes its lock again, to itself, before it acts. */
  lemma CloseGoesRound(s: Sys, t: nat)
    requires Inv(s) && Enabled(s, Judge(t, Granted)) && s.threads[t].op.Close?
    ensures var s', id := Next(s, Judge(t, Granted)), s.threads[t].rest[0].id;
      && GoesThrough(s', t, [Has(Some(R), None)])
      && LeftToDo(s', t, [Acquire(File(id), W), Act(id), Release(File(id), W), Release(Storage, R)])
  {
    var s' := Next(s, Judge(t, Granted));
    assert Tidy(s.threads[t], s.locks);
    StepInv(s, Judge(t, Granted));
    hide Inv, Tidy, Disciplined;
    LetsGo(s', t);
    hide Next, Enabled;
    assert GoesThrough(Next(s', Run(t)), t, []);
  }

  /** readN, when it has had enough, gives back the lock of the last file it looked at and then the storage lock. */
  lemma EnoughWayOut(s: Sys, t: nat)
    requires Inv(s) && Enabled(s, Judge(t, Enough))
    ensures GoesThrough(Next(s, Judge(t, Enough)), t, [Has(Some(R), None), Has(None, None)])
  {
    var th, s' := s.threads[t], Next(s, Judge(t, Enough));
    assert Tidy(th, s.locks);
    StepInv(s, Judge(t, Enough));
    EnoughWay(th);
    hide Inv, Next, Enabled, Tidy, Disciplined;
    GoesOut(s', t);
  }

  lemma EnoughWay(th: Thread)
    requires th.rest != [] && th.rest[0].Check? && th.op.ReadN?
    requires Disciplined(th.op, th.rest, th.onStorage, th.onFile)
    ensures var rest := Concluded(th.op, th.rest, Enough);
      OnlyLetsGo(rest) && WayOf(Having(th), rest) == [Has(Some(R), None), Has(None, None)]
  {
    ShortWay(Having(th), Concluded(th.op, th.rest, Enough));
  }

  /** A thread that is inside a lock and about to let go of it can. */
  lemma LetsGoInAnyRun(s: Sys, t: nat)
    requires Sane(s) && t < |s.threads| && s.threads[t].rest != [] && s.threads[t].rest[0].Release?
    ensures Enabled(s, Run(t)) && t < |Next(s, Run(t)).threads|
    ensures Next(s, Run(t)).threads[t].rest == s.threads[t].rest[1..]
    ensures Having(Next(s, Run(t)).threads[t]) == Without(Having(s.threads[t]), s.threads[t].rest[0])
  {
    var th := s.threads[t];
    ThreadIsSane(s, t);
    AnyStorage(s);
    HolderInside(s, t, th.rest[0].lock, th.rest[0].mode);
    LockIsSane(s, th.rest[0].lock);
    assert Fits(th, t, th.rest[0].lock, s.locks[th.rest[0].lock]);
  }

  /**
   * The leaking branches: read is done, file and all; remove lets go of the file and is done; write and
   * append let go of the storage lock and then ask for the file's again.
   */
  lemma LeakedWay(s: Sys, t: nat)
    requires Sane(s) && Enabled(s, Judge(t, Leak))
    ensures var th, s' := s.threads[t], Next(s, Judge(t, Leak)); var id := th.rest[0].id;
      if th.op == Read then s'.threads[t].rest == [] && Having(s'.threads[t]) == Has(None, Some(R))
      else
        && GoesThrough(s', t, [if th.op == Remove then Has(Some(W), None) else Has(None, Some(W))])
        && LeftToDo(s', t, if th.op == Remove then [] else [Acquire(File(id), W)])
  {
    var th, s' := s.threads[t], Next(s, Judge(t, Leak));
    ThreadIsSane(s, t);
    StepSane(s, Judge(t, Leak));
    if th.op != Read {
      assert s'.threads[t].rest[0].Release?;
      hide Sane, Enabled;
      LetsGoInAnyRun(s', t);
      assert GoesThrough(Next(s', Run(t)), t, []);
    }
  }

  // ----- coming in -----

  /** Nobody is in a call on any lock. */
  ghost predicate Calm(s: Sys) {
    forall k :: k in s.locks ==> s.locks[k].waiting == map[]
  }

  /** No other thread has the lock in a mode that keeps this one out. */
  ghost predicate Free(s: Sys, u: nat, lock: LockId, m: Mode) {
    forall t: nat :: t < |s.threads| && t != u ==> !Holds(s.threads[t], lock, W) && (m == W ==> !Holds(s.threads[t], lock, R))
  }

  lemma FreeLock(s: Sys, u: nat, lock: LockId, m: Mode)
    requires Inv(s) && Calm(s) && u < |s.threads| && lock in s.locks && Free(s, u, lock, m)
    requires forall x :: !Holds(s.threads[u], lock, x)
    ensures !s.locks[lock].writerPresence && (m == W ==> s.locks[lock].readersNumber == 0)
  {
    var l := s.locks[lock];
    assert SaneLock(s, lock) && ExactLock(s, lock);
    forall t: nat | t < |s.threads| ensures l.writer != Some(t) && (m == W ==> t !in l.readers) {
      assert Exact(s.threads[t], t, lock, l);
    }
    assert forall t: nat :: L.Claims(l, t) ==> l.writer == Some(t);
    assert m == W ==> forall t :: t !in l.readers;
    assert m == W ==> l.readers == multiset{};
  }

  /** A thread takes a free lock at once. */
  lemma TakesFree(s: Sys, u: nat)
    requires Inv(s) && Calm(s) && u < |s.threads| && s.threads[u].rest != [] && s.threads[u].rest[0].Acquire?
    requires var i := s.threads[u].rest[0]; i.lock in s.locks && Free(s, u, i.lock, i.mode)
    ensures Enabled(s, Run(u)) && Calm(Next(s, Run(u)))
    ensures var th, s' := s.threads[u], Next(s, Run(u));
      s'.threads == s.threads[u := Grant(th.(rest := th.rest[1..]), th.rest[0].lock, th.rest[0].mode)] && s'.table == s.table
  {
    var th := s.threads[u];
    var lock, m := th.rest[0].lock, th.rest[0].mode;
    assert Tidy(th, s.locks);
    AcquireHoldsNot(th, lock, m);
    FreeLock(s, u, lock, m);
  }

  ghost predicate Idle(s: Sys) {
    Inv(s) && Calm(s) && forall t: nat :: t < |s.threads| ==> s.threads[t].rest == []
  }

  lemma IdleHasNothing(s: Sys, t: nat)
    requires Inv(s) && t < |s.threads| && s.threads[t].rest == []
    ensures s.threads[t].onStorage == None && s.threads[t].onFile == None
  {
    assert Tidy(s.threads[t], s.locks);
  }

  /** Alone, a thread takes its next lock or gives it back at once. */
  lemma AloneStep(s: Sys, t: nat, i: Instr, rest: seq<Instr>)
    requires Inv(s) && Calm(s) && t < |s.threads| && (forall u: nat :: u < |s.threads| && u != t ==> s.threads[u].rest == [])
    requires s.threads[t].rest == [i] + rest && i.Acquire? && i.lock.Storage? && s.threads[t].onStorage == None
    ensures Enabled(s, Run(t)) && Inv(Next(s, Run(t))) && Calm(Next(s, Run(t)))
    ensures Next(s, Run(t)).threads == s.threads[t := s.threads[t].(rest := rest, onStorage := Some(i.mode))]
  {
    forall u: nat | u < |s.threads| && u != t ensures !Holds(s.threads[u], Storage, W) && !Holds(s.threads[u], Storage, R) {
      IdleHasNothing(s, u);
    }
    AnyStorage(s);
    assert s.threads[t].rest[1..] == rest;
    TakesFree(s, t);
    hide Inv, Calm;
    StepInv(s, Run(t));
  }

  /** All but one thread are idle, and that one holds nothing of a file. */
  ghost predicate OneBusy(s: Sys, t: nat, rest: seq<Instr>, onStorage: Option<Mode>) {
    && Inv(s) && Calm(s) && t < |s.threads| && s.threads[t].rest == rest
    && s.threads[t].onStorage == onStorage && s.threads[t].onFile == None
    && forall u: nat :: u < |s.threads| && u != t ==> s.threads[u].rest == []
  }

  lemma TakesStorage(s: Sys, t: nat, m: Mode, rest: seq<Instr>)
    requires OneBusy(s, t, [Acquire(Storage, m)] + rest, None)
    ensures Enabled(s, Run(t)) && OneBusy(Next(s, Run(t)), t, rest, Some(m))
    ensures t < |Next(s, Run(t)).threads| && Having(Next(s, Run(t)).threads[t]) == Has(Some(m), None)
  {
    AloneStep(s, t, Acquire(Storage, m), rest);
    hide Inv, Calm, Next, Enabled;
  }

  lemma GivesStorage(s: Sys, t: nat, rest: seq<Instr>)
    requires OneBusy(s, t, [Release(Storage, W)] + rest, Some(W))
    ensures Enabled(s, Run(t)) && OneBusy(Next(s, Run(t)), t, rest, None)
    ensures t < |Next(s, Run(t)).threads| && Having(Next(s, Run(t)).threads[t]) == Has(None, None)
  {
    ReleaseAlone(s, t, rest);
    hide Inv, Calm, Next, Enabled;
  }

  lemma RequestAlone(s: Sys, t: nat, op: Op)
    requires Idle(s) && t < |s.threads|
    ensures Enabled(s, Request(t, op)) && OneBusy(Next(s, Request(t, op)), t, Start(op), None)
  {
    hide Inv;
    StepInv(s, Request(t, op));
  }

  lemma InAndOutAndIn(s: Sys, t: nat, rest: seq<Instr>)
    requires OneBusy(s, t, [Acquire(Storage, W)] + ([Release(Storage, W)] + ([Acquire(Storage, R)] + rest)), None)
    ensures GoesThrough(s, t, [Has(Some(W), None), Has(None, None), Has(Some(R), None)])
  {
    hide OneBusy, Next, Enabled, Having;
    TakesStorage(s, t, W, [Release(Storage, W)] + ([Acquire(Storage, R)] + rest));
    var s2 := Next(s, Run(t));
    GivesStorage(s2, t, [Acquire(Storage, R)] + rest);
    var s3 := Next(s2, Run(t));
    TakesStorage(s3, t, R, rest);
    ThreeSteps(s, t, s2, s3, Next(s3, Run(t)), [Has(Some(W), None), Has(None, None), Has(Some(R), None)]);
  }

  lemma ComesIn(s: Sys, t: nat, m: Mode, rest: seq<Instr>)
    requires OneBusy(s, t, [Acquire(Storage, m)] + rest, None)
    ensures GoesThrough(s, t, [Has(Some(m), None)])
  {
    hide OneBusy, Next, Enabled, Having;
    TakesStorage(s, t, m, rest);
    assert GoesThrough(Next(s, Run(t)), t, []);
  }

  /**
   * A request on an idle system comes in so: those that may change the storage are inside its lock alone, the
   * others as readers; but open of an existing file has been inside alone, and out again, before that.
   */
  lemma EntersWay(s: Sys, t: nat, op: Op)
    requires Idle(s) && t < |s.threads|
    ensures Enabled(s, Request(t, op))
    ensures GoesThrough(Next(s, Request(t, op)), t,
      if op == OpenExisting then [Has(Some(W), None), Has(None, None), Has(Some(R), None)]
      else if ChangesStorage(op) then [Has(Some(W), None)]
      else [Has(Some(R), None)])
    ensures |Start(op)| == (if op == OpenExisting then 4 else 2) && Start(op)[|Start(op)| - 1] == Lookup
  {
    hide Idle, OneBusy, Next, Enabled, GoesThrough;
    RequestAlone(s, t, op);
    if op == OpenExisting {
      assert Start(op) == [Acquire(Storage, W)] + ([Release(Storage, W)] + ([Acquire(Storage, R)] + [Lookup]));
      InAndOutAndIn(Next(s, Request(t, op)), t, [Lookup]);
    } else {
      assert Start(op) == [Acquire(Storage, LookupMode(op))] + [Lookup];
      ComesIn(Next(s, Request(t, op)), t, LookupMode(op), [Lookup]);
    }
  }

  lemma ReleaseAlone(s: Sys, t: nat, rest: seq<Instr>)
    requires Inv(s) && Calm(s) && t < |s.threads| && s.threads[t].rest == [Release(Storage, W)] + rest
    ensures Enabled(s, Run(t)) && Inv(Next(s, Run(t))) && Calm(Next(s, Run(t)))
    ensures Next(s, Run(t)).threads == s.threads[t := s.threads[t].(rest := rest, onStorage := None)]
  {
    LetsGo(s, t);
    assert s.threads[t].rest[1..] == rest;
    hide Inv;
  }

  lemma ThreeSteps(s1: Sys, t: nat, s2: Sys, s3: Sys, s4: Sys, way: seq<Has>)
    requires |way| == 3 && Enabled(s1, Run(t)) && s2 == Next(s1, Run(t)) && Enabled(s2, Run(t)) && s3 == Next(s2, Run(t))
    requires Enabled(s3, Run(t)) && s4 == Next(s3, Run(t)) && t < |s2.threads| && t < |s3.threads| && t < |s4.threads|
    requires Having(s2.threads[t]) == way[0] && Having(s3.threads[t]) == way[1] && Having(s4.threads[t]) == way[2]
    ensures GoesThrough(s1, t, way)
  {
    hide Next, Enabled;
    assert GoesThrough(s4, t, way[1..][1..][1..]);
    assert GoesThrough(s3, t, way[1..][1..]);
    assert GoesThrough(s2, t, way[1..]);
  }
}
