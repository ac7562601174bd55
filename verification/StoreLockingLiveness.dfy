/** When workers on one store can always go on, when an eviction pulls a file from under one, and when one must stop for ever. */
module StoreLockingLiveness {
  import opened Bytes
  import opened LockGuards
  import opened StoreMoments
  import opened StoreLocking
  import opened StoreLockingTheorems
  import opened LockProtocolProofs
  import S = StorageSpec
  import SI = StorageInvariant
  import P = LockProtocol
  import D = LockDiscipline
  import T = LockProtocolTheorems
  import L = LockerSpec
  import LL = LockLeaks

  // ----- undefined behaviour -----

  /** The worker is about to ask an empty queue for a victim, or to append to a file it evicts. */
  predicate AtUndefined(j: Joint, t: nat) {
    AtAct(j, t) && !Doable(j.store, j.events[t])
  }

  /** The worker is about to evict a file another worker still uses. */
  predicate AtUnsafe(j: Joint, t: nat) {
    AtAct(j, t) && Doable(j.store, j.events[t]) && exists id :: id in Freeing(j, j.events[t]) && P.UsedByOther(j.sys, t, id)
  }

  /** Without leaks an eviction is unsafe exactly when some other worker is inside a victim's lock. */
  lemma UnsafeIff(j: Joint, t: nat)
    requires Sound(j) && D.Inv(j.sys) && AtAct(j, t) && Doable(j.store, j.events[t])
    ensures AtUnsafe(j, t) <==>
      exists id, u, m :: id in Freeing(j, j.events[t]) && P.File(id) in j.sys.locks && u != t && In(j.sys.locks[P.File(id)], u, m)
  {
    SoundParts(j, t);
    ActHolds(j, t);
    ActingThread(j.sys.threads[t], j.sys.locks);
    forall id | id in Freeing(j, j.events[t])
      ensures P.File(id) in j.sys.locks
      ensures P.UsedByOther(j.sys, t, id) <==> exists u, m :: u != t && In(j.sys.locks[P.File(id)], u, m)
    {
      FreeingHolds(j, t, id);
      D.UsedIffInside(j.sys, t, id);
    }
  }

  lemma GoneInTable(s: S.Store, s': S.Store, ids: map<string, nat>, table: set<nat>)
    requires Linked(s, ids, table)
    ensures LocksGone(ids, s, s') <= table
  {
  }

  lemma FreeingHolds(j: Joint, t: nat, id: nat)
    requires Sound(j) && AtAct(j, t) && id in Freeing(j, j.events[t])
    ensures P.File(id) in j.sys.locks && id in j.sys.table && j.sys.threads[t].onStorage == Some(P.W)
    ensures j.events[t].request.Write? || j.events[t].request.Append?
    ensures j.sys.threads[t].op == OpOf(j.events[t].request)
  {
    hide Acted, Sound, Sane, Linked, LocksGone, P.HeldThen;
    ActFacts(j, t);
    WriterHeld(j.events[t].request);
    GoneInTable(j.store, Acted(j.store, j.events[t]).store, j.ids, j.sys.table);
    TableLocked(j.sys, id);
  }

  lemma WriterHeld(r: S.Request)
    ensures r.Write? || r.Append? ==> P.HeldThen(OpOf(r)) == Some(P.W)
  {
  }

  lemma ActFacts(j: Joint, t: nat)
    requires Sound(j) && AtAct(j, t)
    ensures j.sys.threads[t].op == OpOf(j.events[t].request) && j.sys.threads[t].onStorage == P.HeldThen(j.sys.threads[t].op)
    ensures Linked(j.store, j.ids, j.sys.table) && Sane(j.sys)
  {
    SoundParts(j, t);
    ActKnown(j, t);
    hide Acted, VerdictOf, SI.Inv, Placed, Sound, Sane, Linked, OnWay, Knows, Exclusive, P.HeldThen, FindsFile;
    ActingThread(j.sys.threads[t], j.sys.locks);
  }

  lemma TableLocked(s: P.Sys, id: nat)
    requires Sane(s) && id in s.table
    ensures P.File(id) in s.locks
  {
  }

  // ----- who can step -----

  ghost predicate CanStep(j: Joint, t: nat) {
    Enabled(j, Lock(t)) || (exists id, now :: Enabled(j, Turn(t, id, now)))
  }

  /** A finite table leaves some number free. */
  lemma {:induction false} FreeId(taken: set<nat>) returns (id: nat)
    ensures forall k :: k in taken ==> k < id
    decreases taken
  {
    if taken == {} { return 0; }
    var k :| k in taken;
    var rest := FreeId(taken - {k});
    id := if rest > k then rest else k + 1;
    assert forall x :: x in taken ==> x == k || x in taken - {k};
  }

  lemma FreshLock(locks: map<P.LockId, L.State>) returns (id: nat)
    ensures P.File(id) !in locks
  {
    var files := set k | k in locks && k.File?;
    var taken := set k | k in files :: k.id;
    id := FreeId(taken);
    forall k | k in locks ensures k != P.File(id) {
      if k.File? { assert k in files && k.id in taken; }
    }
  }

  lemma LookupCanTurn(j: Joint, t: nat) returns (id: nat)
    requires Sound(j) && t < |j.sys.threads| && j.sys.threads[t].rest == [P.Lookup]
    ensures AtLookup(j, t) && Enabled(j, Turn(t, id, j.events[t].now))
  {
    SoundParts(j, t);
    id := FreshLock(j.sys.locks);
    assert AtLookup(j, t) && Busy(j, t);
    var e, a := j.events[t], Turn(t, id, j.events[t].now);
    assert EventAt(j, a) == e;
    BranchPossible(j.store, j.ids, e, id, j.sys.table);
    hide S.Step, Sane, Sound, SI.Inv, Linked, Placed, P.InTable, P.Possible;
    assert BranchOf(j.store, j.ids, e, id).Created? ==> BranchOf(j.store, j.ids, e, id).id == id;
    hide BranchOf;
    assert P.Enabled(j.sys, P.Step.Branch(t, Branching(j, a)));
  }

  lemma CheckIs(j: Joint, t: nat)
    requires Sound(j) && t < |j.sys.threads| && j.sys.threads[t].rest != [] && j.sys.threads[t].rest[0].Check?
    ensures (AtGlance(j, t) || AtCheck(j, t)) && !AtLookup(j, t) && Busy(j, t)
  {
    SoundParts(j, t);
    var th := j.sys.threads[t];
    hide Sane, Sound, SI.Inv, Linked, VerdictOf, Acted, OnWay, TourShape, P.Scripted;
    if j.events[t].request.ReadN? {
      AtFile(j, t);
    } else {
      var id := th.rest[0].id;
      assert P.Check(id) in th.rest && Pending(th.rest, id) && Knows(j, t, id);
    }
  }

  lemma CheckCanTurn(j: Joint, t: nat)
    requires Sound(j) && t < |j.sys.threads| && j.sys.threads[t].rest != [] && j.sys.threads[t].rest[0].Check?
    ensures AtGlance(j, t) || AtCheck(j, t)
    ensures t in j.events && Enabled(j, Turn(t, 0, j.events[t].now))
  {
    CheckIs(j, t);
    var a := Turn(t, 0, j.events[t].now);
    hide Sound, P.Enabled, P.PossibleVerdict;
    CheckIsJudge(j, a);
    JudgeCan(j.sys, t, LockSide(j, a).verdict);
  }

  lemma CheckIsJudge(j: Joint, a: Step)
    requires a.Turn? && !AtLookup(j, a.t) && (AtGlance(j, a.t) || AtCheck(j, a.t)) && Busy(j, a.t)
    ensures WellFormed(j, a) && LockSide(j, a).Judge? && LockSide(j, a).t == a.t
    ensures P.PossibleVerdict(j.sys.threads[a.t].op, LockSide(j, a).verdict)
  {
    hide VerdictOf, Acted, Ahead, Advance, GlanceAt, BranchOf, Freeing;
    if !AtGlance(j, a.t) {
      VerdictTimeless(j.store, j.events[a.t], a.now);
      VerdictPossible(j.store, EventAt(j, a));
    }
  }

  lemma JudgeCan(s: P.Sys, t: nat, v: P.Verdict)
    requires t < |s.threads| && s.threads[t].rest != [] && s.threads[t].rest[0].Check? && P.PossibleVerdict(s.threads[t].op, v)
    ensures P.Enabled(s, P.Judge(t, v))
  {
  }

  lemma VerdictPossible(s: S.Store, e: S.Event)
    requires FindsFile(s, e)
    ensures P.PossibleVerdict(OpOf(e.request), VerdictOf(s, e))
  {
    VerdictLeaksIff(s, e);
    VerdictNever(s, e);
  }

  lemma AtActIs(j: Joint, t: nat)
    requires Sound(j) && t < |j.sys.threads| && j.sys.threads[t].rest != [] && j.sys.threads[t].rest[0].Act?
    ensures AtAct(j, t)
  {
    SoundParts(j, t);
    var rest := j.sys.threads[t].rest;
    assert Busy(j, t);
    hide Sane, Sound, SI.Inv, Linked, VerdictOf, Acted, OnWay;
    if j.events[t].request.ReadN? && t in j.tours { VisitPlain(IdsOf(j.ids, Ahead(j.tours[t]))); }
    assert P.Act(rest[0].id) in rest && Pending(rest, rest[0].id);
  }

  lemma EffectCan(s: P.Sys, t: nat, gone: set<nat>)
    requires t < |s.threads| && s.threads[t].rest != [] && s.threads[t].rest[0].Act? && s.threads[t].rest[0].id !in gone
    requires gone <= s.table && (gone != {} ==> s.threads[t].op.Write? || s.threads[t].op.Append?)
    requires forall id :: id in gone ==> !P.UsedByOther(s, t, id)
    ensures P.Enabled(s, P.Effect(t, gone))
  {
  }

  lemma ActCanTurn(j: Joint, t: nat)
    requires Sound(j) && AtAct(j, t) && Doable(j.store, j.events[t]) && !AtUnsafe(j, t)
    ensures Enabled(j, Turn(t, 0, j.events[t].now))
  {
    hide Acted, Doable, P.UsedByOther, P.Enabled, Sound, Freeing, FindsFile;
    var gone, a := Freeing(j, j.events[t]), Turn(t, 0, j.events[t].now);
    assert EventAt(j, a) == j.events[t];
    forall id | id in gone
      ensures id in j.sys.table && (j.sys.threads[t].op.Write? || j.sys.threads[t].op.Append?)
    {
      FreeingHolds(j, t, id);
    }
    OwnStays(j, t);
    EffectCan(j.sys, t, gone);
    ActIsEffect(j, a);
  }

  lemma ActIsEffect(j: Joint, a: Step)
    requires a.Turn? && AtAct(j, a.t) && Doable(j.store, EventAt(j, a))
    ensures WellFormed(j, a) && LockSide(j, a) == P.Effect(a.t, Freeing(j, EventAt(j, a)))
  {
    hide Acted, FindsFile;
  }

  /** What makes room never takes the file it makes room for. */
  lemma OwnStays(j: Joint, t: nat)
    requires Sound(j) && AtAct(j, t) && Doable(j.store, j.events[t])
    ensures j.sys.threads[t].rest[0].id !in Freeing(j, j.events[t])
  {
    SoundParts(j, t);
    ActKnown(j, t);
    var e := j.events[t];
    ActStore(j, Turn(t, 0, e.now));
    hide Acted, VerdictOf, Placed, Sound, Sane, OnWay, S.Step;
    assert EventAt(j, Turn(t, 0, e.now)) == e;
    ActedOnOthers(j.store, e, e.request.name);
    hide SI.Inv;
  }

  lemma StepMeansCan(j: Joint, a: Step)
    requires Enabled(j, a) && (a.Lock? || a.Turn?)
    ensures CanStep(j, a.t)
  {
  }

  lemma LookupAlone(j: Joint, t: nat)
    requires Sound(j) && t < |j.sys.threads| && j.sys.threads[t].rest != [] && j.sys.threads[t].rest[0].Lookup?
    ensures j.sys.threads[t].rest == [P.Lookup]
  {
    SoundParts(j, t);
  }

  /** A worker that waits for no lock can go on, or is about to run into undefined behaviour. */
  lemma GoingCanStep(j: Joint, t: nat)
    requires Sound(j) && T.CanGo(j.sys, t)
    ensures CanStep(j, t) || AtUndefined(j, t) || AtUnsafe(j, t)
  {
    hide Sound, CanStep;
    if P.Enabled(j.sys, P.Run(t)) {
      assert LockSide(j, Lock(t)) == P.Run(t);
      assert Enabled(j, Lock(t));
      StepMeansCan(j, Lock(t));
    } else if j.sys.threads[t].rest[0].Lookup? {
      LookupAlone(j, t);
      var id := LookupCanTurn(j, t);
      StepMeansCan(j, Turn(t, id, j.events[t].now));
    } else if j.sys.threads[t].rest[0].Check? {
      CheckCanTurn(j, t);
      StepMeansCan(j, Turn(t, 0, j.events[t].now));
    } else {
      AtActIs(j, t);
      if !AtUndefined(j, t) && !AtUnsafe(j, t) {
        ActCanTurn(j, t);
        StepMeansCan(j, Turn(t, 0, j.events[t].now));
      }
    }
  }

  // ----- deadlock freedom -----

  /** The worker using a file another is about to evict has its lock, waits for nothing and evicts nothing. */
  lemma UserCanGo(j: Joint, t: nat) returns (u: nat)
    requires Sound(j) && D.Inv(j.sys) && AtUnsafe(j, t)
    ensures T.CanGo(j.sys, u) && !AtUnsafe(j, u)
  {
    var id :| id in Freeing(j, j.events[t]) && P.UsedByOther(j.sys, t, id);
    hide Sound, D.Inv, Freeing, Doable, P.UsedByOther, P.Enabled;
    FreeingHolds(j, t, id);
    u := UserInside(j.sys, t, id);
    T.FileHolderNotBlocked(j.sys, u);
    T.AwakeCanGo(j.sys, u);
    forall k | AtAct(j, u) && k in Freeing(j, j.events[u]) ensures false { FreeingHolds(j, u, k); }
  }

  /** Beside a thread that has the storage lock for writing, another uses a file only by holding its lock. */
  lemma UserInside(s: P.Sys, t: nat, id: nat) returns (u: nat)
    requires D.Inv(s) && t < |s.threads| && s.threads[t].onStorage == Some(P.W) && P.File(id) in s.locks
    requires P.UsedByOther(s, t, id)
    ensures u < |s.threads| && u != t && s.threads[u].onFile != None && s.threads[u].onStorage == None
  {
    u :| 0 <= u < |s.threads| && u != t && P.Refers(s.threads[u], id);
    var th := s.threads[u];
    AnyStorage(s);
    HolderInside(s, t, P.Storage, P.W);
    NoOneHolds(s, t, P.Storage, u);
    assert D.Tidy(th, s.locks);
    if i :| 0 <= i < |th.rest| && P.NamesFile(th.rest[i], id) {
      P.FilesUnderStorageLock(th.op, th.rest, th.onFile, i, id);
    }
  }

  /** Some worker can step or has reached a request that is undefined: an unsafe eviction can wait for the file's user. */
  lemma SomeoneCan(j: Joint, t: nat) returns (u: nat)
    requires Sound(j) && D.Inv(j.sys) && T.CanGo(j.sys, t)
    ensures CanStep(j, u) || AtUndefined(j, u)
  {
    GoingCanStep(j, t);
    u := t;
    if AtUnsafe(j, t) {
      u := UserCanGo(j, t);
      GoingCanStep(j, u);
    }
  }

  /**
   * Deadlock freedom: as long as no request's turn has come on a store where it leaks, whenever some
   * operation is unfinished some worker can step, or has reached a request that is undefined.
   */
  lemma DeadlockFree(workers: nat, maxFiles: int, maxMB: nat, repPolicy: int, run: seq<Step>, t: nat)
    requires maxFiles > 0 && 0 < maxMB < S.U63
    requires var j := Init(workers, maxFiles, maxMB, repPolicy);
      && Valid(j, run) && !LeaksSomewhere(j, run)
      && t < |After(j, run).sys.threads| && After(j, run).sys.threads[t].rest != []
    ensures var j := After(Init(workers, maxFiles, maxMB, repPolicy), run);
      exists u :: CanStep(j, u) || AtUndefined(j, u)
  {
    var j0 := Init(workers, maxFiles, maxMB, repPolicy);
    InitSound(workers, maxFiles, maxMB, repPolicy);
    D.InitInv(workers);
    RunInv(j0, run);
    var j := After(j0, run);
    T.Progress(j.sys, t);
    var u :| T.CanGo(j.sys, u);
    var v := SomeoneCan(j, u);
  }

  // ----- completion -----

  /** A request's turn has come and the code leaks or is undefined. */
  predicate AtFault(j: Joint, t: nat) {
    AtUndefined(j, t) || (AtCheck(j, t) && LeaksOn(j.store, j.events[t]))
  }

  predicate Own(a: Step) {
    a.Lock? || a.Turn?
  }

  lemma OwnAdvances(j: Joint, a: Step)
    requires Sound(j) && Enabled(j, a) && Own(a)
    ensures T.Closer(Next(j, a).sys, j.sys)
  {
    hide S.Step, Acted, VerdictOf, BranchOf, P.Next, P.Enabled, SI.Inv, Linked, Placed, Exclusive, Sane;
    assert T.Productive(LockSide(j, a));
    T.EveryStepAdvances(j.sys, LockSide(j, a));
  }

  lemma SomeStep(j: Joint) returns (a: Step)
    requires Sound(j) && D.Inv(j.sys) && !T.Finished(j.sys) && forall t :: !AtFault(j, t)
    ensures Enabled(j, a) && Own(a) && !LeaksAt(j, a)
  {
    var t: nat :| t < |j.sys.threads| && j.sys.threads[t].rest != [];
    T.Progress(j.sys, t);
    hide S.Step, D.Inv, P.Next, Sound, P.Enabled, T.CanGo, LockSide, Acted, VerdictOf, LeaksOn, Doable, FindsFile;
    var g: nat :| T.CanGo(j.sys, g);
    var u := SomeoneCan(j, g);
    assert !AtFault(j, u);
    if Enabled(j, Lock(u)) {
      a := Lock(u);
    } else {
      var id, now :| Enabled(j, Turn(u, id, now));
      a := Turn(u, id, now);
    }
  }

  ghost predicate OwnSteps(run: seq<Step>) {
    forall i :: 0 <= i < |run| ==> Own(run[i])
  }

  lemma Prepend(j: Joint, a: Step, more: seq<Step>)
    requires Enabled(j, a) && Valid(Next(j, a), more) && OwnSteps(more) && Own(a)
    requires !LeaksAt(j, a) && !LeaksSomewhere(Next(j, a), more)
    ensures Valid(j, [a] + more) && After(j, [a] + more) == After(Next(j, a), more) && OwnSteps([a] + more)
    ensures !LeaksSomewhere(j, [a] + more)
  {
    hide S.Step, P.Next, Enabled, Next, LeaksAt;
    assert ([a] + more)[1..] == more;
  }

  /**
   * From every state reached without a leak all operations can be run to their end, with no file evicted
   * under a worker, unless the turn comes of a request that leaks or is undefined on the store of that moment.
   */
  lemma {:induction false} AllFinish(j: Joint) returns (run: seq<Step>)
    requires Sound(j) && D.Inv(j.sys)
    ensures Valid(j, run) && OwnSteps(run) && !LeaksSomewhere(j, run)
    ensures T.Finished(After(j, run).sys) || exists t :: AtFault(After(j, run), t)
    decreases T.Decisions(j.sys), T.Instrs(j.sys), T.AwakeCount(j.sys)
  {
    if T.Finished(j.sys) || exists t :: AtFault(j, t) { return []; }
    var a := SomeStep(j);
    StepKeeps(j, a);
    OwnAdvances(j, a);
    hide Sound, D.Inv, Enabled, Next, LeaksAt;
    var more := AllFinish(Next(j, a));
    Prepend(j, a, more);
    run := [a] + more;
  }

  // ----- the other half -----

  /** A client's leaked read stays in an empty file, which nobody can write to, remove or evict. */
  ghost predicate EmptyLeft(j: Joint, t: nat, id: nat, name: string) {
    LL.LeftIn(j.sys, t, id) && name in j.store.files && IdOf(j.ids, name) == id && j.store.files[name].size == 0
  }

  /** Whose turn it is to act is not on the empty file, unless it only reads, opens, locks, unlocks or closes it. */
  lemma EmptyActed(j: Joint, a: Step, t: nat, id: nat, name: string)
    requires Sound(j) && a.Turn? && AtAct(j, a.t) && Doable(j.store, EventAt(j, a)) && EmptyLeft(j, t, id, name)
    ensures name in Acted(j.store, EventAt(j, a)).store.files && Acted(j.store, EventAt(j, a)).store.files[name].size == 0
  {
    var e := EventAt(j, a);
    SoundParts(j, a.t);
    ActStore(j, a);
    hide S.Step, Sound, VerdictOf, Acted, Sane, Placed, Linked, Exclusive, LL.Pending;
    if e.request.name != name {
      EmptyKept(j.store, e, name);
    } else {
      EmptyNotWritten(j, a, t, id);
      OwnKept(j.store, e);
    }
  }

  /** The left reader keeps those out who would write, append to or remove the file. */
  lemma EmptyNotWritten(j: Joint, a: Step, t: nat, id: nat)
    requires Sound(j) && a.Turn? && AtAct(j, a.t) && LL.LeftIn(j.sys, t, id)
    requires IdOf(j.ids, j.events[a.t].request.name) == id
    ensures P.LookupMode(OpOf(j.events[a.t].request)) == P.R
  {
    SoundParts(j, a.t);
    ActHolds(j, a.t);
    LockIsSane(j.sys, P.File(id));
    LL.ReadersStopWriters(j.sys.locks[P.File(id)], t);
    hide Sound, Sane, SI.Inv, VerdictOf, OnWay, FindsFile, Exclusive, Linked, L.Inv;
  }

  lemma NotEvicted(j: Joint, a: Step, t: nat, id: nat, name: string)
    requires Sound(j) && Enabled(j, a) && EmptyLeft(j, t, id, name)
    ensures !LL.Evicts(LockSide(j, a), P.File(id))
  {
    hide Acted, Sound, Sane, SI.Inv, VerdictOf, Exclusive, Placed, LL.LeftIn, P.Enabled, Doable;
    if ActsNow(j, a) {
      SoundParts(j, a.t);
      EmptyActed(j, a, t, id, name);
    }
  }

  /** A file keeps its lock as long as it is there. */
  lemma IdKept(j: Joint, a: Step, name: string)
    requires Enabled(j, a) && name in j.store.files
    ensures IdOf(Next(j, a).ids, name) == IdOf(j.ids, name)
  {
    hide S.Step, Acted, VerdictOf, P.Next, P.Enabled, Freeing, FindsFile, Answer, StoreAfter, ToursAfter;
  }

  lemma LookupKept(j: Joint, a: Step, name: string)
    requires Sound(j) && Enabled(j, a) && a.Turn? && AtLookup(j, a.t) && name in j.store.files
    ensures name in StoreAfter(j, a).files && StoreAfter(j, a).files[name] == j.store.files[name]
  {
    SoundParts(j, a.t);
    assert TakesLocks(EventAt(j, a).request);
    hide Sound, Sane, SI.Inv, P.Next, P.Enabled, S.Step, Linked, Exclusive, Placed, LockSide, FindsFile, BranchOf, TakesLocks;
    if ItemOf(j, a).Some? { LookupAnswers(j.store, j.ids, EventAt(j, a), a.freshId); }
  }

  lemma StaysEmpty(j: Joint, a: Step, t: nat, id: nat, name: string)
    requires Sound(j) && Enabled(j, a) && EmptyLeft(j, t, id, name)
    ensures name in StoreAfter(j, a).files && StoreAfter(j, a).files[name].size == 0
  {
    hide Sound, Acted, S.Step, LL.LeftIn, VerdictOf, Exclusive, Doable, LockSide, P.Enabled, FindsFile, BranchOf;
    if ActsNow(j, a) {
      EmptyActed(j, a, t, id, name);
    } else if a.Turn? && AtLookup(j, a.t) {
      LookupKept(j, a, name);
    } else if a.Turn? && AtGlance(j, a.t) {
      GlanceUpto(j.store, GlanceAt(j, a));
    }
  }

  lemma EmptyStep(j: Joint, a: Step, t: nat, id: nat, name: string)
    requires Sound(j) && Enabled(j, a) && EmptyLeft(j, t, id, name)
    ensures EmptyLeft(Next(j, a), t, id, name) && !LL.Evicts(LockSide(j, a), P.File(id))
  {
    NotEvicted(j, a, t, id, name);
    SoundParts(j, t);
    StaysEmpty(j, a, t, id, name);
    IdKept(j, a, name);
    hide Sound, Sane, SI.Inv, P.Next, P.Enabled, LL.LeftIn, Linked, Exclusive, Placed, LockSide, StoreAfter, WellFormed, ToursAfter;
    LL.LeftInStep(j.sys, t, id, LockSide(j, a));
  }

  lemma SparedCons(a: P.Step, rest: seq<P.Step>, id: nat)
    requires !LL.Evicts(a, P.File(id)) && LL.Spared(rest, id)
    ensures LL.Spared([a] + rest, id)
  {
  }

  lemma {:induction false} EmptyRun(j: Joint, run: seq<Step>, t: nat, id: nat, name: string)
    requires Sound(j) && Valid(j, run) && EmptyLeft(j, t, id, name)
    ensures LL.Spared(Sides(j, run), id)
    decreases |run|
  {
    if run != [] {
      hide Sound, EmptyLeft, Enabled, Next, LockSide, LL.Spared;
      EmptyStep(j, run[0], t, id, name);
      StepSound(j, run[0]);
      EmptyRun(Next(j, run[0]), run[1..], t, id, name);
      SparedCons(LockSide(j, run[0]), Sides(Next(j, run[0]), run[1..]), id);
    } else {
      assert Sides(j, run) == [];
    }
  }

  lemma LeakTurn(j: Joint, a: Step)
    requires Sound(j) && Enabled(j, a) && LeaksAt(j, a)
    ensures LockSide(j, a) == P.Judge(a.t, P.Leak) && j.sys.threads[a.t].rest == [P.Check(j.sys.threads[a.t].rest[0].id)]
    ensures Next(j, a).sys == P.Next(j.sys, LockSide(j, a)) && Next(j, a).store == j.store && Next(j, a).ids == j.ids
    ensures j.sys.threads[a.t].op == OpOf(j.events[a.t].request)
    ensures IdOf(j.ids, j.events[a.t].request.name) == j.sys.threads[a.t].rest[0].id
  {
    hide Sane, SI.Inv, P.Next, P.Enabled, Acted, S.Step, VerdictOf, LeaksOn, Linked, Exclusive, OnWay, Touring;
    LeaksAtIff(j, a);
    SoundParts(j, a.t);
    hide Sound;
    CheckRest(j, a.t);
    var rest := j.sys.threads[a.t].rest;
    assert P.Check(rest[0].id) in rest && Pending(rest, rest[0].id) && Knows(j, a.t, rest[0].id);
  }

  /**
   * A request whose turn comes on a store where it leaks: whatever the workers do from then on,
   * this worker is inside some lock for ever.
   */
  lemma LeakIsForEver(j: Joint, a: Step, run: seq<Step>)
    requires Sound(j) && Enabled(j, a) && LeaksAt(j, a) && Valid(Next(j, a), run)
    ensures LL.InsideSome(After(Next(j, a), run).sys, a.t)
  {
    LeakTurn(j, a);
    SidesFollow(Next(j, a), run);
    SoundParts(j, a.t);
    StepSound(j, a);
    var id, name := j.sys.threads[a.t].rest[0].id, j.events[a.t].request.name;
    hide Sound, SI.Inv, P.Next, Acted, S.Step, VerdictOf, Linked, Exclusive, Placed, LockSide, Next, Enabled;
    if j.sys.threads[a.t].op.Read? {
      LL.ReadLeakKeepsReader(j.sys, a.t, id);
      assert EmptyLeft(Next(j, a), a.t, id, name);
      EmptyRun(Next(j, a), run, a.t, id, name);
    }
    LL.LeakIsForEver(j.sys, a.t, id, Sides(Next(j, a), run));
  }

  /**
   * A worker gives back every lock its request takes exactly when the request does not leak on the
   * store it is checked on: then it is inside no lock whenever it is done, in every run without another
   * leak; otherwise it is inside one for ever.
   */
  lemma GivesBackIff(j: Joint, a: Step, j': Joint, run: seq<Step>, end: Joint)
    requires Sound(j) && D.Inv(j.sys) && Enabled(j, a) && a.Turn? && AtCheck(j, a.t) && j' == Next(j, a)
    requires Valid(j', run) && !LeaksSomewhere(j', run) && end == After(j', run)
    requires a.t < |end.sys.threads| && end.sys.threads[a.t].rest == []
    ensures !LL.InsideSome(end.sys, a.t) <==> !LeaksAt(j, a)
  {
    if LeaksAt(j, a) {
      LeakIsForEver(j, a, run);
    } else {
      StepKeeps(j, a);
      hide S.Step, Sound, D.Inv, Enabled, Next, LeaksAt;
      RunInv(j', run);
      LL.CleanWhenDone(end.sys, a.t);
    }
  }
}
