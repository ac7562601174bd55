/** Two runs of two workers: a readN that no moment explains, and an eviction of a file another worker is reading. */
module StoreLockingFailures {
  import opened Bytes
  import opened LockGuards
  import opened StoreMoments
  import opened StoreLocking
  import opened StoreLockingTheorems
  import opened StoreLockingLiveness
  import opened StoreLockingRuns
  import opened LockFootprints
  import S = StorageSpec
  import SF = StorageFailures
  import P = LockProtocol
  import D = LockDiscipline

  // ----- one turn at a time -----

  /** The worker finds its file. */
  lemma Finds(j: Joint, u: nat) returns (j': Joint)
    requires Steadily(j) && u < |j.sys.threads| && j.sys.threads[u].rest == [P.Lookup]
    requires u in j.events && FindsFile(j.store, j.events[u])
    ensures Reaches(j, [], j') && Leads(j, j', u) && j'.store == j.store && j'.ids == j.ids
    ensures var th := j.sys.threads[u];
      j'.sys.threads[u] == th.(rest := P.Continue(th.op, P.Found(IdOf(j.ids, j.events[u].request.name))))
  {
    var id := LookupCanTurn(j, u);
    var a := Turn(u, id, j.events[u].now);
    assert EventAt(j, a) == j.events[u];
    j' := Next(j, a);
    OneStep(j, a);
    assert Branching(j, a) == P.Found(IdOf(j.ids, j.events[u].request.name));
    BranchSide(j, a);
    SetOffLeaves(j, a);
    hide Sound, D.Inv, P.Next, P.Enabled, S.Step, Reaches, Acted, VerdictOf, BranchOf, Calm, P.Continue;
    TurnLeads(j, a);
  }

  /** The worker is granted what it came for. */
  lemma Grants(j: Joint, u: nat, id: nat) returns (j': Joint)
    requires Steadily(j) && u < |j.sys.threads| && j.sys.threads[u].rest == [P.Check(id)]
    requires u in j.events && FindsFile(j.store, j.events[u]) && VerdictOf(j.store, j.events[u]).Granted?
    ensures Reaches(j, [], j') && Leads(j, j', u) && j'.store == j.store && j'.ids == j.ids
    ensures var th := j.sys.threads[u]; j'.sys.threads[u] == th.(rest := P.Conclude(th.op, id, P.Granted))
  {
    var a := Turn(u, 0, j.events[u].now);
    CheckCanTurn(j, u);
    assert EventAt(j, a) == j.events[u] && AtCheck(j, u) && !AtLookup(j, u) && !AtGlance(j, u);
    j' := Next(j, a);
    OneStep(j, a);
    JudgeSide(j, a);
    CheckSide(j, a);
    LeaksAtIff(j, a);
    hide Sound, D.Inv, P.Next, P.Enabled, S.Step, Reaches, Acted, BranchOf, Calm, P.Conclude, LeaksOn, VerdictOf, FindsFile;
    TurnLeads(j, a);
  }

  /** A worker that reads alone, up to its check: it has the file's lock and has let go of the storage. */
  lemma ReadsUpToCheck(j: Joint, u: nat, e: S.Event) returns (j': Joint, id: nat)
    requires AllIdle(j) && u < |j.sys.threads| && e.request.Read? && FindsFile(j.store, e) && TakesLocks(e.request)
    ensures Reaches(j, [], j') && Steadily(j') && j'.store == j.store && j'.ids == j.ids && id == IdOf(j.ids, e.request.name)
    ensures |j'.sys.threads| == |j.sys.threads| && j'.events == j.events[u := e]
    ensures j'.sys.threads[u] == P.Thread(P.Read, [P.Check(id)], None, Some((id, P.R)))
    ensures forall t: nat :: t < |j.sys.threads| && t != u ==> j'.sys.threads[t] == j.sys.threads[t]
  {
    hide Sound, D.Inv, Calm, P.Next, P.Enabled, Next, Enabled, Reaches, S.Step;
    forall t: nat | t < |j.sys.threads| ensures j.sys.threads[t].onStorage == None && j.sys.threads[t].onFile == None {
      IdleHoldsNothing(j, t);
    }
    hide Steadily;
    var j1 := Begins(j, u, e);
    var j2 := SoloLock(j1, u);
    var j3 := Finds(j2, u);
    id := IdOf(j.ids, e.request.name);
    var j4 := SoloLock(j3, u);
    j' := SoloLock(j4, u);
    hide Leads;
    FollowsQuietly(j, [], j1, j2);
    FollowsQuietly(j, [], j2, j3);
    FollowsQuietly(j, [], j3, j4);
    FollowsQuietly(j, [], j4, j');
  }

  /** A worker that wants another lock than the one its neighbour holds. */
  lemma BesideFree(s: P.Sys, u: nat, t: nat, held: nat)
    requires |s.threads| == 2 && u < 2 && t < 2 && u != t
    requires s.threads[t].onStorage == None && s.threads[t].onFile == Some((held, P.R))
    requires s.threads[u].rest != [] && s.threads[u].rest[0].Acquire? && s.threads[u].rest[0].lock != P.File(held)
    ensures NextFree(s, u)
  {
  }

  /** A worker that writes beside a reader of another file, up to its check. */
  lemma WritesUpToCheck(j: Joint, u: nat, t: nat, e: S.Event, held: nat) returns (j': Joint)
    requires |j.sys.threads| == 2 && u < 2 && t < 2 && u != t
    requires MayBegin(j, u, e) && e.request.Write? && FindsFile(j.store, e)
    requires j.sys.threads[t].onStorage == None && j.sys.threads[t].onFile == Some((held, P.R))
    requires held != IdOf(j.ids, e.request.name)
    ensures Reaches(j, [], j') && Steadily(j') && j'.store == j.store && j'.ids == j.ids
    ensures |j'.sys.threads| == 2 && j'.events == j.events[u := e] && j'.sys.threads[t] == j.sys.threads[t]
    ensures j'.sys.threads[u].rest == [P.Check(IdOf(j.ids, e.request.name))] && j'.sys.threads[u].op == P.Write
  {
    hide Reaches, Steadily, FindsFile, MayBegin, NextFree;
    var j1 := Begins(j, u, e);
    BesideFree(j1.sys, u, t, held);
    var j2 := SoloLock(j1, u);
    var j3 := Finds(j2, u);
    BesideFree(j3.sys, u, t, held);
    j' := SoloLock(j3, u);
    FollowsQuietly(j, [], j1, j2);
    FollowsQuietly(j, [], j2, j3);
    FollowsQuietly(j, [], j3, j');
  }

  /** The same, up to the point where it makes room. */
  lemma WritesUpToAct(j: Joint, u: nat, t: nat, e: S.Event, held: nat) returns (j': Joint)
    requires |j.sys.threads| == 2 && u < 2 && t < 2 && u != t
    requires MayBegin(j, u, e) && e.request.Write? && FindsFile(j.store, e) && VerdictOf(j.store, e).Granted?
    requires j.sys.threads[t].onStorage == None && j.sys.threads[t].onFile == Some((held, P.R))
    requires held != IdOf(j.ids, e.request.name)
    ensures Reaches(j, [], j') && Steadily(j') && j'.store == j.store && j'.ids == j.ids
    ensures |j'.sys.threads| == 2 && j'.events == j.events[u := e] && j'.sys.threads[t] == j.sys.threads[t]
    ensures AtAct(j', u)
  {
    hide Reaches, VerdictOf, Steadily, FindsFile, MayBegin;
    var j1 := WritesUpToCheck(j, u, t, e, held);
    j' := Grants(j1, u, IdOf(j.ids, e.request.name));
    FollowsQuietly(j, [], j1, j');
  }

  // ----- a file evicted under its reader -----

  const CREATE_G := S.Event(5, 0, S.Open("g", true, true))
  const READ_F := S.Event(4, 0, S.Read("f"))
  const WRITE_G := S.Event(5, 0, S.Write("g", [2]))

  /** f holds one byte of client 4, g is new and locked by client 5, and there is room for one written file. */
  function FullStore(): S.Store {
    SF.OneByteStore().(files := map["f" := SF.OneByte(0, 1), "g" := S.FileVal(0, [], 5, [5], 0)])
  }

  lemma FillsUp()
    ensures var run, s := [SF.Create(0, "f"), SF.WriteOne(0, "f", 1), CREATE_G], S.Init(1, 10, 0).value;
      Harmlessly(s, run) && S.After(s, run) == FullStore()
  {
    var s := S.Init(1, 10, 0).value;
    var create, write := SF.Create(0, "f"), SF.WriteOne(0, "f", 1);
    var run := [create, write, CREATE_G];
    SF.CreateStep(s, 0, "f");
    var s1 := S.Step(s, create).store;
    SF.WriteStep(s1, 0, "f", 1, 0);
    var s2 := S.Step(s1, write).store;
    var s3 := S.Step(s2, CREATE_G).store;
    assert s2 == SF.OneByteStore() && s3 == FullStore() && S.Step(s2, CREATE_G).response.outcome == S.Success;
    assert run[1..] == [write, CREATE_G] && run[1..][1..] == [CREATE_G] && run[1..][1..][1..] == [];
    assert Harmlessly(s3, []) && S.After(s3, []) == s3;
    assert Harmlessly(s2, [CREATE_G]) && S.After(s2, [CREATE_G]) == s3;
    assert Harmlessly(s1, run[1..]) && S.After(s1, run[1..]) == s3;
  }

  /** The write needs room, and f is what there is to evict. */
  lemma EvictsF()
    ensures var r := S.EvictUntilFits(FullStore(), 1);
      r.Evicted? && "f" !in r.store.files && "g" in r.store.files && r.store.files["g"] == FullStore().files["g"]
  {
    var s := FullStore();
    assert !S.Fits(s, 1) && s.queue == ["f"] && S.QueueKnown(s);
    var s' := S.Evict(s);
    EvictedF();
    hide FullStore, S.Evict;
    assert S.EvictUntilFits(s', 1) == S.Evicted(s', []);
  }

  lemma EvictedF()
    requires S.QueueKnown(FullStore())
    ensures var s' := S.Evict(FullStore());
      S.Fits(s', 1) && "f" !in s'.files && "g" in s'.files && s'.files["g"] == FullStore().files["g"]
  {
    assert S.VictimName(FullStore()) == "f";
  }

  lemma WriteEvictsF()
    ensures FindsFile(FullStore(), WRITE_G) && VerdictOf(FullStore(), WRITE_G).Granted? && FindsFile(FullStore(), READ_F)
    ensures Doable(FullStore(), WRITE_G) && "f" !in Acted(FullStore(), WRITE_G).store.files
  {
    EvictsF();
    hide S.EvictUntilFits;
    assert Acted(FullStore(), WRITE_G) == S.FinishWrite(FullStore(), S.EvictUntilFits(FullStore(), 1), 0, "g", [2]);
  }

  /** One worker has f's lock for a read of client 4 and has yet to check the file; the other is idle. */
  ghost predicate Reading(j: Joint, id: nat) {
    && Steadily(j) && |j.sys.threads| == 2 && j.store == FullStore() && id == IdOf(j.ids, "f") && 0 in j.events
    && j.events[0] == READ_F && j.sys.threads[0] == P.Thread(P.Read, [P.Check(id)], None, Some((id, P.R)))
  }

  lemma Filled() returns (j: Joint)
    ensures exists items :: Reaches(Init(2, 1, 10, 0), items, j)
    ensures AllIdle(j) && |j.sys.threads| == 2 && j.store == FullStore()
  {
    var start, run := Init(2, 1, 10, 0), [SF.Create(0, "f"), SF.WriteOne(0, "f", 1), CREATE_G];
    InitSteady(2, 1, 10, 0);
    FillsUp();
    assert |start.sys.threads| == 2 && start.store == S.Init(1, 10, 0).value;
    hide *;
    j := SequencesHappen(start, 0, run);
  }

  lemma ReaderSetsOut() returns (j: Joint, id: nat)
    ensures exists items :: Reaches(Init(2, 1, 10, 0), items, j)
    ensures Reading(j, id) && j.sys.threads[1].rest == []
  {
    hide Reaches, FindsFile, VerdictOf, Doable, Acted, Steadily, Init, FullStore;
    WriteEvictsF();
    var j0 := Filled();
    assert j0.sys.threads[1].rest == [];
    var items :| Reaches(Init(2, 1, 10, 0), items, j0);
    hide AllIdle;
    j, id := ReadsUpToCheck(j0, 0, READ_F);
    FollowsQuietly(Init(2, 1, 10, 0), items, j0, j);
  }

  /**
   * Two workers and a store for one file: client 4 creates and writes f, client 5 creates g. Then client 4
   * reads f, and while that worker has f's lock and has let go of the storage, client 5 writes g: the
   * other worker is about to free f, which the first has yet to look at.
   */
  lemma EvictionUnderReader() returns (j: Joint, id: nat)
    ensures exists items :: Reaches(Init(2, 1, 10, 0), items, j)
    ensures Reading(j, id) && AtUnsafe(j, 1) && id in Freeing(j, j.events[1])
  {
    var j1: Joint;
    j1, id := ReaderSetsOut();
    hide Reaches, FindsFile, VerdictOf, Doable, Acted, Steadily, Init, FullStore, Freeing, AtUnsafe, AtAct;
    var items :| Reaches(Init(2, 1, 10, 0), items, j1);
    j := WriterFollows(j1, id);
    FollowsQuietly(Init(2, 1, 10, 0), items, j1, j);
    UnderReader(j, id);
  }

  lemma WriterFollows(j1: Joint, id: nat) returns (j: Joint)
    requires Reading(j1, id) && j1.sys.threads[1].rest == []
    ensures Reaches(j1, [], j) && Reading(j, id) && AtAct(j, 1) && j.events[1] == WRITE_G
  {
    hide Reaches, FindsFile, VerdictOf, Doable, Acted, Steadily, FullStore, MayBegin, AtAct;
    TwoFilesApart(j1);
    WriteEvictsF();
    OnlyClient(j1, 1, WRITE_G);
    j := WritesUpToAct(j1, 1, 0, WRITE_G, id);
  }

  lemma InitSteady(workers: nat, maxFiles: int, maxMB: nat, repPolicy: int)
    requires maxFiles > 0 && 0 < maxMB < S.U63
    ensures AllIdle(Init(workers, maxFiles, maxMB, repPolicy))
  {
    InitSound(workers, maxFiles, maxMB, repPolicy);
    D.InitInv(workers);
  }

  lemma TwoFilesApart(j: Joint)
    requires Steadily(j) && j.store == FullStore()
    ensures IdOf(j.ids, "f") != IdOf(j.ids, "g")
  {
    assert "f" in FullStore().files && "g" in FullStore().files;
  }

  lemma OnlyClient(j: Joint, u: nat, e: S.Event)
    requires |j.sys.threads| == 2 && u == 1 && j.sys.threads[1].rest == [] && Steadily(j)
    requires 0 in j.events && j.events[0].client != e.client && TakesLocks(e.request) && S.Sized(e.request)
    ensures MayBegin(j, u, e)
  {
  }

  lemma FIsThere()
    ensures "f" in FullStore().files
  {
  }

  lemma UnderReader(j: Joint, id: nat)
    requires Reading(j, id) && AtAct(j, 1) && j.events[1] == WRITE_G
    ensures AtUnsafe(j, 1) && id in Freeing(j, j.events[1])
  {
    hide Acted, Doable, FindsFile, FullStore, Steadily, VerdictOf;
    WriteEvictsF();
    assert "f" in FullStore().files by { FIsThere(); }
    hide AtAct;
    assert P.NamesFile(j.sys.threads[0].rest[0], id) && P.Refers(j.sys.threads[0], id);
    assert P.UsedByOther(j.sys, 1, id);
    assert id in Freeing(j, WRITE_G);
  }

  // ----- a readN that no moment explains -----

  /** A readN sets out with the whole queue ahead. */
  lemma SetsOutAlone(j: Joint, u: nat) returns (j': Joint)
    requires Steadily(j) && u < |j.sys.threads| && j.sys.threads[u].rest == [P.Lookup] && u in j.events
    requires j.events[u].request.ReadN? && j.store.queue != [] && Wants(j.store, j.events[u].request.n) > 0
    ensures Reaches(j, [], j') && Steadily(j') && j'.store == j.store && j'.ids == j.ids && j'.events == j.events
    ensures |j'.sys.threads| == |j.sys.threads|
    ensures forall t: nat :: t < |j.sys.threads| && t != u ==> j'.sys.threads[t] == j.sys.threads[t]
    ensures j'.sys.threads[u] == j.sys.threads[u].(rest := P.Visit(IdsOf(j.ids, j.store.queue)))
    ensures j'.tours == j.tours[u := Tour(j.store.queue, Wants(j.store, j.events[u].request.n), [])]
  {
    var id := LookupCanTurn(j, u);
    var a := Turn(u, id, j.events[u].now);
    j' := Next(j, a);
    hide Sound, D.Inv, P.Next, P.Enabled, S.Step, Reaches, Acted, VerdictOf, P.Visit, Calm, Next, Enabled, StoreAfter;
    ListsQueue(j, a);
    hide ToursAfter, BranchOf, Branching, ItemOf;
    OneStep(j, a);
    BranchSide(j, a);
    SetOffLeaves(j, a);
    BranchIs(j, a);
    CalmTurn(j.sys, LockSide(j, a));
    SteadyStep(j, a);
  }

  lemma ListsQueue(j: Joint, a: Step)
    requires a.Turn? && AtLookup(j, a.t) && j.events[a.t].request.ReadN?
    requires j.store.queue != [] && Wants(j.store, j.events[a.t].request.n) > 0
    ensures Branching(j, a) == P.Listed(IdsOf(j.ids, j.store.queue)) && WellFormed(j, a) && ItemOf(j, a) == None
    ensures ToursAfter(j, a) == j.tours[a.t := Tour(j.store.queue, Wants(j.store, j.events[a.t].request.n), [])]
  {
  }

  lemma BranchIs(j: Joint, a: Step)
    requires Enabled(j, a) && a.Turn? && AtLookup(j, a.t)
    ensures LockSide(j, a).Branch? && P.Enabled(j.sys, LockSide(j, a)) && Next(j, a).sys == P.Next(j.sys, LockSide(j, a))
    ensures !LeaksAt(j, a)
  {
    hide P.Next, P.Enabled, S.Step, Acted, VerdictOf, BranchOf, FindsFile;
  }

  /** A readN looks at the next file. */
  lemma Looks(j: Joint, u: nat) returns (j': Joint)
    requires Steadily(j) && u < |j.sys.threads| && j.sys.threads[u].rest != [] && j.sys.threads[u].rest[0].Check?
    requires AtGlance(j, u)
    ensures var i := Glance(u, j.events[u].client, j.events[u].now, j.tours[u].left[0]);
      && Reaches(j, [i], j') && j'.store == Do(j.store, i) && j'.tours == j.tours[u := Advance(j.tours[u], j.store, i)]
    ensures Steadily(j') && j'.ids == j.ids && j'.events == j.events && |j'.sys.threads| == |j.sys.threads|
    ensures forall t: nat :: t < |j.sys.threads| && t != u ==> j'.sys.threads[t] == j.sys.threads[t]
    ensures Ahead(j'.tours[u]) != [] ==>
      j'.sys.threads[u] == j.sys.threads[u].(rest := j.sys.threads[u].rest[1..])
  {
    var a := Turn(u, 0, j.events[u].now);
    CheckCanTurn(j, u);
    j' := Next(j, a);
    OneStep(j, a);
    JudgeSide(j, a);
    GlanceIs(j, a);
    hide Sound, D.Inv, P.Next, P.Enabled, S.Step, Reaches, Acted, VerdictOf, Do, Answer, Sees;
    CalmTurn(j.sys, LockSide(j, a));
    hide Calm;
    SteadyStep(j, a);
  }

  lemma GlanceIs(j: Joint, a: Step)
    requires Enabled(j, a) && a.Turn? && AtGlance(j, a.t)
    ensures LockSide(j, a).Judge? && P.Enabled(j.sys, LockSide(j, a)) && Next(j, a).sys == P.Next(j.sys, LockSide(j, a))
    ensures Ahead(Advance(j.tours[a.t], j.store, GlanceAt(j, a))) != [] ==> LockSide(j, a).verdict.Onward?
    ensures !LeaksAt(j, a) && ItemOf(j, a) == Some(GlanceAt(j, a)) && StoreAfter(j, a) == Do(j.store, GlanceAt(j, a))
    ensures ToursAfter(j, a) == j.tours[a.t := Advance(j.tours[a.t], j.store, GlanceAt(j, a))]
  {
    hide P.Next, P.Enabled, S.Step, Acted, VerdictOf, BranchOf, Do, Sees, Answer;
  }

  const LIST_ALL := S.Event(9, 0, S.ReadN(0))
  const LOCK_F := S.Event(4, 0, S.Lock("f"))
  const UNLOCK_F := S.Event(4, 0, S.Unlock("f"))
  const UNLOCK_G := S.Event(4, 0, S.Unlock("g"))
  const F_READ := S.Entry("f", [1])
  const G_READ := S.Entry("g", [2])

  /** Two written files of client 4, which has locked g. */
  function TwoFiles(): S.Store {
    S.Store(map["f" := SF.OneByte(0, 1).(lockerClient := S.NOBODY), "g" := SF.OneByte(0, 2)], ["f", "g"],
            2, 2, 2, 10, S.Fifo, 2, 2, 0)
  }

  lemma TwoWritten()
    ensures var run := [SF.Create(0, "f"), SF.WriteOne(0, "f", 1), UNLOCK_F, SF.Create(0, "g"), SF.WriteOne(0, "g", 2)];
      var s := S.Init(2, 10, 0).value;
      Harmlessly(s, run) && S.After(s, run) == TwoFiles()
  {
    var s := S.Init(2, 10, 0).value;
    var cf, wf, cg, wg := SF.Create(0, "f"), SF.WriteOne(0, "f", 1), SF.Create(0, "g"), SF.WriteOne(0, "g", 2);
    var run := [cf, wf, UNLOCK_F, cg, wg];
    SF.CreateStep(s, 0, "f");
    var s1 := S.Step(s, cf).store;
    SF.WriteStep(s1, 0, "f", 1, 0);
    var s2 := S.Step(s1, wf).store;
    var s3 := S.Step(s2, UNLOCK_F).store;
    assert S.Step(s2, UNLOCK_F).response.outcome == S.Success;
    SF.CreateStep(s3, 0, "g");
    var s4 := S.Step(s3, cg).store;
    SF.WriteStep(s4, 0, "g", 2, 0);
    var s5 := S.Step(s4, wg).store;
    assert s5 == TwoFiles();
    assert run[1..] == [wf, UNLOCK_F, cg, wg] && run[1..][1..] == [UNLOCK_F, cg, wg] && [UNLOCK_F, cg, wg][1..] == [cg, wg];
    assert [cg, wg][1..] == [wg] && [wg][1..] == [];
    assert Harmlessly(s5, []) && S.After(s5, []) == s5;
    assert Harmlessly(s4, [wg]) && S.After(s4, [wg]) == s5;
    assert Harmlessly(s3, [cg, wg]) && S.After(s3, [cg, wg]) == s5;
    assert Harmlessly(s2, [UNLOCK_F, cg, wg]) && S.After(s2, [UNLOCK_F, cg, wg]) == s5;
    assert Harmlessly(s1, run[1..]) && S.After(s1, run[1..]) == s5;
  }

  /** The first worker is on the tour of a readN of client 9, between two looks or before the next; the other is idle. */
  ghost predicate OnTour(j: Joint, s: S.Store, rest: seq<P.Instr>, onFile: Option<(nat, P.Mode)>, tour: Tour) {
    && Steadily(j) && |j.sys.threads| == 2 && j.store == s && j.sys.threads[1].rest == []
    && j.sys.threads[0] == P.Thread(P.ReadN, rest, Some(P.R), onFile)
    && 0 in j.events && j.events[0] == LIST_ALL && 0 in j.tours && j.tours[0] == tour
  }

  function FirstGlance(): Item { Glance(0, 9, 0, "f") }

  function SecondGlance(): Item { Glance(0, 9, 0, "g") }

  /** The store after the first look, after the owner's Lock, and after the owner's Unlock. */
  function Glanced(): S.Store { Do(TwoFiles(), FirstGlance()) }

  function LockedF(): S.Store { S.Step(Glanced(), LOCK_F).store }

  function UnlockedG(): S.Store { S.Step(LockedF(), UNLOCK_G).store }

  lemma CrossingStores()
    ensures OneLocked(TwoFiles(), "f", "g", 4) && Harmless(Glanced(), LOCK_F) && Harmless(LockedF(), UNLOCK_G)
  {
  }

  lemma FirstAdvance()
    ensures Advance(Tour(["f", "g"], 2, []), TwoFiles(), FirstGlance()) == Tour(["g"], 1, [F_READ])
  {
    assert ["f", "g"][1..] == ["g"];
  }

  lemma SecondAdvance()
    ensures Advance(Tour(["g"], 1, [F_READ]), UnlockedG(), SecondGlance()).got == [F_READ, G_READ]
  {
    assert Sees(UnlockedG(), SecondGlance()) && Answer(UnlockedG(), SecondGlance()).listed == [G_READ];
  }

  lemma FilledTwice() returns (j: Joint)
    ensures exists items :: Reaches(Init(2, 2, 10, 0), items, j)
    ensures AllIdle(j) && |j.sys.threads| == 2 && j.store == TwoFiles()
  {
    var start := Init(2, 2, 10, 0);
    var run := [SF.Create(0, "f"), SF.WriteOne(0, "f", 1), UNLOCK_F, SF.Create(0, "g"), SF.WriteOne(0, "g", 2)];
    InitSteady(2, 2, 10, 0);
    TwoWritten();
    assert |start.sys.threads| == 2 && start.store == S.Init(2, 10, 0).value;
    hide *;
    j := SequencesHappen(start, 1, run);
  }

  lemma NobodyElse(j: Joint)
    requires Steadily(j) && |j.sys.threads| == 2 && j.sys.threads[1].rest == []
    requires j.sys.threads[0].rest != [] && !Decides(j.sys.threads[0].rest[0])
    ensures NextFree(j.sys, 0)
  {
    IdleHoldsNothing(j, 1);
  }

  lemma TwoListed()
    ensures TwoFiles().queue == ["f", "g"] && Wants(TwoFiles(), 0) == 2
  {
  }

  lemma IdleMayBegin(j: Joint, u: nat, e: S.Event)
    requires AllIdle(j) && u < |j.sys.threads| && TakesLocks(e.request) && S.Sized(e.request)
    ensures MayBegin(j, u, e) && forall t: nat :: t < |j.sys.threads| ==> j.sys.threads[t].rest == []
  {
  }

  lemma TourBegins(j: Joint) returns (j': Joint, f: nat, g: nat)
    requires AllIdle(j) && |j.sys.threads| == 2 && j.store == TwoFiles()
    ensures Reaches(j, [], j') && OnTour(j', TwoFiles(), P.Visit([f, g]), None, Tour(["f", "g"], 2, []))
  {
    hide Reaches, Steadily, MayBegin, AllIdle, TwoFiles;
    f, g := IdOf(j.ids, "f"), IdOf(j.ids, "g");
    TwoListed();
    IdleMayBegin(j, 0, LIST_ALL);
    var j1 := Begins(j, 0, LIST_ALL);
    NobodyElse(j1);
    var j2 := SoloLock(j1, 0);
    j' := SetsOutAlone(j2, 0);
    assert IdsOf(j.ids, ["f", "g"]) == [f, g];
    FollowsQuietly(j, [], j1, j2);
    FollowsQuietly(j, [], j2, j');
  }

  /** The lock of the next file, and the look at it. */
  lemma TakesAndLooks(j: Joint, s: S.Store, id: nat, tail: seq<P.Instr>, tour: Tour, i: Item) returns (j': Joint)
    requires OnTour(j, s, [P.Acquire(P.File(id), P.R), P.Check(id)] + tail, None, tour)
    requires tour.left != [] && i == Glance(0, 9, 0, tour.left[0])
    ensures Reaches(j, [i], j') && 0 in j'.tours && j'.tours[0] == Advance(tour, s, i)
    ensures Ahead(j'.tours[0]) != [] ==> OnTour(j', Do(s, i), tail, Some((id, P.R)), Advance(tour, s, i))
  {
    hide Reaches, Steadily, Do, Answer, Sees;
    NobodyElse(j);
    var j1 := SoloLock(j, 0);
    assert j1.sys.threads[0].rest == [P.Check(id)] + tail;
    j' := Looks(j1, 0);
    assert ([P.Check(id)] + tail)[1..] == tail;
    Follows(j, [], j1, [i], j');
    assert [] + [i] == [i];
  }

  /** And the lock given back, when more files are ahead. */
  lemma LooksAndGoesOn(j: Joint, s: S.Store, id: nat, more: seq<P.Instr>, tour: Tour, i: Item) returns (j': Joint)
    requires OnTour(j, s, [P.Acquire(P.File(id), P.R), P.Check(id)] + ([P.Release(P.File(id), P.R)] + more), None, tour)
    requires tour.left != [] && i == Glance(0, 9, 0, tour.left[0]) && Ahead(Advance(tour, s, i)) != []
    ensures Reaches(j, [i], j') && OnTour(j', Do(s, i), more, None, Advance(tour, s, i))
  {
    hide Reaches, Steadily, Do, Answer, Sees, Advance, Ahead;
    var tail := [P.Release(P.File(id), P.R)] + more;
    var j1 := TakesAndLooks(j, s, id, tail, tour, i);
    NobodyElse(j1);
    j' := SoloLock(j1, 0);
    assert tail[1..] == more;
    FollowsQuietly(j, [i], j1, j');
  }

  lemma LooksAtF(j: Joint, f: nat, g: nat) returns (j': Joint)
    requires OnTour(j, TwoFiles(), P.Visit([f, g]), None, Tour(["f", "g"], 2, []))
    ensures Reaches(j, [FirstGlance()], j') && OnTour(j', Glanced(), P.Visit([g]), None, Tour(["g"], 1, [F_READ]))
  {
    hide Reaches, OnTour, TwoFiles, Do, Answer, Sees, P.Visit, Advance;
    VisitTwo(f, g);
    FirstAdvance();
    j' := LooksAndGoesOn(j, TwoFiles(), f, P.Visit([g]), Tour(["f", "g"], 2, []), FirstGlance());
  }

  lemma VisitTwo(f: nat, g: nat)
    ensures P.Visit([f, g]) == [P.Acquire(P.File(f), P.R), P.Check(f)] + ([P.Release(P.File(f), P.R)] + P.Visit([g]))
  {
    assert [f, g][1..] == [g];
  }

  lemma OwnerCrosses(j: Joint, rest: seq<P.Instr>, tour: Tour) returns (j': Joint)
    requires OnTour(j, Glanced(), rest, None, tour)
    ensures Reaches(j, [Whole(LOCK_F), Whole(UNLOCK_G)], j') && OnTour(j', UnlockedG(), rest, None, tour)
  {
    CrossingStores();
    hide Reaches, Steadily, Glanced, Harmless;
    var j1 := OwnerAsks(j, LOCK_F);
    j' := OwnerAsks(j1, UNLOCK_G);
    Follows(j, [Whole(LOCK_F)], j1, [Whole(UNLOCK_G)], j');
    assert [Whole(LOCK_F)] + [Whole(UNLOCK_G)] == [Whole(LOCK_F), Whole(UNLOCK_G)];
  }

  lemma OwnerAsks(j: Joint, e: S.Event) returns (j': Joint)
    requires |j.sys.threads| == 2 && j.sys.threads[1].rest == [] && Steadily(j) && 0 in j.events && j.events[0] == LIST_ALL
    requires j.sys.threads[0].onFile == None && j.sys.threads[0].onStorage == Some(P.R)
    requires (e.request.Lock? || e.request.Unlock?) && e.client != 9 && Harmless(j.store, e)
    ensures Reaches(j, [Whole(e)], j') && Steadily(j') && j'.store == S.Step(j.store, e).store
    ensures |j'.sys.threads| == 2 && j'.sys.threads[0] == j.sys.threads[0] && j'.sys.threads[1].rest == []
    ensures 0 in j'.events && j'.events[0] == LIST_ALL && j'.tours == j.tours
  {
    hide Reaches, Steadily, Harmless;
    j' := SoloRequest(j, 1, e);
  }

  lemma LooksAtG(j: Joint, g: nat) returns (j': Joint)
    requires OnTour(j, UnlockedG(), P.Visit([g]), None, Tour(["g"], 1, [F_READ]))
    ensures Reaches(j, [SecondGlance()], j') && 0 in j'.tours && j'.tours[0].got == [F_READ, G_READ]
  {
    hide Reaches, OnTour, UnlockedG, Do, Answer, Sees, Advance, TwoFiles;
    var tail := [P.Release(P.File(g), P.R)] + P.Visit([]);
    assert P.Visit([g]) == [P.Acquire(P.File(g), P.R), P.Check(g)] + tail;
    hide P.Visit;
    SecondAdvance();
    j' := TakesAndLooks(j, UnlockedG(), g, tail, Tour(["g"], 1, [F_READ]), SecondGlance());
  }

  /**
   * Two workers: client 4 has written f and g and locked g. Client 9 asks for all files; after it has
   * looked at f, client 4 locks f and then unlocks g; then it looks at g. It lists both files, though at no
   * moment were both readable to it (by ListsWhatNoMomentShows, for these stores and this order of things).
   */
  lemma ListsBoth() returns (j: Joint, j': Joint)
    ensures exists items :: Reaches(Init(2, 2, 10, 0), items, j)
    ensures j.store == TwoFiles() && OneLocked(TwoFiles(), "f", "g", 4)
    ensures Reaches(j, Crossing(0, "f", "g", 4, 9, 0), j') && 0 in j'.tours && j'.tours[0].got == [F_READ, G_READ]
    ensures forall k :: 0 <= k <= 4 ==> !Undisturbed(j.store, Crossing(0, "f", "g", 4, 9, 0), 0, k)
  {
    hide Reaches, Steadily, AllIdle, Undisturbed, TwoFiles, OneLocked, Crossing, Sees, Answer, Harmless;
    CrossingStores();
    ListsWhatNoMomentShows(TwoFiles(), 0, "f", "g", 4, 9, 0);
    var j0 := FilledTwice();
    var f: nat, g: nat;
    j, f, g := TourBegins(j0);
    var items :| Reaches(Init(2, 2, 10, 0), items, j0);
    FollowsQuietly(Init(2, 2, 10, 0), items, j0, j);
    j' := Crosses(j, f, g);
  }

  lemma Crosses(j: Joint, f: nat, g: nat) returns (j': Joint)
    requires OnTour(j, TwoFiles(), P.Visit([f, g]), None, Tour(["f", "g"], 2, []))
    ensures Reaches(j, Crossing(0, "f", "g", 4, 9, 0), j') && 0 in j'.tours && j'.tours[0].got == [F_READ, G_READ]
  {
    hide Reaches, OnTour, TwoFiles, P.Visit;
    var j1 := LooksAtF(j, f, g);
    var j2 := OwnerCrosses(j1, P.Visit([g]), Tour(["g"], 1, [F_READ]));
    j' := LooksAtG(j2, g);
    Follows(j, [FirstGlance()], j1, [Whole(LOCK_F), Whole(UNLOCK_G)], j2);
    Follows(j, [FirstGlance()] + [Whole(LOCK_F), Whole(UNLOCK_G)], j2, [SecondGlance()], j');
    assert [FirstGlance()] + [Whole(LOCK_F), Whole(UNLOCK_G)] + [SecondGlance()] == Crossing(0, "f", "g", 4, 9, 0);
  }
}
