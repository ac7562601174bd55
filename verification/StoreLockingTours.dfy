/** readN among the other workers: what it answers and leaves behind in any interleaving, and when one moment explains it. */
module StoreLockingTours {
  import opened Bytes
  import opened Sequences
  import opened LockGuards
  import opened StoreMoments
  import opened StoreLocking
  import opened StoreLockingTheorems
  import opened LockProtocolProofs
  import S = StorageSpec
  import SI = StorageInvariant
  import P = LockProtocol

  /** The worker has files of a readN yet to look at. */
  predicate InTour(j: Joint, t: nat) {
    t < |j.sys.threads| && t in j.events && j.events[t].request.ReadN? && |j.sys.threads[t].rest| >= 3
  }

  /** The run takes the worker's readN from where it is just to the end of its last look. */
  predicate ToLastGlance(j: Joint, run: seq<Step>, t: nat)
    requires Valid(j, run)
    decreases |run|
  {
    if run == [] then !InTour(j, t) else InTour(j, t) && ToLastGlance(Next(j, run[0]), run[1..], t)
  }

  lemma ShapeLength(rest: seq<P.Instr>, ids: seq<nat>)
    requires TourShape(rest, ids)
    ensures |rest| >= 3 <==> ids != []
  {
    if ids != [] { VisitPlain(ids[1..]); }
  }

  lemma InTourIs(j: Joint, t: nat)
    requires Sound(j) && InTour(j, t)
    ensures t in j.tours && Ahead(j.tours[t]) != [] && TourShape(j.sys.threads[t].rest, IdsOf(j.ids, Ahead(j.tours[t])))
    ensures j.sys.threads[t].onStorage == Some(P.R) && Suffix(j.store.queue, j.tours[t].left) && !AtLookup(j, t)
  {
    SoundParts(j, t);
    hide Sound, Sane, SI.Inv, Linked, Exclusive, TourShape;
    ShapeLength(j.sys.threads[t].rest, IdsOf(j.ids, Ahead(j.tours[t])));
  }

  // ----- the others, beside a tour -----

  lemma LightIff(e: S.Event)
    requires P.LookupMode(OpOf(e.request)) == P.R
    ensures Light(Whole(e))
  {
  }

  /** Whoever answers a request that holds the storage lock for writing holds it now. */
  lemma AnswererHolds(j: Joint, a: Step)
    requires Sound(j) && Enabled(j, a) && ItemOf(j, a).Some? && ItemOf(j, a).value.Whole?
    requires P.LookupMode(OpOf(ItemOf(j, a).value.event.request)) == P.W
    ensures a.Turn? && a.t < |j.sys.threads| && j.sys.threads[a.t].onStorage == Some(P.W)
  {
    AnswererIs(j, a);
    SoundParts(j, a.t);
    hide Sound, Sane, SI.Inv, Linked, Exclusive, Placed, Enabled, ItemOf, P.Scripted, P.LookupMode;
    TurnHolds(j.sys.threads[a.t]);
  }

  lemma TurnHolds(th: P.Thread)
    requires P.Scripted(th.op, th.rest, th.onStorage, th.onFile) && P.LookupMode(th.op) == P.W
    requires th.rest != [] && (th.rest[0].Lookup? || th.rest[0].Check? || th.rest[0].Act?)
    ensures th.onStorage == Some(P.W)
  {
  }

  lemma AnswererIs(j: Joint, a: Step)
    requires Sound(j) && Enabled(j, a) && ItemOf(j, a).Some? && ItemOf(j, a).value.Whole?
    ensures a.Turn? && Active(j, a.t) && j.sys.threads[a.t].op == OpOf(ItemOf(j, a).value.event.request)
    ensures var i := j.sys.threads[a.t].rest[0]; i.Lookup? || i.Check? || i.Act?
  {
    ItemRequest(j, a);
    hide Enabled, ItemOf, OpOf, TakesLocks;
    SoundParts(j, a.t);
    hide Sound, Sane, SI.Inv, Linked, Exclusive, Underway, Touring, SaneThread;
    assert Busy(j, a.t);
  }

  lemma ItemRequest(j: Joint, a: Step)
    requires WellFormed(j, a) && ItemOf(j, a).Some? && ItemOf(j, a).value.Whole?
    ensures a.Turn? && Active(j, a.t) && ItemOf(j, a).value.event.request == j.events[a.t].request
    ensures var i := j.sys.threads[a.t].rest[0]; i.Lookup? || i.Check? || i.Act?
  {
    hide VerdictOf, Acted, BranchOf, FindsFile, Doable;
  }

  lemma WritersApart(s: P.Sys, u: nat, t: nat)
    requires Sane(s) && u < |s.threads| && t < |s.threads| && u != t && s.threads[u].onStorage == Some(P.W)
    ensures s.threads[t].onStorage == None
  {
    AnyStorage(s);
    HolderInside(s, u, P.Storage, P.W);
    NoOneHolds(s, u, P.Storage, t);
  }

  lemma OthersAreLight(j: Joint, a: Step, t: nat)
    requires Sound(j) && Enabled(j, a) && InTour(j, t) && ItemOf(j, a).Some?
    ensures Light(ItemOf(j, a).value)
  {
    InTourIs(j, t);
    var i := ItemOf(j, a).value;
    hide Sound, Enabled, ItemOf, InTour, Ahead, TourShape;
    if i.Whole? {
      if P.LookupMode(OpOf(i.event.request)) == P.W {
        AnswererHolds(j, a);
        assert Sane(j.sys) by { SoundParts(j, a.t); }
        if a.t != t { WritersApart(j.sys, a.t, t); }
      }
      LightIff(i.event);
    }
  }

  // ----- one step -----

  lemma TourThread(j: Joint, a: Step, t: nat)
    requires Sound(j) && Enabled(j, a) && InTour(j, t) && !(a.Turn? && a.t == t)
    ensures t < |Next(j, a).sys.threads| && |Next(j, a).sys.threads[t].rest| >= 3 && !(a.Begin? && a.t == t)
  {
    hide Sound, Sane, S.Step, Acted, VerdictOf, BranchOf, P.Next, FindsFile, Freeing, StoreAfter, ToursAfter;
    OthersAfter(j.sys, LockSide(j, a));
    if a == Lock(t) {
      TourLocks(j, t);
    } else if a == Spurious(t) {
      SpuriousThreads(j.sys, t);
    }
  }

  lemma SpuriousThreads(s: P.Sys, t: nat)
    requires P.Enabled(s, P.SpuriousWakeup(t))
    ensures P.Next(s, P.SpuriousWakeup(t)).threads == s.threads
  {
  }

  /** A step that is no glance of the tour leaves it as it is. */
  lemma TourWaits(j: Joint, a: Step, t: nat)
    requires Sound(j) && Enabled(j, a) && InTour(j, t) && !(a.Turn? && a.t == t)
    ensures InTour(Next(j, a), t) && t in j.tours && t in Next(j, a).tours && Next(j, a).tours[t] == j.tours[t]
    ensures Next(j, a).events[t] == j.events[t]
    ensures ItemOf(j, a).Some? ==> !Mine(ItemOf(j, a).value, t)
  {
    InTourIs(j, t);
    TourThread(j, a, t);
    hide Sound, Enabled, LockSide, Ahead, TourShape, Suffix;
    ElsewhereTours(j, a, t);
  }

  lemma ElsewhereTours(j: Joint, a: Step, t: nat)
    requires Enabled(j, a) && !(a.Turn? && a.t == t) && t in j.tours && t in j.events && !(a.Begin? && a.t == t)
    ensures t in Next(j, a).tours && Next(j, a).tours[t] == j.tours[t]
    ensures t in Next(j, a).events && Next(j, a).events[t] == j.events[t]
    ensures ItemOf(j, a).Some? ==> !Mine(ItemOf(j, a).value, t)
  {
    hide S.Step, Acted, VerdictOf, BranchOf, P.Next, P.Enabled, FindsFile, Freeing, StoreAfter, LockSide, Advance;
  }

  lemma TourLocks(j: Joint, t: nat)
    requires Sound(j) && Enabled(j, Lock(t)) && InTour(j, t)
    ensures |Next(j, Lock(t)).sys.threads| == |j.sys.threads| && |Next(j, Lock(t)).sys.threads[t].rest| >= 3
  {
    InTourIs(j, t);
    var rest, ids := j.sys.threads[t].rest, IdsOf(j.ids, Ahead(j.tours[t]));
    assert ids != [];
    hide Sound, Sane, P.Next, P.Enabled, Suffix;
    RunAfter(j.sys, t);
    OthersAfter(j.sys, P.Run(t));
    ShapePops(rest, ids);
  }

  lemma ShapePops(rest: seq<P.Instr>, ids: seq<nat>)
    requires TourShape(rest, ids) && ids != [] && rest != [] && !rest[0].Check?
    ensures |rest| >= 4
  {
    VisitPlain(ids[1..]);
  }

  /** A glance of the tour. */
  lemma TourGlances(j: Joint, a: Step, t: nat)
    requires Sound(j) && Enabled(j, a) && InTour(j, t) && a.Turn? && a.t == t
    ensures AtGlance(j, t) && ItemOf(j, a) == Some(GlanceAt(j, a)) && j.tours[t].left != [] && j.tours[t].wanted > 0
    ensures t in Next(j, a).tours && Next(j, a).tours[t] == Advance(j.tours[t], j.store, GlanceAt(j, a))
    ensures Next(j, a).events == j.events
    ensures InTour(Next(j, a), t) <==> Ahead(Next(j, a).tours[t]) != []
  {
    InTourIs(j, t);
    SoundParts(j, t);
    assert !j.sys.threads[t].rest[0].Act? by {
      VisitPlain(IdsOf(j.ids, Ahead(j.tours[t])));
    }
    assert AtGlance(j, t);
    JudgeSide(j, a);
    AtFile(j, t);
    GlanceLength(j, a);
    hide Sound, Sane, S.Step, Acted, VerdictOf, BranchOf, P.Next, P.Enabled, TourShape, Placed, P.Concluded;
  }

  lemma GlanceLength(j: Joint, a: Step)
    requires Sound(j) && Enabled(j, a) && a.Turn? && AtGlance(j, a.t) && a.t < |j.sys.threads| && Touring(j, a.t)
    ensures LockSide(j, a).Judge?
    ensures var th := j.sys.threads[a.t];
      |P.Concluded(th.op, th.rest, LockSide(j, a).verdict)| >= 3 <==>
        Ahead(Advance(j.tours[a.t], j.store, GlanceAt(j, a))) != []
  {
    hide Sound, S.Step, Sees, Answer, P.Enabled, P.Visit, Acted, VerdictOf, BranchOf, FindsFile, Freeing, Doable, OpOf;
    AtFile(j, a.t);
    hide Touring, TourShape, Suffix;
    VisitLength(IdsOf(j.ids, j.tours[a.t].left[1..]));
  }

  lemma VisitLength(ids: seq<nat>)
    ensures |P.Visit(ids)| >= if ids == [] then 1 else 4
  {
    if ids != [] { VisitPlain(ids[1..]); }
  }

  // ----- the whole tour -----

  lemma ConsTour(s: S.Store, i: Item, rest: seq<Item>, t: nat)
    ensures Collected(s, [i] + rest, t) == (if Mine(i, t) then Answer(s, i).listed else []) + Collected(Do(s, i), rest, t)
    ensures Light(i) && AllLight(rest) ==> AllLight([i] + rest)
  {
    hide Do, Answer, Light;
    assert ([i] + rest)[0] == i && ([i] + rest)[1..] == rest;
  }

  lemma ConsTours(s: S.Store, i: Item, rest: seq<Item>, t: nat, c: nat, left: seq<string>, wanted: int)
    requires if Mine(i, t) then
        left != [] && wanted > 0 && i.name == left[0] && i.client == c
        && Tours(Do(s, i), rest, t, c, left[1..], if Sees(s, i) then wanted - 1 else wanted)
      else Tours(Do(s, i), rest, t, c, left, wanted)
    ensures Tours(s, [i] + rest, t, c, left, wanted)
  {
    hide Do, Sees;
    assert ([i] + rest)[1..] == rest;
  }

  /** Beside the tour only light items are made, its glances are those of readN, and it collects what they see. */
  ghost predicate Toured(j: Joint, run: seq<Step>, t: nat)
    requires Valid(j, run)
  {
    && t in j.events && t in j.tours && t in After(j, run).tours && AllLight(Items(j, run))
    && Tours(j.store, Items(j, run), t, j.events[t].client, j.tours[t].left, j.tours[t].wanted)
    && After(j, run).tours[t].got == j.tours[t].got + Collected(j.store, Items(j, run), t)
  }

  lemma TouredOver(j: Joint, t: nat)
    requires t in j.events && t in j.tours && Ahead(j.tours[t]) == []
    ensures Toured(j, [], t)
  {
  }

  lemma TouredNext(j: Joint, run: seq<Step>, t: nat)
    requires run != [] && Valid(j, run) && Toured(Next(j, run[0]), run[1..], t) && t in j.tours && t in j.events
    requires Next(j, run[0]).events[t] == j.events[t] && ItemOf(j, run[0]) == None
    requires Next(j, run[0]).store == j.store && Next(j, run[0]).tours[t] == j.tours[t]
    ensures Toured(j, run, t)
  {
    hide Next, Enabled, ItemOf;
    assert Items(j, run) == Items(Next(j, run[0]), run[1..]);
  }

  lemma TouredCons(s: S.Store, i: Item, rest: seq<Item>, t: nat, c: nat, tour: Tour, tour': Tour, end: seq<S.Entry>)
    requires if Mine(i, t) then
        tour.left != [] && tour.wanted > 0 && i.name == tour.left[0] && i.client == c && tour' == Advance(tour, s, i)
      else tour' == tour
    requires Tours(Do(s, i), rest, t, c, tour'.left, tour'.wanted) && end == tour'.got + Collected(Do(s, i), rest, t)
    ensures Tours(s, [i] + rest, t, c, tour.left, tour.wanted) && end == tour.got + Collected(s, [i] + rest, t)
  {
    ConsTour(s, i, rest, t);
    hide Do, Answer, Sees, Collected;
    ConsTours(s, i, rest, t, c, tour.left, tour.wanted);
    hide Tours;
    var more := Collected(Do(s, i), rest, t);
    if Mine(i, t) {
      assert tour.got + Answer(s, i).listed + more == tour.got + (Answer(s, i).listed + more);
    } else {
      assert [] + more == more;
    }
  }

  lemma TouredItem(j: Joint, run: seq<Step>, t: nat, i: Item)
    requires run != [] && Valid(j, run) && Toured(Next(j, run[0]), run[1..], t) && t in j.tours && t in j.events
    requires Next(j, run[0]).events[t] == j.events[t] && ItemOf(j, run[0]) == Some(i) && Light(i)
    requires Next(j, run[0]).store == Do(j.store, i)
    requires if Mine(i, t) then
        && j.tours[t].left != [] && j.tours[t].wanted > 0 && i.name == j.tours[t].left[0] && i.client == j.events[t].client
        && Next(j, run[0]).tours[t] == Advance(j.tours[t], j.store, i)
      else Next(j, run[0]).tours[t] == j.tours[t]
    ensures Toured(j, run, t)
  {
    var j', rest := Next(j, run[0]), Items(Next(j, run[0]), run[1..]);
    hide Next, Enabled, ItemOf, Do, Answer, Sees, Light, Collected, Tours, Mine, Advance;
    assert Items(j, run) == [i] + rest && After(j, run) == After(j', run[1..]);
    hide Items, After, Valid;
    TouredCons(j.store, i, rest, t, j.events[t].client, j.tours[t], j'.tours[t], After(j', run[1..]).tours[t].got);
  }

  lemma {:induction false} TourRun(j: Joint, run: seq<Step>, t: nat)
    requires Sound(j) && Valid(j, run) && InTour(j, t) && ToLastGlance(j, run, t)
    ensures Toured(j, run, t)
    decreases |run|
  {
    var a, j' := run[0], Next(j, run[0]);
    StepSound(j, a);
    TurnIsItem(j, a);
    InTourIs(j, t);
    if ItemOf(j, a).Some? { OthersAreLight(j, a, t); }
    if a.Turn? && a.t == t { TourGlances(j, a, t); } else { TourWaits(j, a, t); }
    if InTour(j', t) { TourRun(j', run[1..], t); } else { TouredOver(j', t); }
    assert t in j.events && (a.Turn? && a.t == t ==> GlanceAt(j, a).name == j.tours[t].left[0]);
    hide Sound, Enabled, Next, Do, ItemOf, ReplyOf, FineItem, Light, InTour, Answer, Sees, Toured, Ahead, TourShape;
    if ItemOf(j, a).Some? { TouredItem(j, run, t, ItemOf(j, a).value); } else { TouredNext(j, run, t); }
  }

  /** A readN that sets out from its lookup. */
  predicate SetsOut(j: Joint, a: Step) {
    a.Turn? && AtLookup(j, a.t) && j.events[a.t].request.ReadN? && Enabled(j, a) && Branching(j, a).Listed?
  }

  lemma SettingOut(j: Joint, a: Step)
    requires Sound(j) && SetsOut(j, a)
    ensures var j', t := Next(j, a), a.t;
      && Sound(j') && InTour(j', t) && j'.store == j.store && j'.events == j.events
      && j.store.queue != [] && Wants(j.store, j.events[t].request.n) > 0 && Distinct(j.store.queue) && S.QueueKnown(j.store)
      && t in j'.tours && j'.tours[t] == Tour(j.store.queue, Wants(j.store, j.events[t].request.n), [])
  {
    StepSound(j, a);
    BranchSide(j, a);
    SetOffLeaves(j, a);
    SoundParts(j, a.t);
    VisitLength(IdsOf(j.ids, j.store.queue));
    hide Sane, S.Step, Acted, VerdictOf, P.Next, P.Enabled, Linked, Exclusive, Placed, P.Visit, StoreAfter;
  }

  /**
   * readN in any interleaving, from its lookup to its last look: what it has listed is what it would list,
   * taken whole just before the k-th thing done meanwhile, exactly when the Lock, Unlock and locking Open
   * requests answered between that moment and each of its looks leave the file as readable to its client;
   * the store is then what it would be exactly when the refreshing of access times agrees; and the other
   * requests are answered as they would be in any case.
   */
  lemma ReadNMoment(j: Joint, a: Step, run: seq<Step>, k: nat, now: int)
    requires Sound(j) && SetsOut(j, a) && Valid(Next(j, a), run) && ToLastGlance(Next(j, a), run, a.t)
    requires k <= |Items(Next(j, a), run)|
    ensures var items, e := Items(Next(j, a), run), j.events[a.t].(now := now);
      var end, p := After(Next(j, a), run), Before(j.store, items, a.t, k);
      && a.t in end.tours && end.store == DoAll(j.store, items)
      && (S.Step(p, e).response == S.Response(S.Success, [], end.tours[a.t].got, []) <==> Undisturbed(j.store, items, a.t, k))
      && (Undisturbed(j.store, items, a.t, k) ==>
            (Moved(j.store, items, a.t, k, e) == end.store <==> Restamped(j.store, items, a.t, k, now)))
      && AnswersBut(j.store, items, a.t) ==
           Answers(j.store, Others(items[..k], a.t)) + Answers(S.Step(p, e).store, Others(items[k..], a.t))
  {
    var items, e := Items(Next(j, a), run), j.events[a.t].(now := now);
    SettingOut(j, a);
    TourRun(Next(j, a), run, a.t);
    HistoryExplained(Next(j, a), run);
    assert TourOf(j.store, items, a.t, e);
    hide Sound, Enabled, Next, Valid, After, Items, Undisturbed, Restamped, Moved, Before, S.Step, Tours, Answers, AnswersBut;
    MomentIff(j.store, items, a.t, k, e);
    assert [] + Collected(j.store, items, a.t) == Collected(j.store, items, a.t);
  }

  /**
   * The same for any order of the others: whatever light requests are taken before a whole readN, it lists
   * what this one has listed exactly when they leave every file it looked at as readable as it was then.
   */
  lemma ReadNInAnyOrder(j: Joint, a: Step, run: seq<Step>, before: seq<Item>, now: int)
    requires Sound(j) && SetsOut(j, a) && Valid(Next(j, a), run) && ToLastGlance(Next(j, a), run, a.t) && AllLight(before)
    ensures var items, e, end := Items(Next(j, a), run), j.events[a.t].(now := now), After(Next(j, a), run);
      && a.t in end.tours && (forall i :: 0 <= i < |items| && Mine(items[i], a.t) ==> items[i].name in j.store.files)
      && (S.Step(DoAll(j.store, before), e).response == S.Response(S.Success, [], end.tours[a.t].got, []) <==>
            forall i :: 0 <= i < |items| && Mine(items[i], a.t) ==> Agrees(j.store, items, i, before))
  {
    var items, e := Items(Next(j, a), run), j.events[a.t].(now := now);
    SettingOut(j, a);
    TourRun(Next(j, a), run, a.t);
    assert TourOf(j.store, items, a.t, e);
    hide Sound, Enabled, Next, Valid, After, Items, Agrees, S.Step, Tours, AllLight;
    AnyOrderIff(j.store, items, a.t, e, before);
    assert [] + Collected(j.store, items, a.t) == Collected(j.store, items, a.t);
  }
}
