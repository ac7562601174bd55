/**
 * Workers carrying out requests on one store under the two-level locking. A worker looks its file up,
 * checks it and acts on it in separate steps, and what it does when it acts it does on the strength of
 * the check; readN looks at one file after the other. Every interleaving counts.
 */
module StoreLocking {
  import opened Bytes
  import opened LockGuards
  import opened StoreMoments
  import S = StorageSpec
  import SI = StorageInvariant
  import P = LockProtocol
  import L = LockerSpec
  import opened LockProtocolProofs

  /** Where a readN has come to: the files it has not looked at, how many it still wants, and what it has copied. */
  datatype Tour = Tour(left: seq<string>, wanted: int, got: seq<S.Entry>)

  /** ids gives each file's lock; events the request each worker is busy with. */
  datatype Joint = Joint(
    sys: P.Sys, store: S.Store, ids: map<string, nat>, events: map<nat, S.Event>, tours: map<nat, Tour>)

  datatype Step =
    | Begin(t: nat, event: S.Event)           // an idle worker takes a request
    | Lock(t: nat)                            // a worker takes its next lock step
    | Turn(t: nat, freshId: nat, now: int)    // a worker looks up, checks or acts, at some time
    | Spurious(t: nat)

  function Init(workers: nat, maxFiles: int, maxMB: nat, repPolicy: int): Joint
    requires maxFiles > 0 && maxMB > 0
  {
    Joint(P.Init(workers), S.Init(maxFiles, maxMB, repPolicy).value, map[], map[], map[])
  }

  // ----- the turns -----

  /** The worker is busy. */
  predicate Active(j: Joint, t: nat) {
    t < |j.sys.threads| && j.sys.threads[t].rest != [] && t in j.events
  }

  predicate AtLookup(j: Joint, t: nat) {
    Active(j, t) && j.sys.threads[t].rest == [P.Lookup]
  }

  /** readN has the lock of the next file. */
  predicate AtGlance(j: Joint, t: nat) {
    Active(j, t) && j.sys.threads[t].rest[0].Check? && j.events[t].request.ReadN? && t in j.tours && j.tours[t].left != []
  }

  /** The worker has the lock of the file it found. */
  predicate AtCheck(j: Joint, t: nat) {
    Active(j, t) && j.sys.threads[t].rest[0].Check? && FindsFile(j.store, j.events[t])
  }

  predicate AtAct(j: Joint, t: nat) {
    Active(j, t) && j.sys.threads[t].rest[0].Act? && FindsFile(j.store, j.events[t])
  }

  /** What is granted can be done: no victim is asked of an empty queue, and no append evicts its own file. */
  predicate Doable(s: S.Store, e: S.Event) {
    FindsFile(s, e) && Acted(s, e).response.outcome != S.Undefined
  }

  /** The request, with the time at which it looks at the clock. */
  function EventAt(j: Joint, a: Step): S.Event
    requires a.Turn? && a.t in j.events
  {
    j.events[a.t].(now := a.now)
  }

  /** No other worker is busy for the client. */
  predicate ClientFree(j: Joint, c: nat) {
    forall u :: 0 <= u < |j.sys.threads| && j.sys.threads[u].rest != [] && u in j.events ==> j.events[u].client != c
  }

  predicate WellFormed(j: Joint, a: Step) {
    match a
    case Begin(_, e) => TakesLocks(e.request) && S.Sized(e.request) && ClientFree(j, e.client)
    case Turn(t, _, _) => AtLookup(j, t) || AtGlance(j, t) || AtCheck(j, t) || (AtAct(j, t) && Doable(j.store, EventAt(j, a)))
    case _ => true
  }

  /** The locks of the files that left the store. */
  function LocksGone(ids: map<string, nat>, s: S.Store, s': S.Store): set<nat> {
    set n | n in s.files && n !in s'.files :: IdOf(ids, n)
  }

  /** The locks freed with the victims when room is made. */
  function Freeing(j: Joint, e: S.Event): set<nat>
    requires FindsFile(j.store, e)
  {
    if e.request.Write? || e.request.Append? then LocksGone(j.ids, j.store, Acted(j.store, e).store) else {}
  }

  function Branching(j: Joint, a: Step): P.Branch
    requires a.Turn? && AtLookup(j, a.t)
  {
    BranchOf(j.store, j.ids, EventAt(j, a), a.freshId)
  }

  function GlanceAt(j: Joint, a: Step): Item
    requires a.Turn? && AtGlance(j, a.t)
  {
    Glance(a.t, j.events[a.t].client, a.now, j.tours[a.t].left[0])
  }

  /** The tour after a glance. */
  function Advance(tour: Tour, s: S.Store, i: Item): Tour
    requires tour.left != [] && i.Glance?
  {
    Tour(tour.left[1..], if Sees(s, i) then tour.wanted - 1 else tour.wanted, tour.got + Answer(s, i).listed)
  }

  /** The files the tour will still look at. */
  function Ahead(tour: Tour): seq<string> {
    if tour.wanted <= 0 then [] else tour.left
  }

  /** The step of the lock protocol behind a step. */
  function LockSide(j: Joint, a: Step): P.Step
    requires WellFormed(j, a)
  {
    match a
    case Begin(t, e) => P.Request(t, OpOf(e.request))
    case Lock(t) => P.Run(t)
    case Spurious(t) => P.SpuriousWakeup(t)
    case Turn(t, _, _) =>
      if AtLookup(j, t) then P.Step.Branch(t, Branching(j, a))
      else if AtGlance(j, t) then
        P.Judge(t, if Ahead(Advance(j.tours[t], j.store, GlanceAt(j, a))) == [] then P.Enough else P.Onward)
      else if AtCheck(j, t) then P.Judge(t, VerdictOf(j.store, EventAt(j, a)))
      else P.Effect(t, Freeing(j, EventAt(j, a)))
  }

  predicate Enabled(j: Joint, a: Step) {
    WellFormed(j, a) && P.Enabled(j.sys, LockSide(j, a))
  }

  /** What a turn does to the store, if it answers a request or is a glance. */
  function ItemOf(j: Joint, a: Step): Option<Item>
    requires WellFormed(j, a)
  {
    if !a.Turn? then None
    else if AtLookup(j, a.t) then
      if Branching(j, a).Found? || Branching(j, a).Listed? then None else Some(Whole(EventAt(j, a)))
    else if AtGlance(j, a.t) then Some(GlanceAt(j, a))
    else if AtCheck(j, a.t) then if VerdictOf(j.store, EventAt(j, a)).Granted? then None else Some(Whole(EventAt(j, a)))
    else Some(Whole(EventAt(j, a)))
  }

  /** The worker acts on what its check granted; a check that denies changes nothing. */
  function StoreAfter(j: Joint, a: Step): S.Store
    requires WellFormed(j, a)
  {
    if ItemOf(j, a) == None then j.store
    else if AtLookup(j, a.t) then S.Step(j.store, EventAt(j, a)).store
    else if AtGlance(j, a.t) then Do(j.store, GlanceAt(j, a))
    else if AtCheck(j, a.t) then j.store
    else Acted(j.store, EventAt(j, a)).store
  }

  /** What the worker has to report from the turn. */
  function ReplyOf(j: Joint, a: Step): S.Response
    requires WellFormed(j, a) && ItemOf(j, a) != None
  {
    if AtLookup(j, a.t) || AtCheck(j, a.t) then S.Step(j.store, EventAt(j, a)).response
    else if AtGlance(j, a.t) then Answer(j.store, GlanceAt(j, a))
    else Acted(j.store, EventAt(j, a)).response
  }

  function ToursAfter(j: Joint, a: Step): map<nat, Tour>
    requires WellFormed(j, a)
  {
    if a.Turn? && AtLookup(j, a.t) && Branching(j, a).Listed? then
      j.tours[a.t := Tour(j.store.queue, Wants(j.store, j.events[a.t].request.n), [])]
    else if a.Turn? && AtGlance(j, a.t) then
      j.tours[a.t := Advance(j.tours[a.t], j.store, GlanceAt(j, a))]
    else j.tours
  }

  function Next(j: Joint, a: Step): Joint
    requires Enabled(j, a)
  {
    var side := LockSide(j, a);
    Joint(
      P.Next(j.sys, side), StoreAfter(j, a),
      if side.Branch? && side.branch.Created? then j.ids[j.events[a.t].request.name := side.branch.id] else j.ids,
      if a.Begin? then j.events[a.t := a.event] else j.events,
      ToursAfter(j, a))
  }

  predicate Valid(j: Joint, run: seq<Step>)
    decreases |run|
  {
    run == [] || (Enabled(j, run[0]) && Valid(Next(j, run[0]), run[1..]))
  }

  function After(j: Joint, run: seq<Step>): Joint
    requires Valid(j, run)
    decreases |run|
  {
    if run == [] then j else After(Next(j, run[0]), run[1..])
  }

  // ----- what every run keeps, the leaking ones included -----

  /** A script from finding the file to checking it, or from the verdict to acting on it. */
  predicate OnWay(op: P.Op, id: nat, rest: seq<P.Instr>) {
    var find, act := P.Continue(op, P.Found(id)), P.Conclude(op, id, P.Granted);
    || rest == find || rest == find[1..] || (P.Late(op) && rest == find[2..])
    || rest == act || (op.Close? && (rest == act[1..] || rest == act[2..]))
  }

  predicate Pending(rest: seq<P.Instr>, id: nat) {
    P.Check(id) in rest || P.Act(id) in rest
  }

  /** A file about to be freed has left the store. */
  ghost predicate Freed(j: Joint, id: nat) {
    forall n :: n in j.store.files ==> IdOf(j.ids, n) != id
  }

  /** The worker runs the operation its request asks for. */
  predicate Busy(j: Joint, t: nat)
    requires t < |j.sys.threads|
  {
    && t in j.events && j.sys.threads[t].op == OpOf(j.events[t].request)
    && TakesLocks(j.events[t].request) && S.Sized(j.events[t].request)
  }

  /** The request has found its file, and what its check granted still holds when it comes to act. */
  ghost predicate Knows(j: Joint, t: nat, id: nat)
    requires t < |j.sys.threads|
  {
    var th := j.sys.threads[t];
    && t in j.events && OnWay(th.op, id, th.rest) && FindsFile(j.store, j.events[t])
    && IdOf(j.ids, j.events[t].request.name) == id
    && (P.Act(id) in th.rest ==> VerdictOf(j.store, j.events[t]).Granted?)
  }

  ghost predicate Underway(j: Joint, t: nat)
    requires t < |j.sys.threads|
  {
    var rest := j.sys.threads[t].rest;
    && (forall id :: Pending(rest, id) ==> Knows(j, t, id))
    && (forall id :: P.FreeFile(id) in rest ==> rest[0] == P.Act(id) || (rest[0] == P.FreeFile(id) && Freed(j, id)))
  }

  predicate Suffix(queue: seq<string>, left: seq<string>) {
    |left| <= |queue| && queue[|queue| - |left|..] == left
  }

  predicate TourShape(rest: seq<P.Instr>, ids: seq<nat>) {
    || rest == P.Visit(ids)
    || (ids != [] && rest == P.Visit(ids)[1..])
    || (rest != [] && rest[0].Release? && rest[0].lock.File? && rest[1..] == P.Visit(ids))
  }

  predicate Touring(j: Joint, t: nat)
    requires t < |j.sys.threads|
  {
    var th := j.sys.threads[t];
    || th.rest == P.Start(P.ReadN) || th.rest == [P.Lookup] || th.rest == [P.Release(P.Storage, P.R)]
    || (t in j.tours && TourShape(th.rest, IdsOf(j.ids, Ahead(j.tours[t])))
        && (Ahead(j.tours[t]) != [] ==> th.onStorage == Some(P.R) && Suffix(j.store.queue, j.tours[t].left)))
  }

  ghost predicate Placed(j: Joint, t: nat)
    requires t < |j.sys.threads|
  {
    j.sys.threads[t].rest != [] ==> Busy(j, t) && if j.events[t].request.ReadN? then Touring(j, t) else Underway(j, t)
  }

  /** No two workers are busy for one client. */
  ghost predicate Exclusive(j: Joint) {
    forall t: nat, u: nat :: Active(j, t) && Active(j, u) && t != u ==> j.events[t].client != j.events[u].client
  }

  ghost predicate Sound(j: Joint) {
    && Sane(j.sys) && SI.Inv(j.store) && Linked(j.store, j.ids, j.sys.table) && Exclusive(j)
    && forall t: nat :: t < |j.sys.threads| ==> Placed(j, t)
  }

  lemma InitSound(workers: nat, maxFiles: int, maxMB: nat, repPolicy: int)
    requires maxFiles > 0 && 0 < maxMB < S.U63
    ensures Sound(Init(workers, maxFiles, maxMB, repPolicy))
  {
    InitSane(workers);
    SI.InitAccounting(maxFiles, maxMB, repPolicy);
  }

  lemma SoundParts(j: Joint, t: nat)
    requires Sound(j) && t < |j.sys.threads|
    ensures Sane(j.sys) && SaneThread(j.sys.threads[t], j.sys.locks) && Placed(j, t)
    ensures SI.Inv(j.store) && Linked(j.store, j.ids, j.sys.table) && Exclusive(j)
  {
    ThreadIsSane(j.sys, t);
  }

  lemma AllSound(j: Joint)
    requires Sane(j.sys) && SI.Inv(j.store) && Linked(j.store, j.ids, j.sys.table) && Exclusive(j)
    requires forall t: nat :: t < |j.sys.threads| ==> Placed(j, t)
    ensures Sound(j)
  {
  }

  lemma SideSane(j: Joint, a: Step)
    requires Sound(j) && Enabled(j, a)
    ensures Sane(Next(j, a).sys)
  {
    StepSane(j.sys, LockSide(j, a));
  }

  // ----- what a step leaves of the others -----

  lemma OthersAfter(s: P.Sys, a: P.Step)
    requires P.Enabled(s, a)
    ensures |P.Next(s, a).threads| == |s.threads|
    ensures forall u :: 0 <= u < |s.threads| && u != a.t ==> P.Next(s, a).threads[u] == s.threads[u]
    ensures s.threads[a.t].rest == [] ==> a.Request?
  {
  }

  lemma ExclusiveStays(j: Joint, a: Step)
    requires Exclusive(j) && Enabled(j, a)
    ensures Exclusive(Next(j, a))
  {
    var j' := Next(j, a);
    OthersAfter(j.sys, LockSide(j, a));
    hide P.Next, P.Enabled, S.Step;
    forall t: nat, u: nat | Active(j', t) && Active(j', u) && t != u ensures j'.events[t].client != j'.events[u].client {
      if a.Begin? && a.t == t { assert Active(j, u); }
      else if a.Begin? && a.t == u { assert Active(j, t); }
      else { assert Active(j, t) && Active(j, u); }
    }
  }

  lemma PlacedStays(j: Joint, j': Joint, u: nat)
    requires u < |j.sys.threads| && u < |j'.sys.threads| && Placed(j, u) && j'.sys.threads[u] == j.sys.threads[u]
    requires u in j.events ==> u in j'.events && j'.events[u] == j.events[u]
    requires forall id :: Knows(j, u, id) && Pending(j.sys.threads[u].rest, id) ==> Knows(j', u, id)
    requires forall id :: P.FreeFile(id) in j.sys.threads[u].rest && P.FreeFile(id) == j.sys.threads[u].rest[0] && Freed(j, id) ==>
      Freed(j', id)
    requires u in j.events && j.events[u].request.ReadN? && Touring(j, u) ==> Touring(j', u)
    ensures Placed(j', u)
  {
    hide Knows, Freed, Touring;
  }

  /** The store and what this worker knows of it are left alone. */
  lemma SameStorePlaced(j: Joint, j': Joint, u: nat)
    requires u < |j.sys.threads| && u < |j'.sys.threads| && Placed(j, u) && j'.sys.threads[u] == j.sys.threads[u]
    requires u in j.events ==> u in j'.events && j'.events[u] == j.events[u]
    requires j'.store == j.store && j'.ids == j.ids
    requires u in j.tours ==> u in j'.tours && j'.tours[u] == j.tours[u]
    ensures Placed(j', u)
  {
    hide TourShape, OnWay;
    PlacedStays(j, j', u);
  }

  // ----- lock steps and new requests -----

  lemma RunAfter(s: P.Sys, t: nat)
    requires P.Enabled(s, P.Run(t))
    ensures var th, th' := s.threads[t], P.Next(s, P.Run(t)).threads[t];
      && th.rest != [] && !th.rest[0].Check? && !th.rest[0].Act? && !th.rest[0].Lookup?
      && (th' == th || (th'.rest == th.rest[1..] && th'.op == th.op
           && (th.rest[0].FreeFile? || th.rest[0].lock.File? ==> th'.onStorage == th.onStorage)))
    ensures P.Next(s, P.Run(t)).table ==
      if s.threads[t].rest[0].FreeFile? then s.table - {s.threads[t].rest[0].id} else s.table
  {
  }

  /** A script of which one step was taken is still on its way. */
  lemma OnWayNext(op: P.Op, id: nat, rest: seq<P.Instr>)
    requires OnWay(op, id, rest) && rest != [] && !rest[0].Check? && !rest[0].Act? && Pending(rest, id)
    ensures OnWay(op, id, rest[1..])
  {
  }

  lemma {:induction false} VisitPlain(ids: seq<nat>)
    ensures P.Visit(ids) != [] && forall i :: i in P.Visit(ids) ==> !i.Act? && !i.FreeFile? && !i.Lookup?
  {
    if ids != [] { VisitPlain(ids[1..]); }
  }

  lemma UnderwayNext(j: Joint, j': Joint, t: nat)
    requires t < |j.sys.threads| && Underway(j, t) && j'.store == j.store && j'.ids == j.ids && j'.events == j.events
    requires t < |j'.sys.threads|
    requires var th, th' := j.sys.threads[t], j'.sys.threads[t];
      && th.rest != [] && !th.rest[0].Check? && !th.rest[0].Act? && P.Scripted(th.op, th.rest, th.onStorage, th.onFile)
      && th'.rest == th.rest[1..] && th'.op == th.op
    ensures Underway(j', t)
  {
    var th, th' := j.sys.threads[t], j'.sys.threads[t];
    assert forall i :: i in th'.rest ==> i in th.rest;
    forall id | Pending(th'.rest, id) ensures Knows(j', t, id) {
      assert Knows(j, t, id);
      OnWayNext(th.op, id, th.rest);
    }
  }

  lemma TouringNext(j: Joint, j': Joint, t: nat)
    requires t < |j.sys.threads| && Touring(j, t) && j'.store == j.store && j'.ids == j.ids && j'.tours == j.tours
    requires t < |j'.sys.threads|
    requires var th, th' := j.sys.threads[t], j'.sys.threads[t];
      && th.rest != [] && !th.rest[0].Check? && !th.rest[0].Lookup? && th'.rest == th.rest[1..]
      && (th.rest[0].Release? || th.rest[0].Acquire?) && (th.rest[0].lock.File? ==> th'.onStorage == th.onStorage)
    ensures j'.sys.threads[t].rest != [] ==> Touring(j', t)
  {
    var th := j.sys.threads[t];
    if t in j.tours { VisitPlain(IdsOf(j.ids, Ahead(j.tours[t]))); }
  }

  lemma FreedLinked(j: Joint, t: nat)
    requires t < |j.sys.threads| && Placed(j, t) && Linked(j.store, j.ids, j.sys.table)
    requires j.sys.threads[t].rest != [] && j.sys.threads[t].rest[0].FreeFile?
    ensures !j.events[t].request.ReadN? && Linked(j.store, j.ids, j.sys.table - {j.sys.threads[t].rest[0].id})
  {
    var i := j.sys.threads[t].rest[0];
    assert i in j.sys.threads[t].rest;
    if j.events[t].request.ReadN? && t in j.tours { VisitPlain(IdsOf(j.ids, Ahead(j.tours[t]))); }
  }

  lemma LockSound(j: Joint, t: nat)
    requires Sound(j) && Enabled(j, Lock(t))
    ensures Sound(Next(j, Lock(t)))
  {
    var j', th := Next(j, Lock(t)), j.sys.threads[t];
    SideSane(j, Lock(t));
    ExclusiveStays(j, Lock(t));
    SoundParts(j, t);
    OthersAfter(j.sys, P.Run(t));
    RunAfter(j.sys, t);
    assert j'.store == j.store && j'.ids == j.ids && j'.events == j.events && j'.tours == j.tours;
    hide P.Next, P.Enabled, S.Step, Next, Enabled, Sane, SI.Inv, P.Scripted, Linked, Placed, Exclusive;
    if th.rest[0].FreeFile? { FreedLinked(j, t); }
    forall u: nat | u < |j'.sys.threads| ensures Placed(j', u) {
      if j'.sys.threads[u] == j.sys.threads[u] { SameStorePlaced(j, j', u); } else { NextPlaced(j, j', t); }
    }
  }

  lemma NextPlaced(j: Joint, j': Joint, t: nat)
    requires t < |j.sys.threads| && Placed(j, t) && SaneThread(j.sys.threads[t], j.sys.locks) && t < |j'.sys.threads|
    requires j'.store == j.store && j'.ids == j.ids && j'.events == j.events && j'.tours == j.tours
    requires var th, th' := j.sys.threads[t], j'.sys.threads[t];
      && th.rest != [] && !th.rest[0].Check? && !th.rest[0].Act? && !th.rest[0].Lookup?
      && th'.rest == th.rest[1..] && th'.op == th.op
      && (th.rest[0].FreeFile? || th.rest[0].lock.File? ==> th'.onStorage == th.onStorage)
      && (th.rest[0].FreeFile? ==> !j.events[t].request.ReadN?)
    ensures Placed(j', t)
  {
    hide TourShape, OnWay;
    if j.events[t].request.ReadN? { TouringNext(j, j', t); } else { UnderwayNext(j, j', t); }
  }

  lemma SpuriousSound(j: Joint, t: nat)
    requires Sound(j) && Enabled(j, Spurious(t))
    ensures Sound(Next(j, Spurious(t)))
  {
    var j' := Next(j, Spurious(t));
    SideSane(j, Spurious(t));
    ExclusiveStays(j, Spurious(t));
    assert j'.sys.threads == j.sys.threads && j'.sys.table == j.sys.table;
    hide P.Next, S.Step, Sane, Linked, SI.Inv, Placed, Exclusive;
    forall u: nat | u < |j'.sys.threads| ensures Placed(j', u) {
      SameStorePlaced(j, j', u);
    }
  }

  lemma StartPlaced(j: Joint, t: nat)
    requires t < |j.sys.threads| && Busy(j, t) && j.sys.threads[t].rest == P.Start(j.sys.threads[t].op)
    ensures Placed(j, t)
  {
  }

  lemma BeginSound(j: Joint, t: nat, e: S.Event)
    requires Sound(j) && Enabled(j, Begin(t, e))
    ensures Sound(Next(j, Begin(t, e)))
  {
    var j' := Next(j, Begin(t, e));
    SideSane(j, Begin(t, e));
    ExclusiveStays(j, Begin(t, e));
    OthersAfter(j.sys, P.Request(t, OpOf(e.request)));
    StartPlaced(j', t);
    assert j'.sys.table == j.sys.table;
    hide P.Next, S.Step, Sane, Linked, SI.Inv, Placed, Exclusive;
    forall u: nat | u < |j'.sys.threads| && u != t ensures Placed(j', u) {
      SameStorePlaced(j, j', u);
    }
  }

  // ----- turns at the lookup -----

  lemma BranchAfter(s: P.Sys, t: nat, b: P.Branch)
    requires P.Enabled(s, P.Step.Branch(t, b))
    ensures var th := s.threads[t];
      && P.Next(s, P.Step.Branch(t, b)).threads[t] == th.(rest := P.Continue(th.op, b)) && P.Possible(th.op, b)
    ensures P.Next(s, P.Step.Branch(t, b)).table == if b.Created? then s.table + {b.id} else s.table
    ensures b.Created? ==> P.File(b.id) !in s.locks
  {
  }

  /** A worker that found its file goes on to check it; a readN that has files to look at sets out. */
  lemma SetOffPlaced(j: Joint, j': Joint, a: Step)
    requires a.Turn? && AtLookup(j, a.t) && (Branching(j, a).Found? || Branching(j, a).Listed?)
    requires Placed(j, a.t) && SaneThread(j.sys.threads[a.t], j.sys.locks)
    requires j'.store == j.store && j'.ids == j.ids && j'.events == j.events && j'.tours == ToursAfter(j, a)
    requires a.t < |j'.sys.threads|
    requires var th := j.sys.threads[a.t]; j'.sys.threads[a.t] == th.(rest := P.Continue(th.op, Branching(j, a)))
    ensures Placed(j', a.t)
  {
    hide S.Step;
    var th, b := j.sys.threads[a.t], Branching(j, a);
    assert th.onStorage == Some(P.LookupMode(th.op));
    if b.Listed? {
      assert j'.tours[a.t].left == j.store.queue && Ahead(j'.tours[a.t]) == j.store.queue;
      assert TourShape(P.Visit(b.ids), b.ids);
    } else {
      FoundUnderway(j', a.t, b.id);
    }
  }

  lemma FoundUnderway(j: Joint, t: nat, id: nat)
    requires t < |j.sys.threads| && Busy(j, t) && FindsFile(j.store, j.events[t])
    requires IdOf(j.ids, j.events[t].request.name) == id
    requires j.sys.threads[t].rest == P.Continue(j.sys.threads[t].op, P.Found(id))
    ensures Placed(j, t)
  {
    assert OnWay(j.sys.threads[t].op, id, j.sys.threads[t].rest);
  }

  /** The lock protocol's side of a turn at the lookup. */
  lemma BranchSide(j: Joint, a: Step)
    requires Sound(j) && Enabled(j, a) && a.Turn? && AtLookup(j, a.t)
    ensures Sane(Next(j, a).sys) && Exclusive(Next(j, a))
    ensures var j', th, b := Next(j, a), j.sys.threads[a.t], Branching(j, a);
      && |j'.sys.threads| == |j.sys.threads| && P.Possible(th.op, b)
      && j'.sys.table == (if b.Created? then j.sys.table + {b.id} else j.sys.table)
      && (b.Created? ==> P.File(b.id) !in j.sys.locks)
      && (forall u :: 0 <= u < |j.sys.threads| && u != a.t ==> j'.sys.threads[u] == j.sys.threads[u])
      && j'.sys.threads[a.t] == th.(rest := P.Continue(th.op, b))
      && j'.ids == (if b.Created? then j.ids[j.events[a.t].request.name := b.id] else j.ids)
      && j'.events == j.events && j'.tours == ToursAfter(j, a) && j'.store == StoreAfter(j, a)
  {
    SideSane(j, a);
    ExclusiveStays(j, a);
    hide S.Step, Sane, SI.Inv, Exclusive, Placed, Linked, Sound, P.Next, P.Continue, VerdictOf, Acted, Doable, P.Possible;
    OthersAfter(j.sys, LockSide(j, a));
    BranchAfter(j.sys, a.t, Branching(j, a));
  }

  lemma SetOffLeaves(j: Joint, a: Step)
    requires Sound(j) && Enabled(j, a) && a.Turn? && AtLookup(j, a.t)
    requires Branching(j, a).Found? || Branching(j, a).Listed?
    ensures Next(j, a).store == j.store && Next(j, a).ids == j.ids
    ensures forall u :: u != a.t && u in j.tours ==> u in ToursAfter(j, a) && ToursAfter(j, a)[u] == j.tours[u]
  {
    hide S.Step, Sane, SI.Inv, Exclusive, Placed, Linked, Sound, P.Next, P.Enabled, BranchOf;
  }

  lemma SetOffSound(j: Joint, a: Step)
    requires Sound(j) && Enabled(j, a) && a.Turn? && AtLookup(j, a.t)
    requires Branching(j, a).Found? || Branching(j, a).Listed?
    ensures Sound(Next(j, a))
  {
    var j' := Next(j, a);
    BranchSide(j, a);
    SoundParts(j, a.t);
    SetOffLeaves(j, a);
    hide P.Continue, Next, Enabled, BranchOf, Sane, SI.Inv, Linked, Placed, Exclusive, Sound, StoreAfter, WellFormed, ToursAfter;
    SetOffPlaced(j, j', a);
    hide Branching, AtLookup;
    forall u: nat | u < |j'.sys.threads| && u != a.t ensures Placed(j', u) {
      SoundParts(j, u);
      SameStorePlaced(j, j', u);
    }
    AllSound(j');
  }

  /** A file with a fresh lock may join; the others stand as they did. */
  ghost predicate Joins(j: Joint, j': Joint, name: string, created: Option<nat>) {
    && (created.Some? ==> P.File(created.value) !in j.sys.locks && name !in j.store.files)
    && j'.ids == (if created.Some? then j.ids[name := created.value] else j.ids)
    && j'.store.files.Keys == (if created.Some? then j.store.files.Keys + {name} else j.store.files.Keys)
    && (forall n :: n in j.store.files ==> j'.store.files[n] == j.store.files[n])
    && j'.store.queue == j.store.queue && j'.events == j.events && j'.tours == j.tours
  }

  lemma JoinedPlaced(j: Joint, j': Joint, u: nat, name: string, created: Option<nat>)
    requires u < |j.sys.threads| && Placed(j, u) && SaneThread(j.sys.threads[u], j.sys.locks) && SI.Inv(j.store)
    requires Joins(j, j', name, created) && u < |j'.sys.threads| && j'.sys.threads[u] == j.sys.threads[u]
    ensures Placed(j', u)
  {
    var th := j.sys.threads[u];
    forall k | P.FreeFile(k) in th.rest && P.FreeFile(k) == th.rest[0] && Freed(j, k) ensures Freed(j', k) {
      assert P.File(k) in j.sys.locks;
    }
    hide OnWay, TourShape;
    forall k | Knows(j, u, k) && Pending(th.rest, k) ensures Knows(j', u, k) {
      VerdictStays(j.store, j'.store, j.events[u]);
    }
    if u in j.events && j.events[u].request.ReadN? && Touring(j, u) { JoinedTouring(j, j', u, name, created); }
    PlacedStays(j, j', u);
  }

  lemma JoinedTouring(j: Joint, j': Joint, u: nat, name: string, created: Option<nat>)
    requires u < |j.sys.threads| && Touring(j, u) && SI.Inv(j.store)
    requires Joins(j, j', name, created) && u < |j'.sys.threads| && j'.sys.threads[u] == j.sys.threads[u]
    ensures Touring(j', u)
  {
    if u in j.tours && Ahead(j.tours[u]) != [] && Suffix(j.store.queue, j.tours[u].left) {
      SuffixKnown(j.store, j.tours[u].left);
      assert IdsOf(j'.ids, Ahead(j.tours[u])) == IdsOf(j.ids, Ahead(j.tours[u]));
    }
  }

  lemma SuffixKnown(s: S.Store, left: seq<string>)
    requires SI.Inv(s) && Suffix(s.queue, left)
    ensures forall i :: 0 <= i < |left| ==> left[i] in s.files && left[i] in s.queue
  {
    assert forall i :: 0 <= i < |left| ==> left[i] == s.queue[|s.queue| - |left| + i];
  }

  lemma LinkedGrows(s: S.Store, s': S.Store, ids: map<string, nat>, table: set<nat>, name: string, created: Option<nat>)
    requires Linked(s, ids, table)
    requires created.Some? ==> created.value !in table && name !in s.files
    requires s'.files.Keys == (if created.Some? then s.files.Keys + {name} else s.files.Keys)
    ensures Linked(s', if created.Some? then ids[name := created.value] else ids,
                   if created.Some? then table + {created.value} else table)
  {
  }

  lemma PlainPlaced(j: Joint, t: nat)
    requires t < |j.sys.threads| && Busy(j, t) && |j.sys.threads[t].rest| == 1 && j.sys.threads[t].rest[0].Release?
    requires j.events[t].request.ReadN? ==> j.sys.threads[t].rest == [P.Release(P.Storage, P.R)]
    ensures Placed(j, t)
  {
  }

  lemma LookupJoins(j: Joint, a: Step, name: string, created: Option<nat>)
    requires SI.Inv(j.store) && Enabled(j, a) && a.Turn? && AtLookup(j, a.t) && TakesLocks(j.events[a.t].request)
    requires !Branching(j, a).Found? && !Branching(j, a).Listed?
    requires created == (if Branching(j, a).Created? then Some(Branching(j, a).id) else None)
    requires name == (if j.events[a.t].request.ReadN? then "" else j.events[a.t].request.name)
    ensures Joins(j, Next(j, a), name, created) && SI.Inv(Next(j, a).store)
  {
    var e := EventAt(j, a);
    LookupAnswers(j.store, j.ids, e, a.freshId);
    BranchAfter(j.sys, a.t, Branching(j, a));
    if Branching(j, a).Created? { SI.StepInv(j.store, e); }
    hide P.Next, P.Enabled, SI.Inv;
    assert S.Step(j.store, e).store.queue == j.store.queue;
  }

  lemma AnswerSound(j: Joint, a: Step)
    requires Sound(j) && Enabled(j, a) && a.Turn? && AtLookup(j, a.t)
    requires !Branching(j, a).Found? && !Branching(j, a).Listed?
    ensures Sound(Next(j, a))
  {
    var j', b, e := Next(j, a), Branching(j, a), j.events[a.t];
    hide Sane, SI.Inv, Linked, Exclusive, WellFormed, ToursAfter, Underway, Touring, P.Enabled, P.Next, S.Step;
    BranchSide(j, a);
    SoundParts(j, a.t);
    hide Sound, StoreAfter;
    var created := if b.Created? then Some(b.id) else None;
    var name := if e.request.ReadN? then "" else e.request.name;
    assert Busy(j, a.t);
    LookupJoins(j, a, name, created);
    assert b.Created? ==> !e.request.ReadN? && b.id !in j.sys.table;
    hide Next, Enabled, BranchOf, Branching;
    LinkedGrows(j.store, j'.store, j.ids, j.sys.table, name, created);
    PlainPlaced(j', a.t);
    hide Placed;
    forall u: nat | u < |j'.sys.threads| && u != a.t ensures Placed(j', u) {
      SoundParts(j, u);
      JoinedPlaced(j, j', u, name, created);
    }
    AllSound(j');
  }

  // ----- turns of readN at a file -----

  lemma JudgeAfter(s: P.Sys, t: nat, v: P.Verdict)
    requires P.Enabled(s, P.Judge(t, v))
    ensures var th := s.threads[t];
      && th.rest != [] && th.rest[0].Check? && P.PossibleVerdict(th.op, v)
      && P.Next(s, P.Judge(t, v)).threads[t] == th.(rest := P.Concluded(th.op, th.rest, v))
    ensures P.Next(s, P.Judge(t, v)).table == s.table
  {
  }

  lemma UptoInv(s: S.Store, s': S.Store)
    requires SI.Inv(s) && Upto(s, s')
    ensures SI.Inv(s') && (SI.Accounting(s') <==> SI.Accounting(s))
  {
    SI.SameAccountsKeeps(s, s');
  }

  lemma GlanceUpto(s: S.Store, i: Item)
    requires i.Glance?
    ensures Upto(s, Do(s, i))
  {
  }

  lemma VerdictTimeless(s: S.Store, e: S.Event, now: int)
    requires FindsFile(s, e)
    ensures FindsFile(s, e.(now := now)) && VerdictOf(s, e.(now := now)) == VerdictOf(s, e)
  {
  }

  /** Refreshed access times disturb nobody. */
  lemma UptoPlaced(j: Joint, j': Joint, u: nat)
    requires u < |j.sys.threads| && Placed(j, u) && Upto(j.store, j'.store)
    requires j'.ids == j.ids && j'.events == j.events && u < |j'.sys.threads| && j'.sys.threads[u] == j.sys.threads[u]
    requires u in j.tours ==> u in j'.tours && j'.tours[u] == j.tours[u]
    ensures Placed(j', u)
  {
    hide OnWay, TourShape;
    forall k | Knows(j, u, k) && Pending(j.sys.threads[u].rest, k) ensures Knows(j', u, k) {
      VerdictStays(j.store, j'.store, j.events[u]);
    }
    PlacedStays(j, j', u);
  }

  lemma IdsTail(ids: map<string, nat>, left: seq<string>)
    requires left != []
    ensures IdsOf(ids, left)[1..] == IdsOf(ids, left[1..]) && IdsOf(ids, left) != []
  {
  }

  /** A tour at a file: the script, the files ahead and the lock agree. */
  lemma AtFile(j: Joint, t: nat)
    requires t < |j.sys.threads| && Touring(j, t) && j.sys.threads[t].rest != [] && j.sys.threads[t].rest[0].Check?
    ensures t in j.tours && j.tours[t].wanted > 0 && j.tours[t].left != []
    ensures var left := j.tours[t].left;
      j.sys.threads[t].rest ==
        [P.Check(IdOf(j.ids, left[0])), P.Release(P.File(IdOf(j.ids, left[0])), P.R)] + P.Visit(IdsOf(j.ids, left[1..]))
    ensures Suffix(j.store.queue, j.tours[t].left) && j.sys.threads[t].onStorage == Some(P.R)
  {
    VisitPlain(IdsOf(j.ids, Ahead(j.tours[t])));
    assert Ahead(j.tours[t]) != [];
    IdsTail(j.ids, j.tours[t].left);
  }

  /** The script after a glance. */
  lemma GlanceShape(op: P.Op, ids: map<string, nat>, left: seq<string>, rest: seq<P.Instr>, v: P.Verdict, ahead: seq<string>)
    requires op.ReadN? && left != [] && ahead == (if v.Enough? then [] else left[1..]) && (v.Enough? || v.Onward?)
    requires rest == [P.Check(IdOf(ids, left[0])), P.Release(P.File(IdOf(ids, left[0])), P.R)] + P.Visit(IdsOf(ids, left[1..]))
    ensures TourShape(P.Concluded(op, rest, v), IdsOf(ids, ahead))
  {
    var id, tail := IdOf(ids, left[0]), P.Visit(IdsOf(ids, left[1..]));
    if v.Enough? {
      assert P.FileFirst(op, id)[1..] == [P.Release(P.Storage, P.R)] == P.Visit([]);
    } else {
      assert rest[1..] == [P.Release(P.File(id), P.R)] + tail;
      assert rest[1..][1..] == tail;
    }
  }

  lemma SuffixTail(queue: seq<string>, left: seq<string>)
    requires Suffix(queue, left) && left != []
    ensures Suffix(queue, left[1..])
  {
  }

  lemma GlancePlaced(j: Joint, j': Joint, a: Step)
    requires a.Turn? && AtGlance(j, a.t) && Placed(j, a.t)
    requires j'.store.queue == j.store.queue && j'.ids == j.ids && j'.events == j.events && j'.tours == ToursAfter(j, a)
    requires a.t < |j'.sys.threads|
    requires var th, v := j.sys.threads[a.t], LockSide(j, a).verdict;
      j'.sys.threads[a.t] == th.(rest := P.Concluded(th.op, th.rest, v))
    ensures Placed(j', a.t)
  {
    var th, tour, tour' := j.sys.threads[a.t], j.tours[a.t], j'.tours[a.t];
    var v := LockSide(j, a).verdict;
    AtFile(j, a.t);
    assert tour'.left == tour.left[1..] && (v.Enough? <==> Ahead(tour') == []) && (v.Enough? || v.Onward?);
    assert Busy(j', a.t);
    hide Placed, LockSide, ToursAfter, P.Concluded, Touring, Sees, Answer;
    GlanceShape(th.op, j.ids, tour.left, th.rest, v, Ahead(tour'));
    SuffixTail(j.store.queue, tour.left);
    TourPlaced(j', a.t);
  }

  lemma TourPlaced(j: Joint, t: nat)
    requires t < |j.sys.threads| && Busy(j, t) && j.events[t].request.ReadN? && t in j.tours
    requires TourShape(j.sys.threads[t].rest, IdsOf(j.ids, Ahead(j.tours[t])))
    requires j.sys.threads[t].onStorage == Some(P.R) && Suffix(j.store.queue, j.tours[t].left)
    ensures Placed(j, t)
  {
  }

  /** The lock protocol's side of a turn at a glance or a check. */
  lemma JudgeSide(j: Joint, a: Step)
    requires Sound(j) && Enabled(j, a) && a.Turn? && (AtGlance(j, a.t) || AtCheck(j, a.t))
    ensures LockSide(j, a).Judge? && Sane(Next(j, a).sys) && Exclusive(Next(j, a))
    ensures var j', th := Next(j, a), j.sys.threads[a.t];
      && |j'.sys.threads| == |j.sys.threads| && j'.sys.table == j.sys.table
      && (forall u :: 0 <= u < |j.sys.threads| && u != a.t ==> j'.sys.threads[u] == j.sys.threads[u])
      && j'.sys.threads[a.t] == th.(rest := P.Concluded(th.op, th.rest, LockSide(j, a).verdict))
      && j'.ids == j.ids && j'.events == j.events && j'.tours == ToursAfter(j, a) && j'.store == StoreAfter(j, a)
  {
    SideSane(j, a);
    SoundParts(j, a.t);
    ExclusiveStays(j, a);
    hide S.Step, Sane, SI.Inv, Exclusive, Placed, Linked, Sound, P.Next, P.Concluded, VerdictOf, Acted, Doable, Exclusive;
    OthersAfter(j.sys, LockSide(j, a));
    JudgeAfter(j.sys, a.t, LockSide(j, a).verdict);
  }

  lemma GlanceSound(j: Joint, a: Step)
    requires Sound(j) && Enabled(j, a) && a.Turn? && AtGlance(j, a.t)
    ensures Sound(Next(j, a))
  {
    var j' := Next(j, a);
    hide P.Next, P.Enabled, S.Step, Sane, SI.Inv, Placed, Exclusive, Linked, LockSide, P.Concluded, Enabled;
    JudgeSide(j, a);
    SoundParts(j, a.t);
    hide Next, Sound;
    assert j'.store == Do(j.store, GlanceAt(j, a));
    GlanceUpto(j.store, GlanceAt(j, a));
    UptoInv(j.store, j'.store);
    GlancePlaced(j, j', a);
    UptoLinked(j.store, j'.store, j.ids, j.sys.table);
    forall u: nat | u < |j'.sys.threads| && u != a.t ensures Placed(j', u) { SoundParts(j, u); UptoOtherPlaced(j, j', a, u); }
    AllSound(j');
  }

  lemma UptoLinked(s: S.Store, s': S.Store, ids: map<string, nat>, table: set<nat>)
    requires Linked(s, ids, table) && Upto(s, s')
    ensures Linked(s', ids, table)
  {
  }

  lemma UptoOtherPlaced(j: Joint, j': Joint, a: Step, u: nat)
    requires WellFormed(j, a) && u != a.t && u < |j.sys.threads| && Placed(j, u) && Upto(j.store, j'.store)
    requires j'.ids == j.ids && j'.events == j.events && u < |j'.sys.threads| && j'.sys.threads[u] == j.sys.threads[u]
    requires j'.tours == ToursAfter(j, a)
    ensures Placed(j', u)
  {
    UptoPlaced(j, j', u);
  }

  // ----- turns at the check -----

  lemma ConcludePlain(op: P.Op, id: nat, v: P.Verdict)
    requires !v.Granted?
    ensures forall i :: i in P.Conclude(op, id, v) ==> !i.Check? && !i.Act? && !i.FreeFile?
  {
  }

  lemma GrantedNames(op: P.Op, id: nat)
    ensures var rest := P.Conclude(op, id, P.Granted);
      && (forall k :: Pending(rest, k) ==> k == id) && OnWay(op, id, rest)
      && (forall k :: P.FreeFile(k) in rest ==> rest[0] == P.Act(k))
  {
  }

  lemma CheckPlaced(j: Joint, j': Joint, t: nat, id: nat)
    requires AtCheck(j, t) && Placed(j, t) && j.sys.threads[t].rest == [P.Check(id)]
    requires j'.ids == j.ids && j'.events == j.events && j'.store == j.store && t < |j'.sys.threads|
    requires j'.sys.threads[t] ==
      j.sys.threads[t].(rest := P.Conclude(j.sys.threads[t].op, id, VerdictOf(j.store, j.events[t])))
    ensures Placed(j', t)
  {
    var th, v := j.sys.threads[t], VerdictOf(j.store, j.events[t]);
    assert P.Check(id) in th.rest && Knows(j, t, id);
    hide OnWay, VerdictOf, P.Conclude;
    if v.Granted? { GrantedNames(th.op, id); } else { ConcludePlain(th.op, id, v); }
  }

  /** A check takes the verdict of the moment and changes nothing else. */
  lemma CheckSide(j: Joint, a: Step)
    requires Sound(j) && Enabled(j, a) && a.Turn? && AtCheck(j, a.t)
    ensures j.sys.threads[a.t].rest == [P.Check(j.sys.threads[a.t].rest[0].id)]
    ensures LockSide(j, a).verdict == VerdictOf(j.store, j.events[a.t])
    ensures P.Concluded(j.sys.threads[a.t].op, j.sys.threads[a.t].rest, VerdictOf(j.store, j.events[a.t]))
      == P.Conclude(j.sys.threads[a.t].op, j.sys.threads[a.t].rest[0].id, VerdictOf(j.store, j.events[a.t]))
    ensures StoreAfter(j, a) == j.store && ToursAfter(j, a) == j.tours
  {
    SoundParts(j, a.t);
    VerdictTimeless(j.store, j.events[a.t], a.now);
    VerdictNever(j.store, j.events[a.t]);
    CheckRest(j, a.t);
    hide Sane, SI.Inv, Exclusive, Placed, Linked, Sound, P.Next, P.Enabled, P.Conclude, S.Step, Acted, Doable, VerdictOf, FindsFile;
    hide SaneThread, BranchOf;
  }

  lemma VerdictNever(s: S.Store, e: S.Event)
    requires FindsFile(s, e)
    ensures !VerdictOf(s, e).Onward? && !VerdictOf(s, e).Enough?
  {
  }

  lemma CheckRest(j: Joint, t: nat)
    requires AtCheck(j, t) && Placed(j, t) && SaneThread(j.sys.threads[t], j.sys.locks)
    ensures j.sys.threads[t].rest == [P.Check(j.sys.threads[t].rest[0].id)] && !AtLookup(j, t) && !AtGlance(j, t)
  {
    assert j.sys.threads[t].op == OpOf(j.events[t].request);
  }

  lemma CheckSound(j: Joint, a: Step)
    requires Sound(j) && Enabled(j, a) && a.Turn? && AtCheck(j, a.t)
    ensures Sound(Next(j, a))
  {
    var j' := Next(j, a);
    JudgeSide(j, a);
    CheckSide(j, a);
    SoundParts(j, a.t);
    hide P.Conclude, P.Concluded, Next, Enabled, Sane, SI.Inv, VerdictOf, Linked, Placed, Exclusive, LockSide, Sound;
    hide StoreAfter, ToursAfter, WellFormed;
    CheckPlaced(j, j', a.t, j.sys.threads[a.t].rest[0].id);
    hide AtCheck;
    forall u: nat | u < |j'.sys.threads| && u != a.t ensures Placed(j', u) { SoundParts(j, u); SameStorePlaced(j, j', u); }
    AllSound(j');
  }

  // ----- turns to act -----

  lemma EffectAfter(s: P.Sys, t: nat, gone: set<nat>)
    requires P.Enabled(s, P.Effect(t, gone))
    ensures var s', th := P.Next(s, P.Effect(t, gone)), s.threads[t];
      && th.rest != [] && th.rest[0].Act? && s'.threads[t] == th.(rest := th.rest[1..]) && s'.table == s.table - gone
    ensures forall id, u :: id in gone && 0 <= u < |s.threads| && u != t ==> !P.Refers(s.threads[u], id)
  {
  }

  /** A worker on its way refers to its file, under the storage lock or the file's. */
  lemma OnWayHolds(th: P.Thread, id: nat)
    requires P.Scripted(th.op, th.rest, th.onStorage, th.onFile) && OnWay(th.op, id, th.rest)
    requires !th.op.ReadN? && !th.op.OpenCreate?
    ensures P.Refers(th, id)
    ensures th.onStorage.Some? || (th.onFile.Some? && th.onFile.value.0 == id)
    ensures P.Act(id) in th.rest && !th.op.Close? ==> th.onFile.Some? && th.onFile.value.0 == id
  {
    var find, act := P.Continue(th.op, P.Found(id)), P.Conclude(th.op, id, P.Granted);
    if th.rest == act || (th.op.Close? && (th.rest == act[1..] || th.rest == act[2..])) {
      assert P.NamesFile(th.rest[0], id);
    } else {
      assert P.NamesFile(th.rest[|th.rest| - 1], id) by { assert th.rest[|th.rest| - 1] == P.Check(id); }
    }
  }

  lemma ActingThread(th: P.Thread, locks: map<P.LockId, L.State>)
    requires SaneThread(th, locks) && th.rest != [] && th.rest[0].Act?
    ensures th.onFile == Some((th.rest[0].id, P.ActMode(th.op))) && P.File(th.rest[0].id) in locks
    ensures th.onStorage == P.HeldThen(th.op)
  {
  }

  lemma ActKnown(j: Joint, t: nat)
    requires AtAct(j, t) && Placed(j, t)
    ensures j.sys.threads[t].op == OpOf(j.events[t].request)
    ensures Knows(j, t, j.sys.threads[t].rest[0].id) && VerdictOf(j.store, j.events[t]).Granted?
  {
    hide VerdictOf, OnWay, Touring;
    var rest := j.sys.threads[t].rest;
    assert P.Act(rest[0].id) in rest && Pending(rest, rest[0].id);
  }

  /** A worker about to act is inside its file's lock, and one that may take files away is alone in the storage. */
  lemma ActHolds(j: Joint, t: nat)
    requires Sound(j) && AtAct(j, t)
    ensures var th := j.sys.threads[t]; var id := th.rest[0].id;
      && P.File(id) in j.sys.locks && In(j.sys.locks[P.File(id)], t, P.ActMode(th.op)) && th.op == OpOf(j.events[t].request)
      && (P.LookupMode(th.op) == P.W ==> P.Storage in j.sys.locks && In(j.sys.locks[P.Storage], t, P.W))
      && Knows(j, t, id) && VerdictOf(j.store, j.events[t]).Granted?
  {
    SoundParts(j, t);
    ActKnown(j, t);
    var th := j.sys.threads[t];
    ActingThread(th, j.sys.locks);
    hide SI.Inv, Linked, Exclusive, Placed, Sane, Sound, VerdictOf, Knows, SaneThread, FindsFile, OpOf, In;
    AnyStorage(j.sys);
    HolderInside(j.sys, t, P.File(th.rest[0].id), P.ActMode(th.op));
    if P.LookupMode(th.op) == P.W { HolderInside(j.sys, t, P.Storage, P.W); }
  }

  lemma NotBoth(s: P.Sys, t: nat, u: nat, id: nat, op: P.Op)
    requires Sane(s) && t < |s.threads| && u < |s.threads| && u != t && P.File(id) in s.locks
    requires In(s.locks[P.File(id)], t, P.ActMode(op))
    requires P.LookupMode(op) == P.W ==> P.Storage in s.locks && In(s.locks[P.Storage], t, P.W)
    requires s.threads[u].onStorage.Some? || (s.threads[u].onFile.Some? && s.threads[u].onFile.value.0 == id)
    ensures P.LookupMode(op) == P.R
    ensures P.ActMode(op) == P.W ==> !(s.threads[u].onFile.Some? && s.threads[u].onFile.value.0 == id)
  {
    if P.ActMode(op) == P.W { NoOneHolds(s, t, P.File(id), u); }
    if P.LookupMode(op) == P.W { NoOneHolds(s, t, P.Storage, u); }
  }

  /** Another worker on its way to the same file has yet to get its lock, or is reading beside a reader. */
  lemma ActorApart(j: Joint, t: nat, u: nat)
    requires Sound(j) && AtAct(j, t) && u < |j.sys.threads| && u != t
    requires var id, th := j.sys.threads[t].rest[0].id, j.sys.threads[u];
      OnWay(th.op, id, th.rest) && P.Scripted(th.op, th.rest, th.onStorage, th.onFile) && !th.op.ReadN? && !th.op.OpenCreate?
    ensures var op := j.sys.threads[t].op; var id := j.sys.threads[t].rest[0].id;
      && P.LookupMode(op) == P.R
      && (P.Act(id) in j.sys.threads[u].rest ==> j.sys.threads[u].op.Close? || op.Read?)
  {
    var id := j.sys.threads[t].rest[0].id;
    ActHolds(j, t);
    OnWayHolds(j.sys.threads[u], id);
    assert Sane(j.sys);
    hide OnWay, SI.Inv, Linked, Exclusive, Placed, Sound, Sane, VerdictOf, FindsFile, P.Scripted, P.Refers, In, AtAct, Knows;
    NotBoth(j.sys, t, u, id, j.sys.threads[t].op);
  }

  /** The store's side of acting: what was granted is carried out as if checked at this moment. */
  lemma ActStore(j: Joint, a: Step)
    requires Sound(j) && a.Turn? && AtAct(j, a.t) && Doable(j.store, EventAt(j, a))
    ensures var e := EventAt(j, a);
      && VerdictOf(j.store, e).Granted? && FindsFile(j.store, e) && S.Sized(e.request)
      && Acted(j.store, e) == S.Step(j.store, e) && SI.Inv(Acted(j.store, e).store)
  {
    var e := EventAt(j, a);
    SoundParts(j, a.t);
    ActHolds(j, a.t);
    VerdictTimeless(j.store, j.events[a.t], a.now);
    ActedIsStep(j.store, e);
    assert S.Sized(e.request);
    hide Acted, S.Step, VerdictOf, Placed, Sound, Linked;
    SI.StepInv(j.store, e);
  }

  /** What holds of the system after a worker has acted. */
  ghost predicate HasActed(j: Joint, j': Joint, a: Step) {
    && a.Turn? && AtAct(j, a.t) && Doable(j.store, EventAt(j, a))
    && j'.store == Acted(j.store, EventAt(j, a)).store && j'.ids == j.ids && j'.events == j.events && j'.tours == j.tours
    && |j'.sys.threads| == |j.sys.threads|
    && (forall u :: 0 <= u < |j.sys.threads| && u != a.t ==> j'.sys.threads[u] == j.sys.threads[u])
    && j'.sys.threads[a.t] == j.sys.threads[a.t].(rest := j.sys.threads[a.t].rest[1..])
    && j'.sys.table == j.sys.table - Freeing(j, EventAt(j, a))
    && forall id, u :: id in Freeing(j, EventAt(j, a)) && 0 <= u < |j.sys.threads| && u != a.t ==>
         !P.Refers(j.sys.threads[u], id)
  }

  predicate ActsNow(j: Joint, a: Step) {
    a.Turn? && !AtLookup(j, a.t) && !AtGlance(j, a.t) && !AtCheck(j, a.t)
  }

  lemma ActSide(j: Joint, a: Step)
    requires Sound(j) && Enabled(j, a) && ActsNow(j, a)
    ensures HasActed(j, Next(j, a), a) && Sane(Next(j, a).sys) && Exclusive(Next(j, a))
  {
    SideSane(j, a);
    ExclusiveStays(j, a);
    hide S.Step, Sane, SI.Inv, Exclusive, Placed, Linked, Sound, P.Next, P.Enabled, VerdictOf, Acted, Freeing, FindsFile, P.Refers;
    OthersAfter(j.sys, LockSide(j, a));
    EffectAfter(j.sys, a.t, Freeing(j, EventAt(j, a)));
  }

  /** A worker on its way, beside one that acts. */
  lemma OnWayBeside(j: Joint, t: nat, u: nat, id: nat)
    requires Sound(j) && AtAct(j, t) && u < |j.sys.threads| && u != t
    requires Knows(j, u, id) && Pending(j.sys.threads[u].rest, id)
    ensures var th := j.sys.threads[u];
      && P.Refers(th, id) && th.op == OpOf(j.events[u].request) && j.events[u].client != j.events[t].client
      && P.Scripted(th.op, th.rest, th.onStorage, th.onFile) && !th.op.ReadN? && !th.op.OpenCreate?
  {
    SoundParts(j, u);
    hide Sane, SI.Inv, Linked, Sound, VerdictOf, Underway, Touring, OnWay, P.Scripted, FindsFile, P.Refers, OpOf, P.HeldThen;
    assert Active(j, u) && Active(j, t) && Busy(j, u);
    FindsNoListing(j.store, j.events[u]);
    OnWayHolds(j.sys.threads[u], id);
  }

  lemma FindsNoListing(s: S.Store, e: S.Event)
    requires FindsFile(s, e)
    ensures !OpOf(e.request).ReadN? && !OpOf(e.request).OpenCreate?
  {
  }

  /** What acting leaves of a file, the actor's own or another. */
  lemma ActLeaves(j: Joint, j': Joint, a: Step, name: string)
    requires Sound(j) && HasActed(j, j', a) && name in j.store.files
    ensures var e, id := EventAt(j, a), j.sys.threads[a.t].rest[0].id;
      && SI.Inv(j.store) && IdOf(j.ids, e.request.name) == id && OpOf(e.request) == j.sys.threads[a.t].op
      && (name in j'.store.files && name != e.request.name ==> j'.store.files[name] == j.store.files[name])
      && (name !in j'.store.files ==> if name == e.request.name then e.request.Remove? else e.request.Write? || e.request.Append?)
  {
    var e := EventAt(j, a);
    SoundParts(j, a.t);
    ActStore(j, a);
    ActHolds(j, a.t);
    hide OnWay, Sane, Sound, Exclusive, Placed, Acted, S.Step, VerdictOf, SI.Inv, Linked, In, Doable;
    ActedOnOthers(j.store, e, name);
  }

  lemma ActKnows(j: Joint, j': Joint, a: Step, u: nat, id: nat)
    requires Sound(j) && HasActed(j, j', a) && u < |j.sys.threads| && u != a.t
    requires Knows(j, u, id) && Pending(j.sys.threads[u].rest, id)
    ensures Knows(j', u, id)
  {
    var mine := j.events[u];
    OnWayBeside(j, a.t, u, id);
    hide OnWay, Sound, Acted, VerdictOf, SI.Inv, P.Scripted, P.Refers, P.LookupMode, Doable, OpOf;
    ActLeaves(j, j', a, mine.request.name);
    if mine.request.name == EventAt(j, a).request.name {
      ActorApart(j, a.t, u);
      OwnFileActed(j, j', a, u, id);
    } else {
      OtherFileActed(j, j', a, u, id);
    }
  }

  lemma OwnFileActed(j: Joint, j': Joint, a: Step, u: nat, id: nat)
    requires SI.Inv(j.store) && HasActed(j, j', a) && u < |j.sys.threads| && Knows(j, u, id)
    requires var e, mine := EventAt(j, a), j.events[u];
      && mine.request.name == e.request.name && mine.client != e.client
      && P.LookupMode(OpOf(e.request)) == P.R && j.sys.threads[u].op == OpOf(mine.request)
      && (P.Act(id) in j.sys.threads[u].rest ==> j.sys.threads[u].op.Close? || e.request.Read?)
      && (mine.request.name !in j'.store.files ==> e.request.Remove?)
    requires u != a.t
    ensures Knows(j', u, id)
  {
    hide OnWay, Acted, VerdictOf, SI.Inv, Doable;
    if P.Act(id) in j.sys.threads[u].rest { SameFileActed(j, j', a, u, id); }
  }

  lemma OtherFileActed(j: Joint, j': Joint, a: Step, u: nat, id: nat)
    requires HasActed(j, j', a) && u < |j.sys.threads| && u != a.t && P.Refers(j.sys.threads[u], id)
    requires Knows(j, u, id) && j.events[u].request.name != EventAt(j, a).request.name
    requires var e, name := EventAt(j, a), j.events[u].request.name;
      && (name in j'.store.files ==> j'.store.files[name] == j.store.files[name])
      && (name !in j'.store.files ==> e.request.Write? || e.request.Append?)
    ensures Knows(j', u, id)
  {
    hide OnWay, Acted, VerdictOf, P.Refers, Doable;
    SurvivesOthers(j, j', a, u, id);
    VerdictStays(j.store, j'.store, j.events[u]);
  }

  /** The file of another worker on its way is not among the victims. */
  lemma SurvivesOthers(j: Joint, j': Joint, a: Step, u: nat, id: nat)
    requires HasActed(j, j', a) && u < |j.sys.threads| && u != a.t && P.Refers(j.sys.threads[u], id)
    requires Knows(j, u, id) && j.events[u].request.name != EventAt(j, a).request.name
    requires var e, name := EventAt(j, a), j.events[u].request.name;
      && (name in j'.store.files ==> j'.store.files[name] == j.store.files[name])
      && (name !in j'.store.files ==> e.request.Write? || e.request.Append?)
    ensures j.events[u].request.name in j'.store.files
  {
    hide Acted, VerdictOf, OnWay, P.Refers, Doable;
    var name, e := j.events[u].request.name, EventAt(j, a);
    assert name !in j'.store.files ==> IdOf(j.ids, name) in Freeing(j, e);
  }

  lemma SameFileActed(j: Joint, j': Joint, a: Step, u: nat, id: nat)
    requires SI.Inv(j.store) && HasActed(j, j', a) && u < |j.sys.threads| && Knows(j, u, id) && P.Act(id) in j.sys.threads[u].rest
    requires j.events[u].request.name == EventAt(j, a).request.name && j.events[u].client != EventAt(j, a).client
    requires P.LookupMode(OpOf(EventAt(j, a).request)) == P.R && j.sys.threads[u].op == OpOf(j.events[u].request)
    requires j.sys.threads[u].op.Close? || EventAt(j, a).request.Read?
    ensures FindsFile(j'.store, j.events[u]) && VerdictOf(j'.store, j.events[u]).Granted?
  {
    hide OnWay, Acted, VerdictOf;
    assert SI.FileOk(j.store.files[j.events[u].request.name]);
    OthersActed(j.store, j.events[u], EventAt(j, a));
  }

  /** An operation without the storage lock for writing leaves table, queue and counters as they are. */
  lemma ActedKeepsQueue(s: S.Store, e: S.Event)
    requires FindsFile(s, e) && P.LookupMode(OpOf(e.request)) == P.R
    ensures Acted(s, e).store.queue == s.queue && Acted(s, e).store.files.Keys == s.files.Keys
  {
    hide S.EvictUntilFits;
  }

  /** While a readN has files ahead, nobody acts who could change the queue. */
  lemma ActTouring(j: Joint, j': Joint, a: Step, u: nat)
    requires Sound(j) && HasActed(j, j', a) && u < |j.sys.threads| && u != a.t && Touring(j, u)
    ensures Touring(j', u)
  {
    if u in j.tours && Ahead(j.tours[u]) != [] && j.sys.threads[u].onStorage == Some(P.R) {
      ActHolds(j, a.t);
      hide TourShape, Acted, VerdictOf, OnWay, SI.Inv, Placed, Linked, Exclusive, Doable;
      if P.LookupMode(j.sys.threads[a.t].op) == P.W { NoOneHolds(j.sys, a.t, P.Storage, u); }
      ActedKeepsQueue(j.store, EventAt(j, a));
    }
  }

  lemma RemovedFreed(s: S.Store, s': S.Store, ids: map<string, nat>, table: set<nat>, name: string)
    requires Linked(s, ids, table) && name in s.files && s'.files.Keys <= s.files.Keys && name !in s'.files
    ensures forall n :: n in s'.files ==> IdOf(ids, n) != IdOf(ids, name)
  {
  }

  lemma ActNames(op: P.Op, id: nat, rest: seq<P.Instr>)
    requires OnWay(op, id, rest) && rest != [] && rest[0].Act?
    ensures rest[0] == P.Act(id) && forall k :: !Pending(rest[1..], k)
    ensures forall k :: P.FreeFile(k) in rest[1..] ==> op.Remove? && k == id && rest[1] == P.FreeFile(k)
  {
  }

  lemma DonePlaced(j: Joint, t: nat, id: nat)
    requires t < |j.sys.threads| && Busy(j, t) && !j.events[t].request.ReadN?
    requires var rest := j.sys.threads[t].rest;
      && (forall k :: !Pending(rest, k))
      && (forall k :: P.FreeFile(k) in rest ==> k == id && rest[0] == P.FreeFile(k) && Freed(j, id))
    ensures Placed(j, t)
  {
  }

  lemma ActorPlaced(j: Joint, j': Joint, a: Step)
    requires Sound(j) && HasActed(j, j', a)
    requires j'.store.files.Keys <= j.store.files.Keys
    requires EventAt(j, a).request.Remove? ==> EventAt(j, a).request.name !in j'.store.files
    ensures Placed(j', a.t)
  {
    SoundParts(j, a.t);
    ActHolds(j, a.t);
    var th := j.sys.threads[a.t];
    assert Busy(j, a.t);
    hide Acted, VerdictOf, SI.Inv, Sound, Exclusive, Doable, Sane, Placed, Freeing, In, P.Refers, SaneThread;
    ActNames(th.op, th.rest[0].id, th.rest);
    hide OnWay, Pending;
    if EventAt(j, a).request.Remove? {
      RemovedFreed(j.store, j'.store, j.ids, j.sys.table, EventAt(j, a).request.name);
    }
    DonePlaced(j', a.t, th.rest[0].id);
  }

  lemma LinkedShrinks(s: S.Store, s': S.Store, ids: map<string, nat>, table: set<nat>, gone: set<nat>)
    requires Linked(s, ids, table) && s'.files.Keys <= s.files.Keys && gone <= LocksGone(ids, s, s')
    ensures Linked(s', ids, table - gone)
  {
    forall n | n in s'.files ensures ids[n] !in gone {
      assert forall m :: m in s.files && m !in s'.files ==> ids[m] != ids[n];
    }
  }

  lemma ActShrinks(j: Joint, j': Joint, a: Step)
    requires Sound(j) && HasActed(j, j', a)
    ensures SI.Inv(j'.store) && j'.store.files.Keys <= j.store.files.Keys
    ensures EventAt(j, a).request.Remove? ==> EventAt(j, a).request.name !in j'.store.files
    ensures Linked(j'.store, j'.ids, j'.sys.table)
  {
    SoundParts(j, a.t);
    ActStore(j, a);
    hide Acted, S.Step, VerdictOf, Placed, Sane, Exclusive, Sound, SI.Inv, Doable;
    ActedOnOthers(j.store, EventAt(j, a), EventAt(j, a).request.name);
    LinkedShrinks(j.store, j'.store, j.ids, j.sys.table, Freeing(j, EventAt(j, a)));
  }

  lemma ActOther(j: Joint, j': Joint, a: Step, u: nat)
    requires Sound(j) && HasActed(j, j', a) && u < |j.sys.threads| && u != a.t
    requires j'.store.files.Keys <= j.store.files.Keys
    ensures Placed(j', u)
  {
    SoundParts(j, u);
    forall id | Knows(j, u, id) && Pending(j.sys.threads[u].rest, id) ensures Knows(j', u, id) {
      ActKnows(j, j', a, u, id);
    }
    if Touring(j, u) { ActTouring(j, j', a, u); }
    assert forall id :: Freed(j, id) ==> Freed(j', id);
    hide Knows, Pending, Sound, Sane, SI.Inv, Linked, Exclusive, Touring, Freed, Placed, Acted, Freeing, Doable, AtAct;
    PlacedStays(j, j', u);
  }

  lemma ActSound(j: Joint, a: Step)
    requires Sound(j) && Enabled(j, a) && ActsNow(j, a)
    ensures Sound(Next(j, a))
  {
    var j' := Next(j, a);
    ActSide(j, a);
    ActShrinks(j, j', a);
    ActorPlaced(j, j', a);
    assert |j'.sys.threads| == |j.sys.threads|;
    hide Next, Enabled, Placed, Sane, SI.Inv, Linked, Exclusive, Sound, HasActed;
    forall u: nat | u < |j'.sys.threads| ensures Placed(j', u) {
      if u != a.t { ActOther(j, j', a, u); }
    }
    AllSound(j');
  }

  /**
   * Every step of every worker, leaking or not, keeps the store's invariant, its agreement with the locks
   * and tours, and the truth of what each worker has found and been granted.
   */
  lemma StepSound(j: Joint, a: Step)
    requires Sound(j) && Enabled(j, a)
    ensures Sound(Next(j, a))
  {
    hide Sound, P.Next, P.Enabled, S.Step, Acted;
    match a
    case Begin(t, e) => BeginSound(j, t, e);
    case Lock(t) => LockSound(j, t);
    case Spurious(t) => SpuriousSound(j, t);
    case Turn(t, _, _) =>
      if AtLookup(j, t) {
        if Branching(j, a).Found? || Branching(j, a).Listed? { SetOffSound(j, a); } else { AnswerSound(j, a); }
      } else if AtGlance(j, t) {
        GlanceSound(j, a);
      } else if AtCheck(j, t) {
        CheckSound(j, a);
      } else {
        ActSound(j, a);
      }
  }
}
