/** Runs of the workers from an empty store: one request alone, a readN no moment explains, an eviction under a reader. */
module StoreLockingRuns {
  import opened Bytes
  import opened LockGuards
  import opened StoreMoments
  import opened StoreLocking
  import opened StoreLockingTheorems
  import opened StoreLockingLiveness
  import opened LockProtocolProofs
  import opened LockFootprints
  import S = StorageSpec
  import SI = StorageInvariant
  import P = LockProtocol
  import D = LockDiscipline
  import T = LockProtocolTheorems

  // ----- reaching a state -----

  /** Some run leads from j to j', making these items. */
  ghost predicate Reaches(j: Joint, items: seq<Item>, j': Joint) {
    exists run :: Valid(j, run) && Items(j, run) == items && After(j, run) == j'
  }

  lemma Stays(j: Joint)
    ensures Reaches(j, [], j)
  {
    assert Valid(j, []) && Items(j, []) == [] && After(j, []) == j;
  }

  lemma {:induction false} RunAppend(j: Joint, a: seq<Step>, b: seq<Step>)
    requires Valid(j, a) && Valid(After(j, a), b)
    ensures Valid(j, a + b) && After(j, a + b) == After(After(j, a), b)
    ensures Items(j, a + b) == Items(j, a) + Items(After(j, a), b)
    decreases |a|
  {
    hide Enabled, Next, ItemOf;
    if a == [] {
      assert a + b == b;
    } else {
      assert (a + b)[1..] == a[1..] + b;
      RunAppend(Next(j, a[0]), a[1..], b);
    }
  }

  lemma Follows(j: Joint, items: seq<Item>, j': Joint, more: seq<Item>, j'': Joint)
    requires Reaches(j, items, j') && Reaches(j', more, j'')
    ensures Reaches(j, items + more, j'')
  {
    hide Valid, After, Items;
    var a :| Valid(j, a) && Items(j, a) == items && After(j, a) == j';
    var b :| Valid(j', b) && Items(j', b) == more && After(j', b) == j'';
    RunAppend(j, a, b);
  }

  lemma FollowsQuietly(j: Joint, items: seq<Item>, m: Joint, j': Joint)
    requires Reaches(j, items, m) && Reaches(m, [], j')
    ensures Reaches(j, items, j')
  {
    Follows(j, items, m, [], j');
    assert items + [] == items;
  }

  lemma OneStep(j: Joint, a: Step)
    requires Enabled(j, a)
    ensures Reaches(j, if ItemOf(j, a).Some? then [ItemOf(j, a).value] else [], Next(j, a))
  {
    var items := if ItemOf(j, a).Some? then [ItemOf(j, a).value] else [];
    hide Enabled, Next, ItemOf;
    var run := [a];
    assert run[1..] == [] && Valid(Next(j, a), []) && Valid(j, run);
    assert Items(j, run) == items + Items(Next(j, a), []) && Items(Next(j, a), []) == [];
    assert After(j, run) == After(Next(j, a), []) == Next(j, a);
  }

  // ----- nobody waits -----

  ghost predicate Steadily(j: Joint) {
    Sound(j) && D.Inv(j.sys) && Calm(j.sys)
  }

  lemma GivesBack(s: P.Sys, u: nat)
    requires D.Inv(s) && Calm(s) && u < |s.threads| && s.threads[u].rest != []
    requires s.threads[u].rest[0].Release? || s.threads[u].rest[0].FreeFile?
    ensures P.Enabled(s, P.Run(u)) && Calm(P.Next(s, P.Run(u)))
    ensures var th, s' := s.threads[u], P.Next(s, P.Run(u));
      s'.threads == s.threads[u := if th.rest[0].Release? then P.Drop(th.(rest := th.rest[1..]), th.rest[0].lock)
                                   else th.(rest := th.rest[1..], onFile := None)]
  {
    var th := s.threads[u];
    assert D.Tidy(th, s.locks);
    if th.rest[0].Release? {
      D.ReleaseHolds(th, th.rest[0].lock, th.rest[0].mode);
      HolderInside(s, u, th.rest[0].lock, th.rest[0].mode);
    } else {
      assert P.NamesFile(th.rest[0], th.rest[0].id);
    }
  }

  lemma CalmTurn(s: P.Sys, a: P.Step)
    requires P.Enabled(s, a) && Calm(s) && (a.Request? || a.Branch? || a.Judge? || a.Effect?)
    ensures Calm(P.Next(s, a))
  {
  }

  // ----- one worker alone -----

  predicate Decides(i: P.Instr) {
    i.Lookup? || i.Check? || i.Act?
  }

  predicate Unanswered(rest: seq<P.Instr>) {
    exists i :: i in rest && Decides(i)
  }

  /** The others hold no file, and the storage lock only if this one wants it for reading alone. */
  ghost predicate Alone(s: P.Sys, u: nat) {
    u < |s.threads| &&
    forall t: nat :: t < |s.threads| && t != u ==>
      && s.threads[t].onFile == None
      && (s.threads[t].onStorage == None
          || (s.threads[t].onStorage == Some(P.R) && P.Acquire(P.Storage, P.W) !in s.threads[u].rest))
  }

  /** Where one worker's step, or several, lead. */
  ghost predicate Leads(j: Joint, j': Joint, u: nat) {
    && Steadily(j') && |j'.sys.threads| == |j.sys.threads|
    && (forall t: nat :: t < |j.sys.threads| && t != u ==> j'.sys.threads[t] == j.sys.threads[t])
    && j'.events == j.events && j'.tours == j.tours
  }

  lemma SteadyStep(j: Joint, a: Step)
    requires Steadily(j) && Enabled(j, a) && !LeaksAt(j, a) && Calm(Next(j, a).sys)
    ensures Steadily(Next(j, a))
  {
    StepKeeps(j, a);
  }

  /** The thread's next step is not to decide, and nobody keeps it out of the lock it takes. */
  ghost predicate NextFree(s: P.Sys, u: nat) {
    && u < |s.threads| && s.threads[u].rest != [] && !Decides(s.threads[u].rest[0])
    && (s.threads[u].rest[0].Acquire? ==> Free(s, u, s.threads[u].rest[0].lock, s.threads[u].rest[0].mode))
  }

  lemma AloneNextFree(s: P.Sys, u: nat)
    requires Alone(s, u) && s.threads[u].rest != [] && !Decides(s.threads[u].rest[0])
    ensures NextFree(s, u)
  {
  }

  /** The thread after a lock step that succeeds. */
  function Popped(th: P.Thread): P.Thread
    requires th.rest != []
  {
    var left := th.(rest := th.rest[1..]);
    match th.rest[0]
    case Acquire(lock, m) => P.Grant(left, lock, m)
    case Release(lock, _) => P.Drop(left, lock)
    case _ => left.(onFile := None)
  }

  lemma SoloRuns(s: P.Sys, u: nat)
    requires D.Inv(s) && Calm(s) && NextFree(s, u)
    ensures P.Enabled(s, P.Run(u)) && Calm(P.Next(s, P.Run(u)))
    ensures var s', th := P.Next(s, P.Run(u)), s.threads[u];
      && |s'.threads| == |s.threads| && s'.threads[u] == Popped(th)
      && forall t :: 0 <= t < |s.threads| && t != u ==> s'.threads[t] == s.threads[t]
  {
    var th := s.threads[u];
    assert D.Tidy(th, s.locks);
    if th.rest[0].Acquire? {
      AnyStorage(s);
      if th.rest[0].lock.File? { assert P.NamesFile(th.rest[0], th.rest[0].lock.id); }
      hide D.Inv, D.Tidy, Calm;
      TakesFree(s, u);
    } else {
      hide D.Inv, D.Tidy, Calm;
      GivesBack(s, u);
    }
  }

  /** Its next lock step succeeds at once. */
  lemma SoloLock(j: Joint, u: nat) returns (j': Joint)
    requires Steadily(j) && NextFree(j.sys, u)
    ensures Reaches(j, [], j') && Leads(j, j', u) && j'.store == j.store && j'.ids == j.ids
    ensures j'.sys.threads[u] == Popped(j.sys.threads[u]) && T.Closer(j'.sys, j.sys)
  {
    SoloRuns(j.sys, u);
    LockEnabled(j, u);
    j' := Next(j, Lock(u));
    hide Sound, D.Inv, Calm, P.Next, P.Enabled, Next, Enabled, Reaches, LeaksAt;
    OneStep(j, Lock(u));
    SteadyStep(j, Lock(u));
    OwnAdvances(j, Lock(u));
  }

  lemma LockEnabled(j: Joint, u: nat)
    requires P.Enabled(j.sys, P.Run(u))
    ensures Enabled(j, Lock(u)) && Next(j, Lock(u)) == j.(sys := P.Next(j.sys, P.Run(u))) && ItemOf(j, Lock(u)) == None
    ensures !LeaksAt(j, Lock(u))
  {
  }

  /** The request can be carried out on the store: it neither leaks nor is undefined. */
  predicate Harmless(s: S.Store, e: S.Event) {
    !LeaksOn(s, e) && S.Step(s, e).response.outcome != S.Undefined
  }

  /** Nobody else being inside a file's lock, whatever it evicts is safe to evict. */
  lemma AloneIsSafe(j: Joint, u: nat)
    requires Steadily(j) && Alone(j.sys, u) && AtAct(j, u) && Doable(j.store, j.events[u])
    ensures !AtUnsafe(j, u)
  {
    if AtUnsafe(j, u) {
      var id :| id in Freeing(j, j.events[u]) && P.UsedByOther(j.sys, u, id);
      hide Sound, D.Inv, Freeing, Doable, P.UsedByOther;
      FreeingHolds(j, u, id);
      var t := UserInside(j.sys, u, id);
      assert false;
    }
  }

  /** A turn of its own that is due can be taken. */
  lemma SoloCanTurn(j: Joint, u: nat) returns (a: Step)
    requires Steadily(j) && Alone(j.sys, u) && j.sys.threads[u].rest != [] && Decides(j.sys.threads[u].rest[0])
    requires u in j.events && !j.events[u].request.ReadN? && Harmless(j.store, j.events[u])
    ensures a.Turn? && a.t == u && Enabled(j, a) && EventAt(j, a) == j.events[u] && !LeaksAt(j, a)
  {
    var i, e := j.sys.threads[u].rest[0], j.events[u];
    hide Sound, D.Inv, Calm, LeaksOn, S.Step;
    if i.Lookup? {
      LookupAlone(j, u);
      var id := LookupCanTurn(j, u);
      a := Turn(u, id, e.now);
    } else if i.Check? {
      CheckCanTurn(j, u);
      a := Turn(u, 0, e.now);
    } else {
      AtActIs(j, u);
      ActDoable(j, u);
      AloneIsSafe(j, u);
      ActCanTurn(j, u);
      a := Turn(u, 0, e.now);
    }
    assert EventAt(j, a) == e;
  }

  lemma ActDoable(j: Joint, u: nat)
    requires Sound(j) && AtAct(j, u) && Harmless(j.store, j.events[u])
    ensures Doable(j.store, j.events[u])
  {
    SoundParts(j, u);
    ActKnown(j, u);
    hide Sound, Sane, SI.Inv, VerdictOf, Acted, S.Step, Placed, Linked, Exclusive, LeaksOn;
    ActedIsStep(j.store, j.events[u]);
  }

  /** What its turn leads to: the request answered, or still to be answered. */
  lemma SoloTurn(j: Joint, u: nat) returns (j': Joint, items: seq<Item>)
    requires Steadily(j) && Alone(j.sys, u) && j.sys.threads[u].rest != [] && Decides(j.sys.threads[u].rest[0])
    requires u in j.events && !j.events[u].request.ReadN? && Harmless(j.store, j.events[u])
    ensures Reaches(j, items, j') && Leads(j, j', u) && T.Closer(j'.sys, j.sys)
    ensures P.Acquire(P.Storage, P.W) !in j'.sys.threads[u].rest
    ensures if Unanswered(j'.sys.threads[u].rest) then items == [] && j'.store == j.store
            else items == [Whole(j.events[u])] && j'.store == S.Step(j.store, j.events[u]).store
  {
    var a := SoloCanTurn(j, u);
    j' := Next(j, a);
    items := if ItemOf(j, a).Some? then [ItemOf(j, a).value] else [];
    OneStep(j, a);
    TurnLeads(j, a);
    OwnAdvances(j, a);
    TurnIsItem(j, a);
    TurnAnswers(j, a);
    hide Sound, D.Inv, Calm, P.Next, P.Enabled, Next, Enabled, Reaches, S.Step, Steadily, LeaksAt, ReplyOf, ItemOf;
  }

  lemma TurnLeads(j: Joint, a: Step)
    requires Steadily(j) && Enabled(j, a) && a.Turn? && !LeaksAt(j, a) && !j.events[a.t].request.ReadN?
    ensures Leads(j, Next(j, a), a.t)
  {
    TurnFields(j, a);
    hide Sound, D.Inv, P.Next, P.Enabled, LockSide, Next, Enabled, LeaksAt;
    CalmTurn(j.sys, LockSide(j, a));
    OthersAfter(j.sys, LockSide(j, a));
    SteadyStep(j, a);
  }

  lemma TurnFields(j: Joint, a: Step)
    requires Enabled(j, a) && a.Turn? && !j.events[a.t].request.ReadN?
    ensures LockSide(j, a).Branch? || LockSide(j, a).Judge? || LockSide(j, a).Effect?
    ensures LockSide(j, a).t == a.t && P.Enabled(j.sys, LockSide(j, a)) && Next(j, a).sys == P.Next(j.sys, LockSide(j, a))
    ensures Next(j, a).events == j.events && Next(j, a).tours == j.tours
  {
    hide P.Next, P.Enabled, S.Step, Acted, VerdictOf, FindsFile, StoreAfter, Freeing, Doable;
  }

  lemma ContinueDecides(op: P.Op, b: P.Branch)
    requires P.Possible(op, b) && !op.ReadN?
    ensures Unanswered(P.Continue(op, b)) <==> b.Found?
    ensures P.Acquire(P.Storage, P.W) !in P.Continue(op, b)
  {
    if b.Found? { assert P.Check(b.id) in P.Continue(op, b) && Decides(P.Check(b.id)); }
  }

  lemma ConcludeDecides(op: P.Op, id: nat, v: P.Verdict)
    ensures Unanswered(P.Conclude(op, id, v)) <==> v.Granted?
    ensures P.Acquire(P.Storage, P.W) !in P.Conclude(op, id, v)
  {
    if v.Granted? { assert P.Act(id) in P.Conclude(op, id, v) && Decides(P.Act(id)); }
  }

  lemma ActDecides(op: P.Op, id: nat, rest: seq<P.Instr>)
    requires OnWay(op, id, rest) && rest != [] && rest[0].Act?
    ensures !Unanswered(rest[1..]) && P.Acquire(P.Storage, P.W) !in rest[1..]
  {
  }

  /** A turn answers the request exactly when no further turn is due. */
  lemma TurnAnswers(j: Joint, a: Step)
    requires Steadily(j) && Enabled(j, a) && a.Turn? && a.t in j.events && !j.events[a.t].request.ReadN?
    ensures a.t < |Next(j, a).sys.threads|
    ensures ItemOf(j, a).Some? <==> !Unanswered(Next(j, a).sys.threads[a.t].rest)
    ensures ItemOf(j, a).Some? ==> ItemOf(j, a).value == Whole(EventAt(j, a))
    ensures P.Acquire(P.Storage, P.W) !in Next(j, a).sys.threads[a.t].rest
  {
    var th := j.sys.threads[a.t];
    SoundParts(j, a.t);
    hide D.Inv, Calm, P.Next, P.Enabled, S.Step, Acted, VerdictOf, BranchOf, Unanswered, Sane, SI.Inv, Linked, Placed, Exclusive;
    if AtLookup(j, a.t) {
      BranchSide(j, a);
      NotListed(j, a);
      ContinueDecides(th.op, Branching(j, a));
    } else if AtCheck(j, a.t) {
      CheckRest(j, a.t);
      JudgeSide(j, a);
      CheckSide(j, a);
      VerdictTimeless(j.store, j.events[a.t], a.now);
      ConcludeDecides(th.op, th.rest[0].id, VerdictOf(j.store, j.events[a.t]));
    } else {
      ActSide(j, a);
      ActKnown(j, a.t);
      ActDecides(th.op, th.rest[0].id, th.rest);
    }
  }

  lemma NotListed(j: Joint, a: Step)
    requires a.Turn? && AtLookup(j, a.t) && !j.events[a.t].request.ReadN? && Placed(j, a.t)
    ensures !Branching(j, a).Listed? && !j.sys.threads[a.t].op.ReadN?
  {
  }

  lemma StillAlone(s: P.Sys, s': P.Sys, u: nat)
    requires Alone(s, u) && |s'.threads| == |s.threads|
    requires forall t :: 0 <= t < |s.threads| && t != u ==> s'.threads[t] == s.threads[t]
    requires P.Acquire(P.Storage, P.W) in s'.threads[u].rest ==> P.Acquire(P.Storage, P.W) in s.threads[u].rest
    ensures Alone(s', u)
  {
  }

  lemma UnansweredNext(rest: seq<P.Instr>)
    requires rest != [] && !Decides(rest[0])
    ensures Unanswered(rest[1..]) <==> Unanswered(rest)
    ensures forall i :: i in rest[1..] ==> i in rest
  {
    if i :| i in rest && Decides(i) { assert i in rest[1..]; }
  }

  lemma LeadsOn(j: Joint, m: Joint, j': Joint, u: nat)
    requires Leads(j, m, u) && Leads(m, j', u)
    ensures Leads(j, j', u)
  {
    hide Steadily;
  }

  /** A worker that nobody keeps out carries its request out by itself, and the request does what the specification says. */
  lemma {:induction false} Solo(j: Joint, u: nat) returns (j': Joint, items: seq<Item>)
    requires Steadily(j) && Alone(j.sys, u) && u in j.events && !j.events[u].request.ReadN?
    requires Unanswered(j.sys.threads[u].rest) ==> Harmless(j.store, j.events[u])
    ensures Reaches(j, items, j') && Leads(j, j', u) && j'.sys.threads[u].rest == []
    ensures if Unanswered(j.sys.threads[u].rest) then items == [Whole(j.events[u])] && j'.store == S.Step(j.store, j.events[u]).store
            else items == [] && j'.store == j.store
    decreases T.Decisions(j.sys), T.Instrs(j.sys), T.AwakeCount(j.sys)
  {
    hide Sound, D.Inv, Calm, P.Next, P.Enabled, Next, Enabled, Reaches, S.Step, Harmless;
    var rest := j.sys.threads[u].rest;
    if rest == [] {
      Stays(j);
      return j, [];
    }
    var m: Joint;
    var first: seq<Item>;
    if Decides(rest[0]) {
      m, first := SoloTurn(j, u);
      assert rest[0] in rest && Unanswered(rest);
    } else {
      AloneNextFree(j.sys, u);
      m := SoloLock(j, u);
      first := [];
      UnansweredNext(rest);
    }
    hide Unanswered, Steadily;
    StillAlone(j.sys, m.sys, u);
    var more: seq<Item>;
    j', more := Solo(m, u);
    LeadsOn(j, m, j', u);
    Follows(j, first, m, more, j');
    items := first + more;
  }

  // ----- a request from its beginning -----

  /** The worker is idle, and its client is nobody else's. */
  ghost predicate MayBegin(j: Joint, u: nat, e: S.Event) {
    && Steadily(j) && u < |j.sys.threads| && j.sys.threads[u].rest == []
    && TakesLocks(e.request) && S.Sized(e.request) && ClientFree(j, e.client)
  }

  /** Nobody keeps the operation out. */
  ghost predicate Unhindered(s: P.Sys, u: nat, op: P.Op) {
    forall t: nat :: t < |s.threads| && t != u ==>
      && s.threads[t].onFile == None
      && (s.threads[t].onStorage == None
          || (s.threads[t].onStorage == Some(P.R) && P.Acquire(P.Storage, P.W) !in P.Start(op)))
  }

  lemma Begins(j: Joint, u: nat, e: S.Event) returns (m: Joint)
    requires MayBegin(j, u, e)
    ensures Reaches(j, [], m) && Steadily(m) && m.events == j.events[u := e]
    ensures |m.sys.threads| == |j.sys.threads| && m.sys.threads[u] == P.Thread(OpOf(e.request), P.Start(OpOf(e.request)), None, None)
    ensures forall t: nat :: t < |j.sys.threads| && t != u ==> m.sys.threads[t] == j.sys.threads[t]
    ensures m.store == j.store && m.ids == j.ids && m.tours == j.tours
  {
    var a := Begin(u, e);
    assert P.Enabled(j.sys, P.Request(u, OpOf(e.request)));
    m := Next(j, a);
    OneStep(j, a);
    CalmTurn(j.sys, P.Request(u, OpOf(e.request)));
    SteadyStep(j, a);
    hide Sound, D.Inv, Calm, Reaches, Steadily;
  }

  /** Where a whole request leads. */
  ghost predicate Done(j: Joint, j': Joint, u: nat, e: S.Event) {
    && Steadily(j') && u < |j.sys.threads| == |j'.sys.threads| && j'.sys.threads[u].rest == []
    && (forall t: nat :: t < |j.sys.threads| && t != u ==> j'.sys.threads[t] == j.sys.threads[t])
    && j'.events == j.events[u := e] && j'.tours == j.tours && j'.store == S.Step(j.store, e).store
  }

  lemma SoloRequest(j: Joint, u: nat, e: S.Event) returns (j': Joint)
    requires MayBegin(j, u, e) && Unhindered(j.sys, u, OpOf(e.request)) && !e.request.ReadN? && Harmless(j.store, e)
    ensures Reaches(j, [Whole(e)], j') && Done(j, j', u, e)
  {
    hide Sound, D.Inv, Calm, P.Next, P.Enabled, Next, Enabled, Reaches, S.Step, Harmless;
    var m := Begins(j, u, e);
    assert P.Lookup in m.sys.threads[u].rest && Decides(P.Lookup) && Unanswered(m.sys.threads[u].rest);
    hide Steadily, Unanswered;
    assert Alone(m.sys, u);
    var items: seq<Item>;
    j', items := Solo(m, u);
    Follows(j, [], m, items, j');
    assert [] + items == items;
  }

  // ----- requests one after the other -----

  ghost predicate AllIdle(j: Joint) {
    Steadily(j) && forall t: nat :: t < |j.sys.threads| ==> j.sys.threads[t].rest == []
  }

  lemma IdleHoldsNothing(j: Joint, t: nat)
    requires Steadily(j) && t < |j.sys.threads| && j.sys.threads[t].rest == []
    ensures j.sys.threads[t].onStorage == None && j.sys.threads[t].onFile == None
  {
    assert D.Tidy(j.sys.threads[t], j.sys.locks);
  }

  /** Requests that take locks, list nothing, and can be carried out one after the other. */
  predicate Harmlessly(s: S.Store, run: seq<S.Event>)
    decreases |run|
  {
    run == [] ||
    (TakesLocks(run[0].request) && S.Sized(run[0].request) && !run[0].request.ReadN? && Harmless(s, run[0])
      && Harmlessly(S.Step(s, run[0]).store, run[1..]))
  }

  function Wholes(run: seq<S.Event>): seq<Item> {
    if run == [] then [] else [Whole(run[0])] + Wholes(run[1..])
  }

  /** Every such sequence of requests is an interleaving: one worker can carry it out while the others rest. */
  lemma {:induction false} SequencesHappen(j: Joint, u: nat, run: seq<S.Event>) returns (j': Joint)
    requires AllIdle(j) && u < |j.sys.threads| && Harmlessly(j.store, run)
    ensures Reaches(j, Wholes(run), j') && AllIdle(j') && |j'.sys.threads| == |j.sys.threads|
    ensures j'.store == S.After(j.store, run)
    decreases |run|
  {
    hide Reaches, S.Step, Harmless, Steadily;
    if run == [] {
      Stays(j);
      return j;
    }
    forall t: nat | t < |j.sys.threads| ensures j.sys.threads[t].onStorage == None && j.sys.threads[t].onFile == None {
      IdleHoldsNothing(j, t);
    }
    var m := SoloRequest(j, u, run[0]);
    j' := SequencesHappen(m, u, run[1..]);
    Follows(j, [Whole(run[0])], m, Wholes(run[1..]), j');
  }
}
