/** What every interleaving of workers does to the store and answers, when it cannot deadlock, and when it must. */
module StoreLockingTheorems {
  import opened Bytes
  import opened LockGuards
  import opened StoreMoments
  import opened StoreLocking
  import opened LockProtocolProofs
  import S = StorageSpec
  import SI = StorageInvariant
  import P = LockProtocol
  import D = LockDiscipline

  // ----- the store and the answers, one item after the other -----

  /** The requests answered along a run and the glances of readN, in the order of the turns that made them. */
  function Items(j: Joint, run: seq<Step>): seq<Item>
    requires Valid(j, run)
    decreases |run|
  {
    if run == [] then []
    else
      (if ItemOf(j, run[0]).Some? then [ItemOf(j, run[0]).value] else []) + Items(Next(j, run[0]), run[1..])
  }

  /** What the workers report at those turns. */
  function Replies(j: Joint, run: seq<Step>): seq<S.Response>
    requires Valid(j, run)
    decreases |run|
  {
    if run == [] then []
    else (if ItemOf(j, run[0]).Some? then [ReplyOf(j, run[0])] else []) + Replies(Next(j, run[0]), run[1..])
  }

  /** A whole request of bounded size that is defined on the store. */
  predicate FineItem(s: S.Store, i: Item) {
    i.Whole? ==> S.Sized(i.event.request) && S.Step(s, i.event).response.outcome != S.Undefined
  }

  predicate AllFine(s: S.Store, items: seq<Item>)
    decreases |items|
  {
    items == [] || (FineItem(s, items[0]) && AllFine(Do(s, items[0]), items[1..]))
  }

  lemma LookupItem(j: Joint, a: Step)
    requires Sound(j) && Enabled(j, a) && a.Turn? && AtLookup(j, a.t) && ItemOf(j, a).Some?
    ensures FineItem(j.store, ItemOf(j, a).value) && StoreAfter(j, a) == Do(j.store, ItemOf(j, a).value)
    ensures ReplyOf(j, a) == Answer(j.store, ItemOf(j, a).value)
  {
    SoundParts(j, a.t);
    assert Busy(j, a.t);
    hide Sound, Sane, SI.Inv, Linked, Placed, P.Next, P.Enabled, S.Step;
    LookupAnswers(j.store, j.ids, EventAt(j, a), a.freshId);
  }

  lemma CheckItem(j: Joint, a: Step)
    requires Sound(j) && Enabled(j, a) && a.Turn? && AtCheck(j, a.t) && ItemOf(j, a).Some?
    ensures FineItem(j.store, ItemOf(j, a).value) && StoreAfter(j, a) == Do(j.store, ItemOf(j, a).value)
    ensures ReplyOf(j, a) == Answer(j.store, ItemOf(j, a).value)
  {
    var e := EventAt(j, a);
    SoundParts(j, a.t);
    assert Busy(j, a.t);
    CheckRest(j, a.t);
    hide Sound, Sane, SI.Inv, Linked, Placed, P.Next, P.Enabled, S.Step, VerdictOf, Acted, BranchOf;
    VerdictTimeless(j.store, j.events[a.t], a.now);
    VerdictNever(j.store, e);
    VerdictIsOutcome(j.store, e);
  }

  lemma ActItem(j: Joint, a: Step)
    requires Sound(j) && Enabled(j, a) && ActsNow(j, a)
    ensures ItemOf(j, a).Some? && FineItem(j.store, ItemOf(j, a).value)
    ensures StoreAfter(j, a) == Do(j.store, ItemOf(j, a).value) && ReplyOf(j, a) == Answer(j.store, ItemOf(j, a).value)
  {
    hide P.Next, P.Enabled, S.Step, Acted, VerdictOf;
    assert AtAct(j, a.t) && Doable(j.store, EventAt(j, a));
    hide Sound;
    ActStore(j, a);
  }

  /** Each turn answers and changes the store as the request, or the glance, does on the store of that moment. */
  lemma TurnIsItem(j: Joint, a: Step)
    requires Sound(j) && Enabled(j, a)
    ensures ItemOf(j, a) == None ==> Next(j, a).store == j.store
    ensures ItemOf(j, a).Some? ==>
      var i := ItemOf(j, a).value;
      FineItem(j.store, i) && Next(j, a).store == Do(j.store, i) && ReplyOf(j, a) == Answer(j.store, i)
  {
    hide Sound, P.Next, P.Enabled, S.Step, VerdictOf, Acted, Doable, BranchOf;
    if ItemOf(j, a).Some? && !AtGlance(j, a.t) {
      if AtLookup(j, a.t) { LookupItem(j, a); } else if AtCheck(j, a.t) { CheckItem(j, a); } else { ActItem(j, a); }
    }
  }

  /** What is made of a turn carries the request or the name at hand, its client, and the time of the turn. */
  lemma ItemTold(j: Joint, a: Step)
    requires Enabled(j, a) && ItemOf(j, a).Some?
    ensures a.Turn? && a.t in j.events
    ensures match ItemOf(j, a).value
      case Whole(e) => e == S.Event(j.events[a.t].client, a.now, j.events[a.t].request)
      case Glance(t, client, now, name) =>
        && t == a.t && client == j.events[a.t].client && now == a.now
        && t in j.tours && j.tours[t].left != [] && name == j.tours[t].left[0]
  {
    hide S.Step, P.Enabled, Acted, VerdictOf, FindsFile, BranchOf;
  }

  /**
   * A request is answered at its lookup exactly if it creates a file, names one that is not there, or is a
   * readN that fails; any other goes on to the lock of its file, or of the first in the queue.
   */
  lemma LookupTold(j: Joint, a: Step)
    requires Sound(j) && Enabled(j, a) && a.Turn? && AtLookup(j, a.t)
    ensures ItemOf(j, a).Some? <==>
      match j.events[a.t].request
      case Open(name, create, _) => create || name !in j.store.files
      case ReadN(n) => j.store.queue == [] || (n <= 0 && j.store.filesNumb <= 0)
      case r => r.name !in j.store.files
    ensures ItemOf(j, a) == None ==>
      var r := j.events[a.t].request;
      var name := if r.ReadN? then j.store.queue[0] else r.name;
      && name in j.ids && a.t < |Next(j, a).sys.threads|
      && var rest := Next(j, a).sys.threads[a.t].rest;
         rest != [] && rest[0].Acquire? && rest[0].lock == P.File(j.ids[name])
  {
    hide Sane, P.Next, P.Enabled, S.Step, Acted, VerdictOf, StoreAfter, ToursAfter, Exclusive, FindsFile, Underway, Touring, SI.Total;
    SoundParts(j, a.t);
    assert Busy(j, a.t);
    hide Sound;
    BranchSide(j, a);
  }

  /** The locks freed when a worker acts are those of the files that its write or append evicts. */
  lemma FreeingIff(j: Joint, t: nat, id: nat)
    requires Sound(j) && AtAct(j, t) && Doable(j.store, j.events[t])
    ensures id in Freeing(j, j.events[t]) <==>
      (j.events[t].request.Write? || j.events[t].request.Append?) &&
      exists n :: n in j.store.files && n !in S.Step(j.store, j.events[t]).store.files && n in j.ids && j.ids[n] == id
  {
    SoundParts(j, t);
    ActKnown(j, t);
    ActedIsStep(j.store, j.events[t]);
    hide Sound, Sane, SI.Inv, S.Step, Acted, VerdictOf, Placed, Exclusive, FindsFile;
  }

  lemma ConsItem(s: S.Store, i: Item, rest: seq<Item>)
    ensures DoAll(s, [i] + rest) == DoAll(Do(s, i), rest) && Answers(s, [i] + rest) == [Answer(s, i)] + Answers(Do(s, i), rest)
    ensures FineItem(s, i) && AllFine(Do(s, i), rest) ==> AllFine(s, [i] + rest)
  {
    hide Do, Answer, FineItem;
    assert ([i] + rest)[1..] == rest;
  }

  /**
   * In every interleaving, leaks included, the store and every answer are what the answered requests and
   * the glances of readN make of them when taken one after the other, each as a whole, in the order of
   * their turns: what a worker found at its check is still so when it acts.
   */
  lemma {:induction false} HistoryExplained(j: Joint, run: seq<Step>)
    requires Sound(j) && Valid(j, run)
    ensures Sound(After(j, run)) && AllFine(j.store, Items(j, run))
    ensures After(j, run).store == DoAll(j.store, Items(j, run)) && Replies(j, run) == Answers(j.store, Items(j, run))
    decreases |run|
  {
    if run != [] {
      var a, j' := run[0], Next(j, run[0]);
      StepSound(j, a);
      HistoryExplained(j', run[1..]);
      TurnIsItem(j, a);
      hide Sound, Enabled, Next, Do, Answer, FineItem, ItemOf, ReplyOf;
      if ItemOf(j, a).Some? {
        ConsItem(j.store, ItemOf(j, a).value, Items(j', run[1..]));
      } else {
        assert Items(j, run) == Items(j', run[1..]) && Replies(j, run) == Replies(j', run[1..]);
      }
    }
  }

  // ----- requests other than readN -----

  predicate NoGlances(items: seq<Item>) {
    forall i :: 0 <= i < |items| ==> items[i].Whole?
  }

  function Requests(items: seq<Item>): (r: seq<S.Event>)
    requires NoGlances(items)
    ensures |r| == |items| && forall i :: 0 <= i < |r| ==> r[i] == items[i].event
  {
    seq(|items|, i requires 0 <= i < |items| => items[i].event)
  }

  /** The answers to requests taken one after the other. */
  function Responses(s: S.Store, run: seq<S.Event>): seq<S.Response>
    decreases |run|
  {
    if run == [] then [] else [S.Step(s, run[0]).response] + Responses(S.Step(s, run[0]).store, run[1..])
  }

  lemma {:induction false} WholeRun(s: S.Store, items: seq<Item>)
    requires NoGlances(items) && AllFine(s, items)
    ensures S.Defined(s, Requests(items)) && DoAll(s, items) == S.After(s, Requests(items))
    ensures Answers(s, items) == Responses(s, Requests(items))
    decreases |items|
  {
    if items != [] {
      assert Requests(items)[1..] == Requests(items[1..]);
      WholeRun(Do(s, items[0]), items[1..]);
    }
  }

  /** An interleaving in which no readN lists files is the sequence of its requests, answers and store. */
  lemma StoreIsSequential(j: Joint, run: seq<Step>)
    requires Sound(j) && Valid(j, run) && NoGlances(Items(j, run))
    ensures var requests := Requests(Items(j, run));
      && S.Defined(j.store, requests) && After(j, run).store == S.After(j.store, requests)
      && Replies(j, run) == Responses(j.store, requests)
  {
    HistoryExplained(j, run);
    WholeRun(j.store, Items(j, run));
  }

  // ----- the counters -----

  predicate BreaksIn(s: S.Store, items: seq<Item>)
    decreases |items|
  {
    items != [] &&
    ((items[0].Whole? && SI.Breaks(s, items[0].event)) || BreaksIn(Do(s, items[0]), items[1..]))
  }

  lemma {:induction false} ItemsInv(s: S.Store, items: seq<Item>)
    requires SI.Inv(s) && AllFine(s, items)
    ensures SI.Inv(DoAll(s, items)) && (SI.Accounting(DoAll(s, items)) <==> SI.Accounting(s) && !BreaksIn(s, items))
    decreases |items|
  {
    if items != [] {
      hide SI.Inv, SI.Accounting, SI.Breaks;
      if items[0].Whole? {
        SI.StepInv(s, items[0].event);
      } else {
        GlanceUpto(s, items[0]);
        UptoInv(s, Do(s, items[0]));
      }
      ItemsInv(Do(s, items[0]), items[1..]);
    }
  }

  /** In every interleaving the counters are true exactly when no unwritten file was removed or appended to. */
  lemma InterleavingAccounts(workers: nat, maxFiles: int, maxMB: nat, repPolicy: int, run: seq<Step>)
    requires maxFiles > 0 && 0 < maxMB < S.U63 && Valid(Init(workers, maxFiles, maxMB, repPolicy), run)
    ensures var j := Init(workers, maxFiles, maxMB, repPolicy); var s := After(j, run).store;
      && s.sizeMB == SI.Total(s.files) <= s.maxMB && s.filesNumb <= s.maxFiles
      && (SI.Accounting(s) <==> !BreaksIn(j.store, Items(j, run)))
  {
    var j := Init(workers, maxFiles, maxMB, repPolicy);
    InitSound(workers, maxFiles, maxMB, repPolicy);
    HistoryExplained(j, run);
    SI.InitAccounting(maxFiles, maxMB, repPolicy);
    ItemsInv(j.store, Items(j, run));
  }

  // ----- the lock protocol behind a run -----

  function Sides(j: Joint, run: seq<Step>): seq<P.Step>
    requires Valid(j, run)
    decreases |run|
  {
    if run == [] then [] else [LockSide(j, run[0])] + Sides(Next(j, run[0]), run[1..])
  }

  lemma {:induction false} SidesFollow(j: Joint, run: seq<Step>)
    requires Valid(j, run)
    ensures P.Valid(j.sys, Sides(j, run)) && After(j, run).sys == P.After(j.sys, Sides(j, run))
    decreases |run|
  {
    if run != [] {
      SidesFollow(Next(j, run[0]), run[1..]);
      hide S.Step, P.Next, P.Enabled, LockSide, StoreAfter, ToursAfter;
      assert Sides(j, run)[1..] == Sides(Next(j, run[0]), run[1..]);
      assert Next(j, run[0]).sys == P.Next(j.sys, LockSide(j, run[0]));
    }
  }

  // ----- leaking, told by the requests -----

  /** A request's turn to check comes on a store where its guard for a leaking branch holds. */
  predicate LeaksAt(j: Joint, a: Step) {
    a.Turn? && AtCheck(j, a.t) && LeaksOn(j.store, j.events[a.t])
  }

  predicate LeaksSomewhere(j: Joint, run: seq<Step>)
    requires Valid(j, run)
    decreases |run|
  {
    run != [] && (LeaksAt(j, run[0]) || LeaksSomewhere(Next(j, run[0]), run[1..]))
  }

  /** The lock protocol leaks at a step exactly when the request and the store say so. */
  lemma LeaksAtIff(j: Joint, a: Step)
    requires Sound(j) && Enabled(j, a)
    ensures D.Leaks(LockSide(j, a)) <==> LeaksAt(j, a)
  {
    if a.Turn? && AtCheck(j, a.t) {
      SoundParts(j, a.t);
      assert Busy(j, a.t);
      CheckRest(j, a.t);
      VerdictTimeless(j.store, j.events[a.t], a.now);
      hide Sound, Sane, SI.Inv, Linked, Placed, VerdictOf, LeaksOn, P.Enabled, Acted;
      VerdictLeaksIff(j.store, j.events[a.t]);
    }
  }

  lemma StepKeeps(j: Joint, a: Step)
    requires Sound(j) && D.Inv(j.sys) && Enabled(j, a) && !LeaksAt(j, a)
    ensures Sound(Next(j, a)) && D.Inv(Next(j, a).sys)
  {
    LeaksAtIff(j, a);
    StepSound(j, a);
    hide S.Step, D.Inv, P.Next, Sound;
    D.StepInv(j.sys, LockSide(j, a));
  }

  lemma {:induction false} RunInv(j: Joint, run: seq<Step>)
    requires Sound(j) && D.Inv(j.sys) && Valid(j, run) && !LeaksSomewhere(j, run)
    ensures Sound(After(j, run)) && D.Inv(After(j, run).sys)
    decreases |run|
  {
    if run != [] {
      StepKeeps(j, run[0]);
      RunInv(Next(j, run[0]), run[1..]);
    }
  }
}
