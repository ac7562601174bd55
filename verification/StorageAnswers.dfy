/** What each request answers, and all it does to the store, told without the code's order of checks and steps. */
module StorageAnswers {
  import opened Bytes
  import opened Sequences
  import opened StorageSpec
  import opened StorageInvariant
  import opened StorageEviction
  import opened StorageRuns
  import opened StorageListing

  // ----- errors -----

  /** The file is there, without the client among its openers. */
  predicate NotOpen(s: Store, name: string, c: int) {
    name in s.files && c !in s.files[name].whoOpened
  }

  /** The file is there, and another client has locked it. */
  predicate Foreign(s: Store, name: string, c: int) {
    name in s.files && s.files[name].lockerClient != -1 && s.files[name].lockerClient != c
  }

  predicate Empty(s: Store, name: string) {
    name in s.files && s.files[name].size == 0
  }

  /** Writing or appending nothing. */
  predicate Nothing(r: Request) {
    (r.Write? || r.Append?) && r.content == []
  }

  /** The requests each error is the answer to. */
  predicate Refused(s: Store, e: Event, x: Errno) {
    var r, c := e.request, e.client;
    match x
    case EINVAL => Nothing(r)
    case ENOENT =>
      if r.ReadN? then r.n <= 0 && s.filesNumb <= 0
      else r.name !in s.files && !(r.Open? && r.create) && !Nothing(r)
    case EEXIST =>
      || (r.Open? && r.create && r.name in s.files)
      || (r.Write? && !Nothing(r) && r.name in s.files && !NotOpen(s, r.name, c) && !Empty(s, r.name))
    case EPERM => r.Lock? && Foreign(s, r.name, c) && !NotOpen(s, r.name, c)
    case EACCES =>
      !r.ReadN? && !Nothing(r) && r.name in s.files &&
      (match r
       case Open(name, create, lock) => !create && lock && Foreign(s, name, c)
       case Lock(name) => NotOpen(s, name, c)
       case Close(name) => NotOpen(s, name, c)
       case Remove(name) => NotOpen(s, name, c) || s.files[name].lockerClient != c
       case Write(name, _) => NotOpen(s, name, c) || (Empty(s, name) && s.files[name].lockerClient != c)
       case _ => NotOpen(s, r.name, c) || Foreign(s, r.name, c))
    case Unset => r.ReadN? && s.queue == [] && (r.n > 0 || s.filesNumb > 0)
  }

  /** Every error is answered exactly to the requests stated for it. */
  lemma ErrnoIff(s: Store, e: Event, x: Errno)
    ensures Step(s, e).response.outcome == Failure(x) <==> Refused(s, e, x)
  {
    hide EvictUntilFits;
  }

  // ----- what writing hands back, and what appending evicts -----

  /** es lists exactly the files of s that are not in s', each once, with its content, in the order of eviction. */
  ghost predicate HandsBack(s: Store, s': Store, es: seq<Entry>)
    requires Inv(s)
  {
    && FirstDrained(s, |es|, es)
    && (forall i, j :: 0 <= i < j < |es| ==> es[i].name != es[j].name)
    && (forall n :: n in s.files ==> (n !in s'.files <==> Listed(es, n)))
  }

  lemma ListedNames(es: seq<Entry>, name: string)
    ensures Listed(es, name) <==> name in Names(es)
  {
  }

  lemma EvictionHandsBack(s: Store, need: nat)
    requires Inv(s) && need < U63 && EvictUntilFits(s, need).Evicted?
    ensures var r := EvictUntilFits(s, need);
      && HandsBack(s, r.store, r.victims)
      && forall k: nat :: k < |s.queue| ==> (k < |r.victims| <==> TooFull(s, k, need))
  {
    hide Inv, DrainOrder, TooFull, EvictUntilFits;
    var r := EvictUntilFits(s, need);
    ShortestPrefix(s, need);
    DrainPermutes(s);
    forall n | n in s.files ensures n !in r.store.files <==> Listed(r.victims, n) {
      EvictionOnFile(s, need, n);
      ListedNames(r.victims, n);
    }
    forall k: nat | k < |s.queue| && k >= |r.victims| ensures !TooFull(s, k, need) {
      if TooFull(s, k, need) { TooFullShrinks(s, |r.victims|, k, need); }
    }
  }

  lemma HandsBackSame(s: Store, a: Store, b: Store, es: seq<Entry>)
    requires Inv(s) && HandsBack(s, a, es) && b.files.Keys == a.files.Keys
    ensures HandsBack(s, b, es)
  {
  }

  /**
   * A successful write hands the client exactly the files it threw out, each once, with its content, in the
   * order of eviction; and it throws out the k-th of that order exactly when without the k before it there
   * is too little room.
   */
  lemma WriteHandsBack(s: Store, e: Event)
    requires Inv(s) && Sized(e.request) && e.request.Write? && Ok(s, e)
    ensures var r := Step(s, e);
      && HandsBack(s, r.store, r.response.listed) && r.response.evicted == r.response.listed && r.response.data == []
      && forall k: nat :: k < |s.queue| ==> (k < |r.response.listed| <==> TooFull(s, k, |e.request.content|))
  {
    hide Inv, EvictUntilFits, TooFull, HandsBack;
    EvictionHandsBack(s, |e.request.content|);
    var room := EvictUntilFits(s, |e.request.content|);
    HandsBackSame(s, room.store, Step(s, e).store, room.victims);
  }

  /** A successful append throws files out in the same way and hands nothing back. */
  lemma AppendEvicts(s: Store, e: Event)
    requires Inv(s) && Sized(e.request) && e.request.Append? && Ok(s, e)
    ensures var r := Step(s, e);
      && HandsBack(s, r.store, r.response.evicted) && r.response.listed == [] && r.response.data == []
      && forall k: nat :: k < |s.queue| ==> (k < |r.response.evicted| <==> TooFull(s, k, |e.request.content|))
  {
    hide Inv, EvictUntilFits, TooFull, HandsBack;
    EvictionHandsBack(s, |e.request.content|);
    var room := EvictUntilFits(s, |e.request.content|);
    HandsBackSame(s, room.store, Step(s, e).store, room.victims);
  }

  /** The other requests throw nothing out; only a read has bytes to show, and only readN lists. */
  lemma OthersAnswer(s: Store, e: Event)
    requires Ok(s, e) && !e.request.Write? && !e.request.Append?
    ensures var r := Step(s, e).response;
      && r.evicted == [] && (!e.request.ReadN? ==> r.listed == [])
      && r.data == if e.request.Read? && s.files[e.request.name].size > 0 then s.files[e.request.name].content else []
  {
  }

  /**
   * readN lists, in queue order and with their contents, the first readable files: as many as it was asked
   * for, or as the file counter says if it was asked for all, or as there are.
   */
  lemma ReadNLists(s: Store, c: nat, now: int, n: int) returns (at: seq<nat>)
    requires Inv(s) && ReadNFiles(s, c, now, n).response.outcome == Success
    ensures ReadablePositions(s, c, at)
    ensures var listed, wanted := ReadNFiles(s, c, now, n).response.listed, if n <= 0 then s.filesNumb else n;
      && |listed| == (if wanted < |at| then wanted else |at|)
      && forall i :: 0 <= i < |listed| ==> CopyAt(s, at[i], listed[i])
  {
    at := Positions(s, c);
    ListedAre(s, c, now, n);
  }

  // ----- the queue and the counters -----

  /** The files that leave in a step. */
  function Leaving(s: Store, s': Store): set<string> {
    s.files.Keys - s'.files.Keys
  }

  lemma EvictedLeave(s: Store, need: nat)
    requires Inv(s) && need < U63 && EvictUntilFits(s, need).Evicted?
    ensures var r := EvictUntilFits(s, need); Leaving(s, r.store) == Names(r.victims) && Drift(r.store) == Drift(s)
  {
    EvictionOutcome(s, need);
    var r := EvictUntilFits(s, need);
    forall n ensures n in Leaving(s, r.store) <==> n in Names(r.victims) {
      if n in Names(r.victims) { assert exists i :: 0 <= i < |r.victims| && ExactCopy(s, r.victims[i]) && r.victims[i].name == n; }
    }
  }

  lemma RoomQueue(s: Store, need: nat, s': Store)
    requires Inv(s) && need < U63 && EvictUntilFits(s, need).Evicted?
    requires s'.files.Keys == EvictUntilFits(s, need).store.files.Keys
    ensures EvictUntilFits(s, need).store.queue == Without(s.queue, Leaving(s, s'))
  {
    hide Inv, EvictUntilFits;
    SurvivorsInOrder(s, need);
    EvictedLeave(s, need);
    assert Leaving(s, s') == Leaving(s, EvictUntilFits(s, need).store);
  }

  /**
   * The queue keeps its order: files leave it as they leave the store, and a written file joins at its end.
   */
  lemma QueueStep(s: Store, e: Event)
    requires Inv(s) && StorageRuns.Fine(s, e)
    ensures var s' := Step(s, e).store;
      s'.queue == Without(s.queue, Leaving(s, s')) + if Ok(s, e) && e.request.Write? then [e.request.name] else []
  {
    hide Inv, EvictUntilFits, Without;
    var s' := Step(s, e).store;
    if Ok(s, e) && (e.request.Write? || e.request.Append?) {
      RoomQueue(s, |e.request.content|, s');
    } else if Ok(s, e) && e.request.Remove? {
      RemovalQueue(s, e.request.name);
    } else {
      assert Leaving(s, s') == {} && s'.queue == s.queue;
      WithoutNone(s.queue, {});
    }
  }

  lemma RemovalQueue(s: Store, name: string)
    requires Inv(s) && name in s.files
    ensures Leaving(s, TakeOut(s, name)) == {name} && TakeOut(s, name).queue == Without(s.queue, {name})
  {
    ListRemoveDistinct(s.queue, name);
    if name in s.queue {
      RemoveAtIsWithout(s.queue, FirstIndex(s.queue, name));
    } else {
      WithoutNone(s.queue, {name});
    }
  }

  /** The file counter goes up by one with a write, and down by one with each eviction and each removal. */
  lemma CounterStep(s: Store, e: Event)
    requires Inv(s) && StorageRuns.Fine(s, e)
    ensures var r := Step(s, e);
      r.store.filesNumb == s.filesNumb - |r.response.evicted|
        + (if Ok(s, e) && e.request.Write? then 1 else 0) - (if Ok(s, e) && e.request.Remove? then 1 else 0)
    ensures Step(s, e).store.maxFiles == s.maxFiles && Step(s, e).store.maxMB == s.maxMB
    ensures Step(s, e).store.repPolicy == s.repPolicy
  {
    hide Inv, EvictUntilFits;
    if Ok(s, e) && (e.request.Write? || e.request.Append?) {
      EvictionCounts(s, |e.request.content|);
    }
  }

  lemma {:induction false} EvictionCounts(s: Store, need: nat)
    requires Inv(s) && EvictUntilFits(s, need).Evicted?
    ensures var r := EvictUntilFits(s, need); r.store.filesNumb == s.filesNumb - |r.victims|
    ensures var r := EvictUntilFits(s, need);
      r.store.maxFiles == s.maxFiles && r.store.maxMB == s.maxMB && r.store.repPolicy == s.repPolicy
    decreases |s.queue|
  {
    if !Fits(s, need) {
      EvictKeeps(s);
      EvictionCounts(Evict(s), need);
    }
  }

  lemma {:induction false} OneMore(s: Store, run: seq<Event>, last: Event)
    requires Inv(s) && Defined(s, run + [last])
    ensures Defined(s, run) && Inv(After(s, run)) && StorageRuns.Fine(After(s, run), last)
    ensures After(s, run + [last]) == Step(After(s, run), last).store
    decreases |run|
  {
    hide Step, Inv;
    if run == [] {
      assert (run + [last])[1..] == [];
      assert After(Step(s, last).store, []) == Step(s, last).store;
    } else {
      assert (run + [last])[1..] == run[1..] + [last];
      StepInv(s, run[0]);
      OneMore(Step(s, run[0]).store, run[1..], last);
    }
  }

  /** What the recorded maxima say of the run behind them. */
  ghost predicate Peaks(s: Store, run: seq<Event>) {
    var end := After(s, run);
    && (forall k :: 0 <= k <= |run| ==> After(s, run[..k]).sizeMB <= end.maxMBStored)
    && (forall k :: 0 <= k <= |run| ==> After(s, run[..k]).filesNumb <= end.maxFileStored)
    && (exists k :: 0 <= k <= |run| && After(s, run[..k]).sizeMB == end.maxMBStored)
    && (exists k :: 0 <= k <= |run| && After(s, run[..k]).filesNumb == end.maxFileStored)
  }

  lemma PeaksGrow(s: Store, run: seq<Event>, last: Event)
    requires Peaks(s, run) && var m, end := After(s, run), After(s, run + [last]);
      && end.maxMBStored == (if end.sizeMB > m.maxMBStored then end.sizeMB else m.maxMBStored)
      && end.maxFileStored == if end.filesNumb > m.maxFileStored then end.filesNumb else m.maxFileStored
    ensures Peaks(s, run + [last])
  {
    hide Step;
    var all := run + [last];
    assert all[..|all|] == all;
    forall k | 0 <= k <= |run| ensures all[..k] == run[..k] { }
    var i :| 0 <= i <= |run| && After(s, run[..i]).sizeMB == After(s, run).maxMBStored;
    var j :| 0 <= j <= |run| && After(s, run[..j]).filesNumb == After(s, run).maxFileStored;
    assert After(s, all[..i]).sizeMB == After(s, run).maxMBStored && After(s, all[..j]).filesNumb == After(s, run).maxFileStored;
    assert After(s, all[..|all|]) == After(s, all);
  }

  /** The recorded maxima are no less than the counters ever were, and no more than they once were. */
  lemma {:induction false} MaximaArePeaks(s: Store, run: seq<Event>)
    requires Inv(s) && Defined(s, run) && s.maxMBStored == s.sizeMB && s.maxFileStored == s.filesNumb
    ensures Peaks(s, run)
    decreases |run|
  {
    if run == [] {
      assert run[..0] == [] && After(s, run[..0]) == s;
    } else {
      var before, last := run[..|run| - 1], run[|run| - 1];
      assert before + [last] == run;
      OneMore(s, before, last);
      MaximaArePeaks(s, before);
      var m := After(s, before);
      assert before[..|before|] == before && m.sizeMB <= m.maxMBStored && m.filesNumb <= m.maxFileStored;
      StatisticsStep(m, last);
      PeaksGrow(s, before, last);
    }
  }

  // ----- storageInit -----

  /** storageInit refuses an empty capacity; else the store is empty, and replaces by LRU exactly for policy 1. */
  lemma InitIs(maxFiles: int, maxMB: nat, repPolicy: int)
    ensures Init(maxFiles, maxMB, repPolicy) == None <==> maxFiles <= 0 || maxMB == 0
    ensures Init(maxFiles, maxMB, repPolicy).Some? ==>
      var s := Init(maxFiles, maxMB, repPolicy).value;
      && s.files == map[] && s.queue == [] && s.filesNumb == 0 && s.sizeMB == 0
      && s.maxFileStored == 0 && s.maxMBStored == 0 && s.victimNumb == 0
      && s.maxFiles == maxFiles && s.maxMB == maxMB && (s.repPolicy == Lru <==> repPolicy == 1)
  {
  }

  /** A file nobody has locked belongs to no client. */
  lemma NobodyIsNoClient(s: Store, e: Event, name: string, c: nat)
    requires Ok(s, e) && On(e, name) && (e.request.Unlock? || (e.request.Open? && e.request.create && !e.request.lock))
    ensures name in Step(s, e).store.files && Step(s, e).store.files[name].lockerClient != c
  {
  }

  /** Sums and differences of unsigned longs are those of the integers modulo 2^64. */
  lemma MachineSums(a: nat, b: nat)
    requires a < U64 && b < U64
    ensures 0 <= Add64(a, b) < 0x1_0000_0000_0000_0000 && (Add64(a, b) == a + b || Add64(a, b) == a + b - 0x1_0000_0000_0000_0000)
    ensures 0 <= Sub64(a, b) < 0x1_0000_0000_0000_0000 && (Sub64(a, b) == a - b || Sub64(a, b) == a - b + 0x1_0000_0000_0000_0000)
  {
  }
}
