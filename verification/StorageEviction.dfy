/** Which files the two replacement policies throw out. */
module StorageEviction {
  import opened Bytes
  import opened Sequences
  import opened StorageSpec
  import opened StorageInvariant

  // ----- the order in which a policy would empty the queue -----

  lemma EvictShortens(s: Store)
    requires Inv(s) && s.queue != []
    ensures QueueKnown(s) && Inv(Evict(s)) && |Evict(s).queue| == |s.queue| - 1
    ensures Evict(s).filesNumb == s.filesNumb - 1 && Evict(s).sizeMB == s.sizeMB - s.files[VictimName(s)].size
    ensures forall n :: n in Evict(s).queue <==> n in s.queue && n != VictimName(s)
    ensures Evict(s).files == s.files - {VictimName(s)} && Evict(s).maxFiles == s.maxFiles && Evict(s).maxMB == s.maxMB
  {
    EvictKeeps(s);
    EvictShape(s);
  }

  /** The queued files in the order in which the policy throws them out, one after the other. */
  ghost function DrainOrder(s: Store): (r: seq<string>)
    requires Inv(s)
    ensures |r| == |s.queue|
    decreases |s.queue|
  {
    if s.queue == [] then []
    else
      EvictShortens(s);
      [VictimName(s)] + DrainOrder(Evict(s))
  }

  /** It lists every queued file once. */
  lemma {:induction false} DrainPermutes(s: Store)
    requires Inv(s)
    ensures Distinct(DrainOrder(s)) && forall n :: n in DrainOrder(s) <==> n in s.queue
    ensures forall i :: 0 <= i < |DrainOrder(s)| ==> DrainOrder(s)[i] in s.files
    decreases |s.queue|
  {
    if s.queue != [] {
      EvictKeeps(s);
      DrainPermutes(Evict(s));
      DrainStep(s);
      DistinctCons(VictimName(s), DrainOrder(Evict(s)));
      forall n ensures n in DrainOrder(s) <==> n in s.queue {
        assert n in DrainOrder(s) <==> n == VictimName(s) || n in DrainOrder(Evict(s));
      }
      forall i | 0 <= i < |DrainOrder(s)| ensures DrainOrder(s)[i] in s.files {
        assert DrainOrder(s)[i] in DrainOrder(s);
      }
    }
  }

  lemma DistinctCons<T>(x: T, xs: seq<T>)
    requires Distinct(xs) && x !in xs
    ensures Distinct([x] + xs)
  {
  }

  lemma DrainStep(s: Store)
    requires Inv(s) && s.queue != []
    ensures QueueKnown(s) && Inv(Evict(s)) && DrainOrder(s) == [VictimName(s)] + DrainOrder(Evict(s))
    ensures DrainOrder(s)[0] == VictimName(s) && DrainOrder(s)[1..] == DrainOrder(Evict(s))
  {
    EvictKeeps(s);
  }

  /** Under FIFO that is the queue itself. */
  lemma {:induction false} FifoDrain(s: Store)
    requires Inv(s) && s.repPolicy == Fifo
    ensures DrainOrder(s) == s.queue
    decreases |s.queue|
  {
    if s.queue != [] {
      FifoEvict(s);
      FifoDrain(Evict(s));
      assert s.queue == [s.queue[0]] + s.queue[1..];
    }
  }

  lemma FifoEvict(s: Store)
    requires Inv(s) && s.repPolicy == Fifo && s.queue != []
    ensures Inv(Evict(s)) && QueueKnown(s) && Evict(s).queue == s.queue[1..] && VictimName(s) == s.queue[0]
  {
    EvictKeeps(s);
    EvictShape(s);
    assert RemoveAt(s.queue, 0) == s.queue[1..];
  }

  // ----- the victims -----

  /** With the first j files of the drain order gone there is still no room. */
  ghost predicate TooFull(s: Store, j: nat, need: nat)
    requires Inv(s) && j <= |s.queue|
  {
    DrainPermutes(s);
    s.filesNumb - j + 1 > s.maxFiles || s.sizeMB - QueueBytes(s.files, DrainOrder(s)[..j]) + need > s.maxMB
  }

  lemma Add64Exact(a: nat, b: nat)
    requires a + b < U64
    ensures Add64(a, b) == a + b
  {
  }

  lemma FitsIff(s: Store, need: nat)
    requires Inv(s) && need < U63
    ensures Fits(s, need) <==> !TooFull(s, 0, need)
  {
    Add64Exact(s.sizeMB, need);
    assert DrainOrder(s)[..0] == [];
  }

  /** Dropping the victim first and then j files is dropping j + 1. */
  lemma TooFullShift(s: Store, j: nat, need: nat)
    requires Inv(s) && j < |s.queue|
    ensures QueueKnown(s) && Inv(Evict(s)) && |Evict(s).queue| == |s.queue| - 1
    ensures TooFull(Evict(s), j, need) <==> TooFull(s, j + 1, need)
  {
    EvictShortens(s);
    DrainPermutes(s);
    DrainPermutes(Evict(s));
    DrainStep(s);
    hide Inv, Evict, DrainOrder, Distinct;
    var order, rest := DrainOrder(s), DrainOrder(Evict(s))[..j];
    assert order[..j + 1][0] == VictimName(s) && order[..j + 1][1..] == rest;
    forall i | 0 <= i < |rest| ensures rest[i] in Evict(s).files && Evict(s).files[rest[i]] == s.files[rest[i]] {
      assert rest[i] == DrainOrder(Evict(s))[i];
    }
    QueueBytesFrame(s.files, Evict(s).files, rest);
  }

  /** The first k files of the drain order with their contents: what the eviction loop hands back. */
  ghost predicate FirstDrained(s: Store, k: nat, victims: seq<Entry>)
    requires Inv(s)
  {
    && k == |victims| <= |s.queue|
    && forall i :: 0 <= i < k ==> DrainOrder(s)[i] in s.files && victims[i] == Entry(DrainOrder(s)[i], s.files[DrainOrder(s)[i]].content)
  }

  lemma FirstDrainedCons(s: Store, victims: seq<Entry>)
    requires Inv(s) && s.queue != [] && QueueKnown(s) && Inv(Evict(s)) && FirstDrained(Evict(s), |victims|, victims)
    ensures FirstDrained(s, |victims| + 1, [VictimEntry(s)] + victims)
  {
    EvictShortens(s);
    DrainStep(s);
    hide Inv, DrainOrder, Evict, QueueKnown, VictimName;
    var all, order, rest := [VictimEntry(s)] + victims, DrainOrder(s), DrainOrder(Evict(s));
    assert order[1..] == rest;
    forall i | 0 <= i < |all| ensures order[i] in s.files && all[i] == Entry(order[i], s.files[order[i]].content) {
      if i > 0 { assert all[i] == victims[i - 1] && order[i] == rest[i - 1]; }
    }
  }

  /**
   * Under either policy the victims are exactly the shortest prefix of the drain order whose
   * removal makes room, in that order and with exact contents.
   */
  lemma {:induction false} ShortestPrefix(s: Store, need: nat)
    requires Inv(s) && need < U63 && EvictUntilFits(s, need).Evicted?
    ensures var victims := EvictUntilFits(s, need).victims;
      && FirstDrained(s, |victims|, victims)
      && !TooFull(s, |victims|, need)
      && forall j :: 0 <= j < |victims| ==> TooFull(s, j, need)
    decreases |s.queue|
  {
    hide Inv, TooFull, Fits, FirstDrained;
    FitsIff(s, need);
    if Fits(s, need) {
      NothingDrained(s);
    } else {
      TooFullShift(s, 0, need);
      ShortestPrefix(Evict(s), need);
      var victims := EvictUntilFits(Evict(s), need).victims;
      FirstDrainedCons(s, victims);
      DrainedBound(Evict(s), victims);
      TooFullShift(s, |victims|, need);
      forall j | 0 <= j < |victims| + 1 ensures TooFull(s, j, need) {
        if j > 0 { TooFullShift(s, j - 1, need); }
      }
    }
  }

  lemma NothingDrained(s: Store)
    requires Inv(s)
    ensures FirstDrained(s, 0, [])
  {
  }

  lemma DrainedBound(s: Store, victims: seq<Entry>)
    requires Inv(s) && FirstDrained(s, |victims|, victims)
    ensures |victims| <= |s.queue|
  {
  }

  // ----- the survivors -----

  function Without(queue: seq<string>, gone: set<string>): seq<string> {
    if queue == [] then []
    else if queue[0] in gone then Without(queue[1..], gone)
    else [queue[0]] + Without(queue[1..], gone)
  }

  lemma {:induction false} WithoutTwice(queue: seq<string>, a: set<string>, b: set<string>)
    ensures Without(Without(queue, a), b) == Without(queue, a + b)
  {
    if queue != [] {
      WithoutTwice(queue[1..], a, b);
      if queue[0] !in a {
        assert ([queue[0]] + Without(queue[1..], a))[1..] == Without(queue[1..], a);
      }
    }
  }

  lemma {:induction false} WithoutNone(queue: seq<string>, gone: set<string>)
    requires forall n :: n in queue ==> n !in gone
    ensures Without(queue, gone) == queue
  {
    if queue != [] {
      assert queue == [queue[0]] + queue[1..];
      WithoutNone(queue[1..], gone);
    }
  }

  lemma {:induction false} RemoveAtIsWithout(queue: seq<string>, k: nat)
    requires Distinct(queue) && k < |queue|
    ensures RemoveAt(queue, k) == Without(queue, {queue[k]})
  {
    if k == 0 {
      WithoutNone(queue[1..], {queue[0]});
      assert RemoveAt(queue, 0) == queue[1..];
    } else {
      RemoveAtIsWithout(queue[1..], k - 1);
      assert RemoveAt(queue, k) == [queue[0]] + RemoveAt(queue[1..], k - 1);
    }
  }

  /** The files that stay keep their order in the queue. */
  lemma {:induction false} SurvivorsInOrder(s: Store, need: nat)
    requires Inv(s) && EvictUntilFits(s, need).Evicted?
    ensures var r := EvictUntilFits(s, need); r.store.queue == Without(s.queue, Names(r.victims))
    decreases |s.queue|
  {
    var r := EvictUntilFits(s, need);
    if Fits(s, need) {
      WithoutNone(s.queue, Names([]));
    } else {
      EvictKeeps(s);
      EvictShape(s);
      SurvivorsInOrder(Evict(s), need);
      RemoveAtIsWithout(s.queue, VictimIndex(s));
      var rest := EvictUntilFits(Evict(s), need).victims;
      NamesCons(VictimEntry(s), rest);
      WithoutTwice(s.queue, {VictimName(s)}, Names(rest));
    }
  }

  // ----- being a victim, told by the place in the drain order -----

  lemma {:induction false} QueueBytesGrow(files: map<string, FileVal>, queue: seq<string>, j: nat, k: nat)
    requires j <= k <= |queue| && forall i :: 0 <= i < |queue| ==> queue[i] in files
    ensures QueueBytes(files, queue[..j]) <= QueueBytes(files, queue[..k]) <= QueueBytes(files, queue)
  {
    if j > 0 {
      assert queue[..j][1..] == queue[1..][..j - 1] && queue[..k][1..] == queue[1..][..k - 1];
      QueueBytesGrow(files, queue[1..], j - 1, k - 1);
    } else if k > 0 {
      assert queue[..j] == [] && queue[..k][1..] == queue[1..][..k - 1];
      QueueBytesGrow(files, queue[1..], 0, k - 1);
    }
  }

  /** Dropping more never makes less room. */
  lemma TooFullShrinks(s: Store, j: nat, k: nat, need: nat)
    requires Inv(s) && j <= k <= |s.queue| && TooFull(s, k, need)
    ensures TooFull(s, j, need)
  {
    DrainPermutes(s);
    QueueBytesGrow(s.files, DrainOrder(s), j, k);
  }

  /** What can never fit does not fit with any prefix gone. */
  lemma NeverFits(s: Store, k: nat, need: nat)
    requires Inv(s) && k <= |s.queue| && Total(Unqueued(s)) + need > s.maxMB
    ensures TooFull(s, k, need)
  {
    DrainPermutes(s);
    var order := DrainOrder(s);
    TotalSplit(s.files, order);
    assert (map n | n in s.files && n !in order :: s.files[n]) == Unqueued(s);
    QueueBytesGrow(s.files, order, k, |order|);
  }

  /** The k-th file to go is a victim exactly when dropping the k files before it leaves too little room. */
  lemma VictimIff(s: Store, need: nat, k: nat)
    requires Inv(s) && need < U63 && EvictUntilFits(s, need).Evicted? && k < |s.queue|
    ensures DrainOrder(s)[k] in Names(EvictUntilFits(s, need).victims) <==> TooFull(s, k, need)
  {
    var victims := EvictUntilFits(s, need).victims;
    ShortestPrefix(s, need);
    DrainPermutes(s);
    hide Inv, TooFull, EvictUntilFits;
    if k < |victims| {
      assert victims[k].name == DrainOrder(s)[k];
    } else {
      if TooFull(s, k, need) { TooFullShrinks(s, |victims|, k, need); }
      forall i | 0 <= i < |victims| ensures victims[i].name != DrainOrder(s)[k] {
        assert victims[i].name == DrainOrder(s)[i];
      }
    }
  }

  /**
   * Under either policy an admitted append to the k-th file to go frees the file it is about to
   * write, or runs out of victims, exactly when dropping the k files before it leaves too little
   * room. A store full of files always does this to the first file to go.
   */
  lemma AppendToQueuedUndefinedIff(s: Store, c: nat, now: int, content: Bytes, k: nat)
    requires Inv(s) && |content| < U63 && k < |s.queue| && AppendAdmitted(s, c, DrainOrder(s)[k], content)
    ensures AppendFile(s, c, now, DrainOrder(s)[k], content).response.outcome == Undefined <==> TooFull(s, k, |content|)
  {
    var need := |content|;
    AppendUndefinedIff(s, c, now, DrainOrder(s)[k], content);
    EvictionOutcome(s, need);
    if EvictUntilFits(s, need).Evicted? {
      VictimIff(s, need, k);
    } else {
      NeverFits(s, k, need);
    }
  }

  /** An admitted append to a file outside the queue is undefined exactly when it can never fit. */
  lemma AppendToUnqueuedUndefinedIff(s: Store, c: nat, now: int, name: string, content: Bytes)
    requires Inv(s) && |content| < U63 && name !in s.queue && AppendAdmitted(s, c, name, content)
    ensures AppendFile(s, c, now, name, content).response.outcome == Undefined <==> Total(Unqueued(s)) + |content| > s.maxMB
  {
    var need := |content|;
    AppendUndefinedIff(s, c, now, name, content);
    EvictionOutcome(s, need);
    var r := EvictUntilFits(s, need);
    if r.Evicted? { UnqueuedStays(s, r.store, r.victims, name); }
  }

  /** The place of a queued file in the drain order. */
  ghost function PlaceOf(s: Store, name: string): (k: nat)
    requires Inv(s) && name in s.queue
    ensures k < |s.queue| && DrainOrder(s)[k] == name
  {
    DrainPermutes(s);
    FirstIndex(DrainOrder(s), name)
  }

  /** There is room for need more bytes in the file: it need not go itself, and victims do not run out. */
  ghost predicate AppendFits(s: Store, name: string, need: nat)
    requires Inv(s)
  {
    if name in s.queue then !TooFull(s, PlaceOf(s, name), need) else Total(Unqueued(s)) + need <= s.maxMB
  }

  /** Any admitted append, under either policy, is undefined exactly when there is no such room, and else succeeds. */
  lemma AppendSucceedsIff(s: Store, c: nat, now: int, name: string, content: Bytes)
    requires Inv(s) && |content| < U63 && AppendAdmitted(s, c, name, content)
    ensures AppendFile(s, c, now, name, content).response.outcome ==
      if AppendFits(s, name, |content|) then Success else Undefined
  {
    if name in s.queue {
      AppendToQueuedUndefinedIff(s, c, now, content, PlaceOf(s, name));
    } else {
      AppendToUnqueuedUndefinedIff(s, c, now, name, content);
    }
    hide EvictUntilFits, Inv, TooFull;
  }

  lemma UnqueuedStays(s: Store, s': Store, victims: seq<Entry>, name: string)
    requires Gone(s, s', victims) && name !in s.queue
    ensures name !in Names(victims)
  {
    forall i | 0 <= i < |victims| ensures victims[i].name != name { assert ExactCopy(s, victims[i]); }
  }

  // ----- LRU: what the scan finds -----

  /** The victim is no younger than the head, and no scanned file is older than it by more than the final difference. */
  lemma {:induction false} LruScanFacts(times: seq<int>, i: nat, v: nat, d: nat)
    requires v < |times| && v <= i <= |times| && times[v] <= times[0]
    requires forall j :: 0 <= j < i ==> times[v] - times[j] <= d
    ensures var r := LruScan(times, i, v, d);
      times[r.0] <= times[0] && d <= r.1 && forall j :: 0 <= j < |times| ==> times[r.0] - times[j] <= r.1
    decreases |times| - i
  {
    if i < |times| {
      var diff := times[v] - times[i];
      if Abs(diff) > d {
        LruScanFacts(times, i + 1, if diff > 0 then i else v, Abs(diff));
      } else {
        LruScanFacts(times, i + 1, v, d);
      }
    }
  }

  lemma LruVictimFacts(times: seq<int>)
    requires times != []
    ensures var r := LruVictim(times);
      times[r.0] <= times[0] && forall j :: 0 <= j < |times| ==> times[r.0] - times[j] <= r.1
  {
    if |times| > 1 { LruScanFacts(times, 1, 0, Abs(times[0] - times[1])); }
  }

  lemma {:induction false} OldestStays(times: seq<int>, i: nat, v: nat, d: nat)
    requires v < |times| && v <= i && forall j :: 0 <= j < |times| ==> times[v] <= times[j]
    ensures LruScan(times, i, v, d).0 == v
    decreases |times| - i
  {
    if i < |times| {
      var diff := times[v] - times[i];
      OldestStays(times, i + 1, v, if Abs(diff) > d then Abs(diff) else d);
    }
  }

  lemma {:induction false} OldestMissed(times: seq<int>, i: nat, v: nat, d: nat, least: int)
    requires v < |times| && v <= i && forall j :: 0 <= j < |times| ==> least <= times[j]
    requires least < times[v] <= least + d
    ensures times[LruScan(times, i, v, d).0] > least
    decreases |times| - i
  {
    if i < |times| {
      var diff := times[v] - times[i];
      OldestMissed(times, i + 1, v, if Abs(diff) > d then Abs(diff) else d, least);
    }
  }

  /** m is the first of the oldest files. */
  ghost predicate FirstOldest(times: seq<int>, m: nat) {
    && m < |times|
    && (forall j :: 0 <= j < |times| ==> times[m] <= times[j])
    && (forall j :: 0 <= j < m ==> times[m] < times[j])
  }

  /** A victim for each file looked at, none later than the file. */
  ghost predicate Trail(times: seq<int>, victims: seq<nat>) {
    |victims| <= |times| && forall i :: 0 <= i < |victims| ==> victims[i] <= i
  }

  /** How much younger the victim before the i-th file is than that file. */
  ghost function Gap(times: seq<int>, victims: seq<nat>, i: nat): int
    requires Trail(times, victims) && 1 <= i <= |victims| && i < |times|
  {
    times[victims[i - 1]] - times[i]
  }

  /** The victim before the i-th file is younger than it by more than any difference met before, whichever way that went. */
  ghost predicate Beats(times: seq<int>, victims: seq<nat>, i: nat)
    requires Trail(times, victims) && 1 <= i <= |victims| && i < |times|
  {
    forall j :: 1 <= j < i ==> Gap(times, victims, i) > Gap(times, victims, j) && Gap(times, victims, i) > 0 - Gap(times, victims, j)
  }

  /**
   * The victims of getVictim's scan: the head to begin with, and never the second file; a later file
   * replaces the victim exactly when it beats it.
   */
  ghost predicate Scans(times: seq<int>, victims: seq<nat>) {
    && Trail(times, victims)
    && (|victims| > 1 ==> victims[1] == 0)
    && (forall i :: 2 <= i < |victims| ==> victims[i] == if Beats(times, victims, i) then i else victims[i - 1])
  }

  /** d is the widest of the differences met before the i-th file. */
  ghost predicate Widest(times: seq<int>, victims: seq<nat>, i: nat, d: nat)
    requires Trail(times, victims) && 2 <= i <= |victims|
  {
    && (forall j :: 1 <= j < i ==> 0 - d <= Gap(times, victims, j) <= d)
    && (exists j :: 1 <= j < i && (Gap(times, victims, j) == d || Gap(times, victims, j) == 0 - d))
  }

  lemma BeatsIff(times: seq<int>, victims: seq<nat>, i: nat, d: nat)
    requires Trail(times, victims) && 2 <= i <= |victims| && i < |times| && Widest(times, victims, i, d)
    ensures Beats(times, victims, i) <==> Gap(times, victims, i) > d
  {
    var j :| 1 <= j < i && (Gap(times, victims, j) == d || Gap(times, victims, j) == 0 - d);
  }

  lemma WidestNext(times: seq<int>, victims: seq<nat>, i: nat, d: nat, d': nat)
    requires Trail(times, victims) && 2 <= i < |victims| && Widest(times, victims, i, d)
    requires d' == if Gap(times, victims, i) > d then Gap(times, victims, i)
                   else if 0 - Gap(times, victims, i) > d then 0 - Gap(times, victims, i) else d
    ensures Widest(times, victims, i + 1, d')
  {
    if d' == d {
      var j :| 1 <= j < i && (Gap(times, victims, j) == d || Gap(times, victims, j) == 0 - d);
      assert 1 <= j < i + 1;
    } else {
      assert 1 <= i < i + 1 && (Gap(times, victims, i) == d' || Gap(times, victims, i) == 0 - d');
    }
  }

  /** The scan, come to the m-th file. */
  lemma {:induction false} ScanTo(times: seq<int>, victims: seq<nat>, m: nat) returns (d: nat)
    requires Scans(times, victims) && |victims| == |times| && 2 <= m <= |times|
    ensures Widest(times, victims, m, d) && LruVictim(times) == LruScan(times, m, victims[m - 1], d)
    decreases m
  {
    if m == 2 {
      d := Abs(times[0] - times[1]);
      assert Gap(times, victims, 1) == times[0] - times[1];
      assert LruScan(times, 1, 0, d) == LruScan(times, 2, 0, d);
    } else {
      var d0 := ScanTo(times, victims, m - 1);
      BeatsIff(times, victims, m - 1, d0);
      d := if Abs(Gap(times, victims, m - 1)) > d0 then Abs(Gap(times, victims, m - 1)) else d0;
      WidestNext(times, victims, m - 1, d0, d);
      hide Widest, Beats, LruVictim;
      ScanOne(times, m - 1, victims[m - 2], d0);
    }
  }

  lemma ScanOne(times: seq<int>, i: nat, v: nat, d: nat)
    requires v < i < |times|
    ensures var diff := times[v] - times[i];
      LruScan(times, i, v, d) == LruScan(times, i + 1, if diff > d then i else v, if Abs(diff) > d then Abs(diff) else d)
  {
  }

  /** What getVictim chooses under LRU, and its final difference. */
  lemma LruVictimIs(times: seq<int>, victims: seq<nat>)
    requires times != [] && Scans(times, victims) && |victims| == |times|
    ensures LruVictim(times).0 == victims[|times| - 1]
    ensures |times| > 1 ==> Widest(times, victims, |times|, LruVictim(times).1)
  {
    if |times| > 1 { var d := ScanTo(times, victims, |times|); }
  }

  lemma TrailGrows(times: seq<int>, before: seq<nat>, v: nat, i: nat)
    requires Trail(times, before) && |before| < |times| && v <= |before| && 1 <= i <= |before|
    ensures Trail(times, before + [v]) && (Beats(times, before + [v], i) <==> Beats(times, before, i))
  {
    forall j | 1 <= j <= i ensures Gap(times, before + [v], j) == Gap(times, before, j) { }
  }

  lemma ScansNext(times: seq<int>, before: seq<nat>, v: nat)
    requires Scans(times, before) && 2 <= |before| < |times|
    requires v == if Beats(times, before, |before|) then |before| else before[|before| - 1]
    ensures Scans(times, before + [v])
  {
    var n, victims := |before|, before + [v];
    TrailGrows(times, before, v, 1);
    forall i | 2 <= i < |victims| ensures victims[i] == if Beats(times, victims, i) then i else victims[i - 1] {
      TrailGrows(times, before, v, i);
      assert victims[i - 1] == before[i - 1];
      assert i < n ==> victims[i] == before[i];
    }
    assert victims[1] == before[1];
    assert Scans(times, victims);
  }

  /** Every sequence of access times has its victims. */
  lemma {:induction false} ScansExists(times: seq<int>, n: nat) returns (victims: seq<nat>)
    requires n <= |times|
    ensures Scans(times, victims) && |victims| == n
    decreases n
  {
    if n <= 2 { return if n == 0 then [] else if n == 1 then [0] else [0, 0]; }
    var before := ScansExists(times, n - 1);
    var v := if Beats(times, before, n - 1) then n - 1 else before[n - 2];
    ScansNext(times, before, v);
    victims := before + [v];
  }

  /** With three files the third goes exactly when the head is younger than it by more than head and second differ. */
  lemma OfThree(a: int, b: int, c: int)
    ensures LruVictim([a, b, c]).0 == if a - c > a - b && a - c > b - a then 2 else 0
  {
    var times, victims := [a, b, c], [0, 0, if a - c > a - b && a - c > b - a then 2 else 0];
    assert Gap(times, victims, 1) == a - b && Gap(times, victims, 2) == a - c;
    LruVictimIs(times, victims);
  }

  /**
   * The scan throws out a least recently used file exactly when the first of them is the head, or comes
   * third or later and beats the victim before it. In particular never when it comes second.
   */
  lemma LruFindsOldestIff(times: seq<int>, victims: seq<nat>, m: nat)
    requires Scans(times, victims) && |victims| == |times| && FirstOldest(times, m)
    ensures times[LruVictim(times).0] == times[m] <==> m == 0 || (m >= 2 && Beats(times, victims, m))
  {
    if |times| > 1 {
      if m == 0 {
        OldestStays(times, 1, 0, Abs(times[0] - times[1]));
      } else if m == 1 {
        OldestMissed(times, 1, 0, Abs(times[0] - times[1]), times[1]);
      } else {
        var d := ScanTo(times, victims, m);
        BeatsIff(times, victims, m, d);
        var v := victims[m - 1];
        if times[v] - times[m] > d {
          OldestStays(times, m + 1, m, times[v] - times[m]);
        } else {
          OldestMissed(times, m + 1, v, d, times[m]);
        }
      }
    }
  }

  /** Two queued files, the second one older: the scan still throws out the first. */
  lemma LruMissesSecond()
    ensures LruVictim([5, 3]).0 == 0
  {
    assert LruScan([5, 3], 1, 0, 2) == LruScan([5, 3], 2, 0, 2);
  }

  // ----- LRU is FIFO while nobody touches what was written -----

  /** Access times do not decrease along the queue and are not in the future. */
  ghost predicate InOrder(s: Store, now: int) {
    && QueueKnown(s)
    && (forall i, j :: 0 <= i < j < |s.queue| ==> s.files[s.queue[i]].lastAccess <= s.files[s.queue[j]].lastAccess)
    && (forall i :: 0 <= i < |s.queue| ==> s.files[s.queue[i]].lastAccess <= now)
  }

  function With(s: Store, p: Policy): Store { s.(repPolicy := p) }

  lemma HeadIsLruVictim(s: Store, now: int)
    requires Inv(s) && InOrder(s, now) && s.queue != []
    ensures VictimIndex(With(s, Lru)) == 0
  {
    var times := Times(s.files, s.queue);
    assert forall j :: 0 <= j < |times| ==> times[0] <= times[j];
    if |times| > 1 { OldestStays(times, 1, 0, Abs(times[0] - times[1])); }
  }

  lemma EvictSame(s: Store, now: int)
    requires Inv(s) && InOrder(s, now) && s.queue != []
    ensures Evict(With(s, Lru)) == With(Evict(With(s, Fifo)), Lru)
    ensures VictimEntry(With(s, Lru)) == VictimEntry(With(s, Fifo))
  {
    HeadIsLruVictim(s, now);
  }

  lemma EvictInOrder(s: Store, now: int)
    requires Inv(s) && InOrder(s, now) && s.queue != [] && s.repPolicy == Fifo
    ensures Inv(Evict(s)) && InOrder(Evict(s), now)
  {
    FifoEvict(s);
    var s' := Evict(s);
    assert forall i :: 0 <= i < |s'.queue| ==> s'.queue[i] == s.queue[i + 1];
  }

  lemma {:induction false} EvictionSame(s: Store, now: int, need: nat)
    requires Inv(s) && InOrder(s, now)
    ensures var a, b := EvictUntilFits(With(s, Lru), need), EvictUntilFits(With(s, Fifo), need);
      && (a.Stuck? <==> b.Stuck?)
      && (a.Evicted? ==> a.victims == b.victims && a.store == With(b.store, Lru))
      && (b.Evicted? ==> InOrder(b.store, now))
    decreases |s.queue|
  {
    if !Fits(s, need) && s.queue != [] {
      EvictSame(s, now);
      EvictInOrder(With(s, Fifo), now);
      EvictionSame(Evict(With(s, Fifo)), now, need);
      assert With(Evict(With(s, Fifo)), Fifo) == Evict(With(s, Fifo));
    }
  }
}
