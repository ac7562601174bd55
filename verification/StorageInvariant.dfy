/** What every operation keeps, and exactly when the counters stay true. */
module StorageInvariant {
  import opened Bytes
  import opened Sequences
  import opened StorageSpec

  // ----- byte totals -----

  ghost function Total(files: map<string, FileVal>): nat
    decreases files.Keys
  {
    if files == map[] then 0
    else
      var n :| n in files;
      files[n].size + Total(files - {n})
  }

  lemma {:induction false} TotalRemove(files: map<string, FileVal>, n: string)
    requires n in files
    ensures Total(files) == files[n].size + Total(files - {n})
    decreases files.Keys
  {
    var k :| k in files && Total(files) == files[k].size + Total(files - {k});
    if k != n {
      TotalRemove(files - {k}, n);
      TotalRemove(files - {n}, k);
      assert files - {k} - {n} == files - {n} - {k};
    }
  }

  lemma TotalUpdate(files: map<string, FileVal>, n: string, f: FileVal)
    ensures Total(files[n := f]) == f.size + Total(files - {n})
    ensures n !in files ==> files - {n} == files
  {
    TotalRemove(files[n := f], n);
    assert files[n := f] - {n} == files - {n};
    assert n !in files ==> files - {n} == files;
  }

  lemma {:induction false} TotalSameSizes(a: map<string, FileVal>, b: map<string, FileVal>)
    requires a.Keys == b.Keys && forall n :: n in a ==> a[n].size == b[n].size
    ensures Total(a) == Total(b)
    decreases a.Keys
  {
    if a == map[] {
      assert b == map[];
    } else {
      var n :| n in a;
      TotalRemove(a, n);
      TotalRemove(b, n);
      TotalSameSizes(a - {n}, b - {n});
    }
  }

  /** The files that are not in the queue: never written, or filled by append alone. */
  function Unqueued(s: Store): map<string, FileVal> {
    map n | n in s.files && n !in s.queue :: s.files[n]
  }

  ghost function QueueBytes(files: map<string, FileVal>, queue: seq<string>): nat
    requires forall i :: 0 <= i < |queue| ==> queue[i] in files
  {
    if queue == [] then 0 else files[queue[0]].size + QueueBytes(files, queue[1..])
  }

  lemma {:induction false} TotalSplit(files: map<string, FileVal>, queue: seq<string>)
    requires Distinct(queue) && forall i :: 0 <= i < |queue| ==> queue[i] in files
    ensures Total(files) == QueueBytes(files, queue) + Total(map n | n in files && n !in queue :: files[n])
  {
    if queue == [] {
      assert (map n | n in files && n !in queue :: files[n]) == files;
    } else {
      var q := queue[0];
      TotalRemove(files, q);
      assert queue == [q] + queue[1..];
      TotalSplit(files - {q}, queue[1..]);
      QueueBytesFrame(files, files - {q}, queue[1..]);
      assert (map n | n in files - {q} && n !in queue[1..] :: (files - {q})[n]) == (map n | n in files && n !in queue :: files[n]);
    }
  }

  lemma {:induction false} QueueBytesFrame(a: map<string, FileVal>, b: map<string, FileVal>, queue: seq<string>)
    requires forall i :: 0 <= i < |queue| ==> queue[i] in a && queue[i] in b && a[queue[i]].size == b[queue[i]].size
    ensures QueueBytes(a, queue) == QueueBytes(b, queue)
  {
    if queue != [] { QueueBytesFrame(a, b, queue[1..]); }
  }

  // ----- the invariant of every reachable store -----

  ghost predicate FileOk(f: FileVal) {
    f.size == |f.content| && Distinct(f.whoOpened) && f.lockerClient >= NOBODY
  }

  ghost predicate Inv(s: Store) {
    && 0 < s.maxFiles && 0 < s.maxMB < U63
    && Distinct(s.queue)
    && (forall i :: 0 <= i < |s.queue| ==> s.queue[i] in s.files && s.files[s.queue[i]].size > 0)
    && (forall n :: n in s.files ==> FileOk(s.files[n]))
    && s.sizeMB == Total(s.files) <= s.maxMB
    && s.filesNumb <= |s.queue| && s.filesNumb <= s.maxFiles
  }

  /** Removals so far of files the counter did not count. */
  function Drift(s: Store): int { |s.queue| - s.filesNumb }

  /** Table, queue and counters agree: a file is queued exactly when it has bytes, and the counters count the queue. */
  ghost predicate Accounting(s: Store) {
    && Inv(s)
    && s.filesNumb == |s.queue|
    && (forall n :: n in s.files ==> (s.files[n].size > 0 <==> n in s.queue))
  }

  lemma AccountingCounts(s: Store)
    requires Accounting(s)
    ensures s.sizeMB == QueueBytes(s.files, s.queue) <= s.maxMB && s.filesNumb == |s.queue| <= s.maxFiles
    ensures Total(Unqueued(s)) == 0
  {
    TotalSplit(s.files, s.queue);
    TotalZero(Unqueued(s));
  }

  lemma {:induction false} TotalZero(files: map<string, FileVal>)
    ensures Total(files) == 0 <==> forall n :: n in files ==> files[n].size == 0
    decreases files.Keys
  {
    if files != map[] {
      var n :| n in files;
      TotalRemove(files, n);
      TotalZero(files - {n});
      assert forall m :: m in files ==> m == n || (m in files - {n} && (files - {n})[m] == files[m]);
      assert forall m :: m in files - {n} ==> m in files && (files - {n})[m] == files[m];
    }
  }

  lemma InitAccounting(maxFiles: int, maxMB: nat, repPolicy: int)
    requires maxFiles > 0 && 0 < maxMB < U63
    ensures Accounting(Init(maxFiles, maxMB, repPolicy).value)
  {
  }

  // ----- eviction -----

  /** The queue and the table lose the same one file. */
  lemma EvictShape(s: Store)
    requires Inv(s) && s.queue != []
    ensures QueueKnown(s) && Distinct(Evict(s).queue)
    ensures Evict(s).queue == RemoveAt(s.queue, VictimIndex(s))
    ensures forall n :: n in Evict(s).queue <==> n in s.queue && n != VictimName(s)
    ensures Unqueued(Evict(s)) == Unqueued(s)
  {
    ListRemoveDistinct(s.queue, VictimName(s));
    RemoveAtIsListRemove(s.queue, VictimIndex(s));
  }

  lemma Sub64Exact(a: nat, b: nat)
    requires b <= a < U64
    ensures Sub64(a, b) == a - b
  {
  }

  /** Evicting takes one written file out of the table, the queue and both counters, without wrap-around. */
  lemma EvictKeeps(s: Store)
    requires Inv(s) && s.queue != []
    ensures QueueKnown(s) && Inv(Evict(s)) && Drift(Evict(s)) == Drift(s)
    ensures Evict(s).sizeMB == s.sizeMB - s.files[VictimName(s)].size
    ensures forall n :: n in Evict(s).queue <==> n in s.queue && n != VictimName(s)
    ensures Unqueued(Evict(s)) == Unqueued(s)
  {
    EvictShape(s);
    TotalRemove(s.files, VictimName(s));
    Sub64Exact(s.sizeMB, s.files[VictimName(s)].size);
    var s' := Evict(s);
    assert |s'.queue| == |s.queue| - 1;
    forall i | 0 <= i < |s'.queue| ensures s'.queue[i] in s'.files && s'.files[s'.queue[i]].size > 0 {
      assert s'.queue[i] in s'.queue;
      assert s'.queue[i] in s.queue;
    }
  }

  ghost function Names(es: seq<Entry>): set<string> {
    set i | 0 <= i < |es| :: es[i].name
  }

  /** victims are queued files of s with exact contents, out of the table and the queue in s'. */
  ghost predicate Gone(s: Store, s': Store, victims: seq<Entry>) {
    && s'.files == s.files - Names(victims)
    && (forall i :: 0 <= i < |victims| ==> ExactCopy(s, victims[i]))
    && (forall n :: n in s'.queue <==> n in s.queue && n !in Names(victims))
  }

  ghost predicate ExactCopy(s: Store, e: Entry) {
    e.name in s.queue && e.name in s.files && e.content == s.files[e.name].content
  }

  /** victims left s for s', and nothing else changed but the counters. */
  ghost predicate Left(s: Store, s': Store, victims: seq<Entry>) {
    && Gone(s, s', victims)
    && Inv(s') && Drift(s') == Drift(s) && Unqueued(s') == Unqueued(s)
    && s'.maxFiles == s.maxFiles && s'.maxMB == s.maxMB && s'.repPolicy == s.repPolicy
    && s'.victimNumb == s.victimNumb + |victims|
    && s'.maxFileStored == s.maxFileStored && s'.maxMBStored == s.maxMBStored
  }

  lemma NamesCons(e: Entry, es: seq<Entry>)
    ensures Names([e] + es) == {e.name} + Names(es)
  {
    var all := [e] + es;
    assert all[0] == e && forall i :: 0 <= i < |es| ==> all[i + 1] == es[i];
    forall n | n in {e.name} + Names(es) ensures n in Names(all) {
      if n != e.name {
        var i :| 0 <= i < |es| && es[i].name == n;
        assert all[i + 1].name == n;
      }
    }
  }

  lemma GoneCons(s: Store, mid: Store, s': Store, e: Entry, victims: seq<Entry>)
    requires ExactCopy(s, e) && mid.files == s.files - {e.name}
    requires forall n :: n in mid.queue <==> n in s.queue && n != e.name
    requires Gone(mid, s', victims)
    ensures Gone(s, s', [e] + victims)
  {
    NamesCons(e, victims);
    var all := [e] + victims;
    forall i | 0 <= i < |all| ensures ExactCopy(s, all[i]) {
      if i > 0 { assert ExactCopy(mid, victims[i - 1]); }
    }
  }

  lemma LeftCons(s: Store, s': Store, victims: seq<Entry>)
    requires Inv(s) && s.queue != [] && QueueKnown(s) && Left(Evict(s), s', victims)
    ensures Left(s, s', [VictimEntry(s)] + victims)
  {
    EvictKeeps(s);
    GoneCons(s, Evict(s), s', VictimEntry(s), victims);
  }

  /**
   * The eviction loop ends, and it runs into an empty queue exactly when the new content
   * and the bytes held outside the queue do not fit the capacity together.
   */
  lemma {:induction false} EvictionOutcome(s: Store, need: nat)
    requires Inv(s) && need < U63
    ensures EvictUntilFits(s, need) == Stuck <==> Total(Unqueued(s)) + need > s.maxMB
    ensures var r := EvictUntilFits(s, need);
      r.Evicted? ==> Left(s, r.store, r.victims) && Fits(r.store, need) && r.store.sizeMB + need <= s.maxMB
    decreases |s.queue|
  {
    TotalSplit(s.files, s.queue);
    assert Names([]) == {};
    assert s.files - {} == s.files;
    if !Fits(s, need) && s.queue != [] {
      EvictKeeps(s);
      EvictionOutcome(Evict(s), need);
      var r := EvictUntilFits(Evict(s), need);
      if r.Evicted? { LeftCons(s, r.store, r.victims); }
    }
  }

  // ----- every operation keeps the invariant -----

  /** Nothing the counters or the queue depend on changed. */
  ghost predicate SameAccounts(s: Store, s': Store) {
    && s'.files.Keys == s.files.Keys && (forall n :: n in s.files ==> s'.files[n].size == s.files[n].size)
    && s'.queue == s.queue && s'.filesNumb == s.filesNumb && s'.sizeMB == s.sizeMB
    && s'.maxFiles == s.maxFiles && s'.maxMB == s.maxMB
  }

  lemma SameAccountsKeeps(s: Store, s': Store)
    requires Inv(s) && SameAccounts(s, s') && forall n :: n in s'.files ==> FileOk(s'.files[n])
    ensures Inv(s') && (Accounting(s') <==> Accounting(s))
  {
    TotalSameSizes(s.files, s'.files);
  }

  lemma SetFileKeeps(s: Store, name: string, f: FileVal)
    requires Inv(s) && FileOk(f)
    requires if name in s.files then f.size == s.files[name].size else f.size == 0
    ensures Inv(SetFile(s, name, f)) && (Accounting(SetFile(s, name, f)) <==> Accounting(s))
  {
    if name in s.files {
      SameAccountsKeeps(s, SetFile(s, name, f));
    } else {
      TotalUpdate(s.files, name, f);
      var s' := SetFile(s, name, f);
      assert name !in s.queue;
      assert forall n :: n in s.files ==> n in s'.files && s'.files[n] == s.files[n];
    }
  }

  lemma TouchKeeps(s: Store, names: seq<string>, now: int)
    requires Inv(s)
    ensures var s' := s.(files := Touch(s.files, names, now)); Inv(s') && (Accounting(s') <==> Accounting(s))
  {
    SameAccountsKeeps(s, s.(files := Touch(s.files, names, now)));
  }

  lemma RemoveKeeps(s: Store, c: nat, name: string)
    requires Inv(s) && RemoveFile(s, c, name).response.outcome == Success
    ensures var s' := RemoveFile(s, c, name).store;
      Inv(s') && Drift(s') == Drift(s) + if name in s.queue then 0 else 1
    ensures s.sizeMB >= s.files[name].size
  {
    var s' := RemoveFile(s, c, name).store;
    TotalRemove(s.files, name);
    ListRemoveDistinct(s.queue, name);
    forall i | 0 <= i < |s'.queue| ensures s'.queue[i] in s'.files && s'.files[s'.queue[i]].size > 0 {
      assert s'.queue[i] in s'.queue;
      assert s'.queue[i] in s.queue;
    }
  }

  /** Putting need more bytes in a file that fits: the additions do not wrap and the bounds hold. */
  lemma GrowKeeps(s: Store, name: string, f: FileVal, need: nat)
    requires Inv(s) && Fits(s, need) && s.sizeMB + need <= s.maxMB && name in s.files && need > 0
    requires FileOk(f) && f.size == s.files[name].size + need
    ensures Inv(SetFile(s, name, f).(sizeMB := Add64(s.sizeMB, need)))
    ensures Add64(s.sizeMB, need) == s.sizeMB + need && Add64(s.files[name].size, need) == s.files[name].size + need
  {
    TotalRemove(s.files, name);
    TotalUpdate(s.files, name, f);
    var s' := SetFile(s, name, f).(sizeMB := Add64(s.sizeMB, need));
    assert forall n :: n in s.files && n != name ==> s'.files[n] == s.files[n];
  }

  lemma EnqueueKeeps(s: Store, name: string)
    requires Inv(s) && name in s.files && s.files[name].size > 0 && name !in s.queue && s.filesNumb + 1 <= s.maxFiles
    ensures var s' := UpdateStorage(s.(filesNumb := s.filesNumb + 1, queue := s.queue + [name])); Inv(s') && Drift(s') == Drift(s)
  {
    DistinctAppend(s.queue, name);
  }

  /** A file of no bytes survives every eviction. */
  lemma EmptyFileStays(s: Store, s': Store, victims: seq<Entry>, name: string)
    requires Left(s, s', victims) && name in s.files && name !in s.queue
    ensures name in s'.files && s'.files[name] == s.files[name] && name !in s'.queue
  {
    assert name in Unqueued(s);
    assert Unqueued(s')[name] == s.files[name];
  }

  lemma WriteKeeps(s: Store, c: nat, now: int, name: string, content: Bytes)
    requires Inv(s) && |content| < U63 && WriteFile(s, c, now, name, content).response.outcome == Success
    ensures var s' := WriteFile(s, c, now, name, content).store; Inv(s') && Drift(s') == Drift(s)
  {
    EvictionOutcome(s, |content|);
    var s1 := EvictUntilFits(s, |content|).store;
    EmptyFileStays(s, s1, EvictUntilFits(s, |content|).victims, name);
    var f := s1.files[name].(content := StrncpyImage(content), size := |content|, lastAccess := now);
    GrowKeeps(s1, name, f, |content|);
    EnqueueKeeps(SetFile(s1, name, f).(sizeMB := Add64(s1.sizeMB, |content|)), name);
  }

  lemma AppendKeeps(s: Store, c: nat, now: int, name: string, content: Bytes)
    requires Inv(s) && |content| < U63 && AppendFile(s, c, now, name, content).response.outcome == Success
    ensures var s' := AppendFile(s, c, now, name, content).store;
      Inv(s') && Drift(s') == Drift(s) && s'.files[name].size == s.files[name].size + |content|
  {
    EvictionOutcome(s, |content|);
    hide EvictUntilFits;
    var s1 := EvictUntilFits(s, |content|).store;
    assert s1.files[name] == s.files[name];
    hide Left;
    var f := s.files[name];
    var longer := f.(content := f.content + content, size := f.size + |content|, lastAccess := now);
    GrowKeeps(s1, name, longer, |content|);
  }

  // ----- one step of the store -----

  /** The two ways the code loses count: removing, or appending to, a file that was never written. */
  predicate Breaks(s: Store, e: Event) {
    && Step(s, e).response.outcome == Success
    && ((e.request.Remove? || e.request.Append?) && e.request.name !in s.queue)
  }

  lemma AccountingIff(s: Store)
    requires Inv(s)
    ensures Accounting(s) <==> Drift(s) == 0 && forall n :: n in Unqueued(s) ==> Unqueued(s)[n].size == 0
  {
    assert forall n :: n in s.queue ==> n in s.files && s.files[n].size > 0;
    assert forall n :: n in s.files && n !in s.queue ==> n in Unqueued(s);
  }

  lemma CloseOk(f: FileVal, c: int)
    requires FileOk(f)
    ensures FileOk(f.(whoOpened := ListRemove(f.whoOpened, c)))
  {
    ListRemoveDistinct(f.whoOpened, c);
  }

  lemma LightStep(s: Store, e: Event)
    requires Inv(s) && !e.request.Write? && !e.request.Append? && !e.request.Remove?
    ensures Inv(Step(s, e).store) && (Accounting(Step(s, e).store) <==> Accounting(s))
  {
    var s' := Step(s, e).store;
    if e.request.ReadN? {
      if s' != s {
        TouchKeeps(s, Take(Readable(s.files, s.queue, e.client), if e.request.n <= 0 then s.filesNumb else e.request.n), e.now);
      }
    } else {
      var name := e.request.name;
      if name in s.files { CloseOk(s.files[name], e.client); }
      if s' != s { SetFileKeeps(s, name, s'.files[name]); }
    }
  }

  lemma QueuedLeaves(s: Store, s': Store, name: string)
    requires name in s.files && name !in s.queue && s'.queue == s.queue + [name]
    requires name in s'.files && s'.files == s.files[name := s'.files[name]]
    ensures Unqueued(s') == Unqueued(s) - {name} && name in Unqueued(s)
  {
  }

  lemma WriteUnqueues(s: Store, c: nat, now: int, name: string, content: Bytes)
    requires Inv(s) && |content| < U63 && WriteFile(s, c, now, name, content).response.outcome == Success
    ensures var s' := WriteFile(s, c, now, name, content).store;
      name in Unqueued(s) && Unqueued(s)[name].size == 0 && Unqueued(s') == Unqueued(s) - {name}
  {
    EvictionOutcome(s, |content|);
    var r := EvictUntilFits(s, |content|);
    EmptyFileStays(s, r.store, r.victims, name);
    QueuedLeaves(r.store, WriteFile(s, c, now, name, content).store, name);
  }

  lemma WriteAccounts(s: Store, c: nat, now: int, name: string, content: Bytes)
    requires Inv(s) && |content| < U63 && WriteFile(s, c, now, name, content).response.outcome == Success
    ensures var s' := WriteFile(s, c, now, name, content).store; Inv(s') && (Accounting(s') <==> Accounting(s))
  {
    var s' := WriteFile(s, c, now, name, content).store;
    WriteKeeps(s, c, now, name, content);
    WriteUnqueues(s, c, now, name, content);
    AccountingIff(s);
    AccountingIff(s');
    ZeroWithout(Unqueued(s), name);
  }

  lemma ZeroWithout(u: map<string, FileVal>, name: string)
    requires name in u && u[name].size == 0
    ensures (forall n :: n in u ==> u[n].size == 0) <==> (forall n :: n in u - {name} ==> (u - {name})[n].size == 0)
  {
    if n :| n in u && u[n].size != 0 {
      assert n in u - {name};
    }
  }

  lemma QueuedChanges(s: Store, s': Store, name: string)
    requires name in s.queue && s'.queue == s.queue
    requires name in s'.files && s'.files == s.files[name := s'.files[name]]
    ensures Unqueued(s') == Unqueued(s)
  {
  }

  lemma AppendAccounts(s: Store, c: nat, now: int, name: string, content: Bytes)
    requires Inv(s) && |content| < U63 && AppendFile(s, c, now, name, content).response.outcome == Success
    ensures var s' := AppendFile(s, c, now, name, content).store; Inv(s') && (Accounting(s') <==> Accounting(s) && name in s.queue)
  {
    var s' := AppendFile(s, c, now, name, content).store;
    AppendKeeps(s, c, now, name, content);
    EvictionOutcome(s, |content|);
    var r := EvictUntilFits(s, |content|);
    assert s'.queue == r.store.queue;
    AccountingIff(s);
    AccountingIff(s');
    if name in s.queue {
      QueuedChanges(r.store, s', name);
    } else {
      assert name in Unqueued(s') && Unqueued(s')[name].size > 0;
    }
  }

  lemma RemoveAccounts(s: Store, c: nat, name: string)
    requires Inv(s) && RemoveFile(s, c, name).response.outcome == Success
    ensures var s' := RemoveFile(s, c, name).store; Inv(s') && (Accounting(s') <==> Accounting(s) && name in s.queue)
  {
    var s' := RemoveFile(s, c, name).store;
    RemoveKeeps(s, c, name);
    ListRemoveDistinct(s.queue, name);
    AccountingIff(s);
    AccountingIff(s');
    if name in s.queue { assert Unqueued(s') == Unqueued(s); }
  }

  /** Every defined step keeps the invariant; the accounts stay true, and once wrong stay wrong, exactly as Breaks says. */
  lemma StepInv(s: Store, e: Event)
    requires Inv(s) && Sized(e.request) && Step(s, e).response.outcome != Undefined
    ensures Inv(Step(s, e).store)
    ensures Accounting(Step(s, e).store) <==> Accounting(s) && !Breaks(s, e)
  {
    if Step(s, e).response.outcome.Failure? {
      assert Step(s, e).store == s;
    } else {
      match e.request
      case Write(name, content) => WriteAccounts(s, e.client, e.now, name, content);
      case Append(name, content) => AppendAccounts(s, e.client, e.now, name, content);
      case Remove(name) => RemoveAccounts(s, e.client, name);
      case Open(_, _, _) => LightStep(s, e);
      case Read(_) => LightStep(s, e);
      case ReadN(_) => LightStep(s, e);
      case Lock(_) => LightStep(s, e);
      case Unlock(_) => LightStep(s, e);
      case Close(_) => LightStep(s, e);
    }
  }

  // ----- whole runs -----

  predicate BreaksSomewhere(s: Store, run: seq<Event>)
    decreases |run|
  {
    run != [] && (Breaks(s, run[0]) || BreaksSomewhere(Step(s, run[0]).store, run[1..]))
  }

  lemma {:induction false} RunInv(s: Store, run: seq<Event>)
    requires Inv(s) && Defined(s, run)
    ensures Inv(After(s, run))
    ensures Accounting(After(s, run)) <==> Accounting(s) && !BreaksSomewhere(s, run)
    decreases |run|
  {
    if run != [] {
      StepInv(s, run[0]);
      RunInv(Step(s, run[0]).store, run[1..]);
    }
  }

  /**
   * From an empty store, after any run of requests: the bytes in the table are what sizeMB says
   * and within capacity, the file counter is within capacity, and table, queue and counters agree
   * exactly when no file was removed or appended to before it was written.
   */
  lemma StoreAccounts(maxFiles: int, maxMB: nat, repPolicy: int, run: seq<Event>)
    requires maxFiles > 0 && 0 < maxMB < U63
    requires Defined(Init(maxFiles, maxMB, repPolicy).value, run)
    ensures var s0 := Init(maxFiles, maxMB, repPolicy).value; var s := After(s0, run);
      && s.sizeMB == Total(s.files) <= s.maxMB && s.filesNumb <= s.maxFiles
      && Distinct(s.queue) && (forall n :: n in s.queue ==> n in s.files && s.files[n].size > 0)
      && (Accounting(s) <==> !BreaksSomewhere(s0, run))
      && (!BreaksSomewhere(s0, run) ==> s.sizeMB == QueueBytes(s.files, s.queue) && s.filesNumb == |s.queue|)
  {
    var s0 := Init(maxFiles, maxMB, repPolicy).value;
    InitAccounting(maxFiles, maxMB, repPolicy);
    RunInv(s0, run);
    if Accounting(After(s0, run)) { AccountingCounts(After(s0, run)); }
  }

  // ----- when a write or an append is undefined -----

  /** The checks a write makes before it looks for room. */
  predicate WriteAdmitted(s: Store, c: nat, name: string, content: Bytes) {
    content != [] && name in s.files && c in s.files[name].whoOpened && s.files[name].size == 0 && s.files[name].lockerClient == c
  }

  /** An admitted write runs getVictim on an empty queue exactly when it can never fit; with true accounts, when it exceeds the capacity. */
  lemma WriteUndefinedIff(s: Store, c: nat, now: int, name: string, content: Bytes)
    requires Inv(s) && |content| < U63
    ensures var r := WriteFile(s, c, now, name, content);
      && (r.response.outcome == Undefined <==>
           WriteAdmitted(s, c, name, content) && Total(Unqueued(s)) + |content| > s.maxMB)
      && (Accounting(s) ==> (r.response.outcome == Undefined <==> WriteAdmitted(s, c, name, content) && |content| > s.maxMB))
      && (r.response.outcome == Success <==>
           WriteAdmitted(s, c, name, content) && Total(Unqueued(s)) + |content| <= s.maxMB)
  {
    EvictionOutcome(s, |content|);
    var r := EvictUntilFits(s, |content|);
    if WriteAdmitted(s, c, name, content) && r.Evicted? { EmptyFileStays(s, r.store, r.victims, name); }
    if Accounting(s) { AccountingCounts(s); }
  }

  predicate AppendAdmitted(s: Store, c: nat, name: string, content: Bytes) {
    content != [] && name in s.files && c in s.files[name].whoOpened && MayUse(s.files[name], c)
  }

  /** An admitted append is undefined exactly when it can never fit or its own file is among the victims. */
  lemma AppendUndefinedIff(s: Store, c: nat, now: int, name: string, content: Bytes)
    requires Inv(s) && |content| < U63 && AppendAdmitted(s, c, name, content)
    ensures var r := EvictUntilFits(s, |content|);
      AppendFile(s, c, now, name, content).response.outcome == Undefined <==>
        Total(Unqueued(s)) + |content| > s.maxMB || (r.Evicted? && name in Names(r.victims))
  {
    EvictionOutcome(s, |content|);
  }
}
