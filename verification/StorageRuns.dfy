/** What clients can rely on over whole runs: read-back, opening before use, locks, and LRU as FIFO. */
module StorageRuns {
  import opened Bytes
  import opened Sequences
  import opened StorageSpec
  import opened StorageInvariant
  import opened StorageEviction

  predicate Ok(s: Store, e: Event) {
    Step(s, e).response.outcome == Success
  }

  predicate On(e: Event, name: string) {
    !e.request.ReadN? && e.request.name == name
  }

  /** A step that runs as the model assumes: no object too large, no undefined behaviour. */
  predicate Fine(s: Store, e: Event) {
    Sized(e.request) && Step(s, e).response.outcome != Undefined
  }

  // ----- one step seen from one file -----

  function NewContent(s: Store, e: Event, name: string): Bytes
    requires name in s.files
  {
    var old_ := s.files[name].content;
    if !(Ok(s, e) && On(e, name)) then old_
    else if e.request.Write? then StrncpyImage(e.request.content)
    else if e.request.Append? then old_ + e.request.content
    else old_
  }

  function NewLocker(s: Store, e: Event, name: string): int
    requires name in s.files
  {
    if !(Ok(s, e) && On(e, name)) then s.files[name].lockerClient
    else if e.request.Lock? || (e.request.Open? && e.request.lock) then e.client
    else if e.request.Unlock? then NOBODY
    else s.files[name].lockerClient
  }

  /** Whether c has the file open after the step, if was tells whether it had it open before. */
  predicate NewOpened(s: Store, e: Event, name: string, c: int, was: bool) {
    if !(Ok(s, e) && On(e, name) && e.client == c) then was
    else if e.request.Open? then true
    else if e.request.Close? then false
    else was
  }

  /** What making room does to one file: it stays as it is, or it is among the victims with its exact content. */
  lemma EvictionOnFile(s: Store, need: nat, name: string)
    requires Inv(s) && need < U63 && EvictUntilFits(s, need).Evicted?
    ensures var r := EvictUntilFits(s, need);
      && (name in r.store.files <==> name in s.files && name !in Names(r.victims))
      && (name in r.store.files ==> r.store.files[name] == s.files[name])
      && (forall i :: 0 <= i < |r.victims| && r.victims[i].name == name ==>
            name in s.files && r.victims[i].content == s.files[name].content)
  {
    EvictionOutcome(s, need);
    var r := EvictUntilFits(s, need);
    assert forall i :: 0 <= i < |r.victims| ==> ExactCopy(s, r.victims[i]);
  }

  /** The file after a step is the file before it as the request on it says. */
  ghost predicate Follows(s: Store, e: Event, name: string, c: int)
    requires name in s.files && name in Step(s, e).store.files
  {
    var f := Step(s, e).store.files[name];
    && f.content == NewContent(s, e, name)
    && f.lockerClient == NewLocker(s, e, name)
    && (c in f.whoOpened <==> NewOpened(s, e, name, c, c in s.files[name].whoOpened))
  }

  lemma WriteFollows(s: Store, e: Event, name: string, c: int)
    requires Inv(s) && Fine(s, e) && name in s.files && name in Step(s, e).store.files && e.request.Write?
    ensures Follows(s, e, name, c)
  {
    hide EvictUntilFits, Inv;
    var need := |e.request.content|;
    if Ok(s, e) {
      EvictionOnFile(s, need, name);
      assert Step(s, e).store.files[name] ==
        if e.request.name == name then s.files[name].(content := StrncpyImage(e.request.content), size := need, lastAccess := e.now)
        else s.files[name];
    }
  }

  lemma AppendFollows(s: Store, e: Event, name: string, c: int)
    requires Inv(s) && Fine(s, e) && name in s.files && name in Step(s, e).store.files && e.request.Append?
    ensures Follows(s, e, name, c)
  {
    hide EvictUntilFits, Inv;
    if Ok(s, e) { EvictionOnFile(s, |e.request.content|, name); }
  }

  lemma CloseFollows(s: Store, e: Event, name: string, c: int)
    requires Inv(s) && name in s.files && name in Step(s, e).store.files && e.request.Close?
    ensures Follows(s, e, name, c)
  {
    ListRemoveDistinct(s.files[name].whoOpened, e.client);
  }

  lemma LightFollows(s: Store, e: Event, name: string, c: int)
    requires name in s.files && name in Step(s, e).store.files
    requires !e.request.Write? && !e.request.Append? && !e.request.Close?
    ensures Follows(s, e, name, c)
  {
  }

  /** A file that survives a step changes only as the request on it says. */
  lemma FileStep(s: Store, e: Event, name: string, c: int)
    requires Inv(s) && Fine(s, e) && name in s.files && name in Step(s, e).store.files
    ensures Follows(s, e, name, c)
  {
    if e.request.Write? { WriteFollows(s, e, name, c); }
    else if e.request.Append? { AppendFollows(s, e, name, c); }
    else if e.request.Close? { CloseFollows(s, e, name, c); }
    else { LightFollows(s, e, name, c); }
  }

  /** A new file is empty, open to its creator alone, and locked by it if so asked. */
  lemma FileCreated(s: Store, e: Event, name: string)
    requires Inv(s) && Fine(s, e) && name !in s.files && name in Step(s, e).store.files
    ensures e.request.Open? && e.request.create && e.request.name == name && Ok(s, e)
    ensures Step(s, e).store.files[name] == FileVal(0, [], if e.request.lock then e.client else NOBODY, [e.client], e.now)
  {
    hide EvictUntilFits, Inv;
    if Ok(s, e) && (e.request.Write? || e.request.Append?) { EvictionOnFile(s, |e.request.content|, name); }
  }

  /** Some step of the run removes or evicts the file. */
  predicate Dropped(s: Store, run: seq<Event>, name: string)
    decreases |run|
  {
    run != [] && (name !in Step(s, run[0]).store.files || Dropped(Step(s, run[0]).store, run[1..], name))
  }

  // ----- read-back -----

  /** What a successful append adds to a file in one step. */
  function Added(s: Store, e: Event, name: string): Bytes {
    if Ok(s, e) && e.request.Append? && e.request.name == name then e.request.content else []
  }

  /** The bytes successfully appended to a file along a run, in order. */
  function Appended(s: Store, run: seq<Event>, name: string): Bytes
    decreases |run|
  {
    if run == [] then [] else Added(s, run[0], name) + Appended(Step(s, run[0]).store, run[1..], name)
  }

  lemma ContentStep(s: Store, e: Event, name: string)
    requires Inv(s) && Fine(s, e) && name in s.files && s.files[name].size > 0 && name in Step(s, e).store.files
    ensures Inv(Step(s, e).store) && Step(s, e).store.files[name].size > 0
    ensures Step(s, e).store.files[name].content == s.files[name].content + Added(s, e, name)
  {
    StepInv(s, e);
    FileStep(s, e, name, 0);
    assert FileOk(s.files[name]) && FileOk(Step(s, e).store.files[name]);
    assert s.files[name].content + [] == s.files[name].content;
  }

  lemma {:induction false} ContentGrows(s: Store, run: seq<Event>, name: string)
    requires Inv(s) && Defined(s, run) && name in s.files && s.files[name].size > 0 && !Dropped(s, run, name)
    ensures Inv(After(s, run)) && name in After(s, run).files
    ensures After(s, run).files[name].content == s.files[name].content + Appended(s, run, name)
    decreases |run|
  {
    if run == [] {
      assert s.files[name].content + [] == s.files[name].content;
    } else {
      ContentStep(s, run[0], name);
      ContentGrows(Step(s, run[0]).store, run[1..], name);
      Associate(s.files[name].content, Added(s, run[0], name), Appended(Step(s, run[0]).store, run[1..], name));
    }
  }

  lemma Associate(a: Bytes, b: Bytes, c: Bytes)
    ensures (a + b) + c == a + (b + c)
  {
  }

  /** An answer never shows other bytes for a file than the store holds. */
  ghost predicate Shows(r: Response, name: string, content: Bytes) {
    && (forall i :: 0 <= i < |r.listed| && r.listed[i].name == name ==> r.listed[i].content == content)
    && (forall i :: 0 <= i < |r.evicted| && r.evicted[i].name == name ==> r.evicted[i].content == content)
  }

  lemma EvictingShows(s: Store, e: Event, name: string)
    requires Inv(s) && Fine(s, e) && name in s.files && (e.request.Write? || e.request.Append?)
    ensures Shows(Step(s, e).response, name, s.files[name].content)
  {
    hide EvictUntilFits, Inv;
    if Ok(s, e) { EvictionOnFile(s, |e.request.content|, name); }
  }

  lemma ListingShows(s: Store, e: Event, name: string)
    requires name in s.files && e.request.ReadN?
    ensures Shows(Step(s, e).response, name, s.files[name].content)
  {
    ReadableKnown(s.files, s.queue, e.client);
  }

  lemma AnswersShowContent(s: Store, e: Event, name: string)
    requires Inv(s) && Fine(s, e) && name in s.files
    ensures Shows(Step(s, e).response, name, s.files[name].content)
    ensures e.request == Read(name) && Ok(s, e) ==> Step(s, e).response.data == s.files[name].content
  {
    if e.request.Write? || e.request.Append? { EvictingShows(s, e, name); }
    else if e.request.ReadN? { ListingShows(s, e, name); }
    else if e.request == Read(name) { assert FileOk(s.files[name]); }
  }

  /**
   * Read-back: after a successful write, whatever a later read, readN or eviction shows of the
   * file, as long as it has not been removed or evicted in between, is what strncpy makes of the
   * bytes written followed by all later appends in order; the bytes themselves if they hold no zero.
   */
  lemma ReadBack(s: Store, write: Event, run: seq<Event>, last: Event)
    requires Inv(s) && Fine(s, write) && write.request.Write? && Ok(s, write)
    requires var s1 := Step(s, write).store;
      Defined(s1, run) && !Dropped(s1, run, write.request.name) && Fine(After(s1, run), last)
    ensures var s1, name := Step(s, write).store, write.request.name;
      var content := StrncpyImage(write.request.content) + Appended(s1, run, name);
      && (ZeroFree(write.request.content) ==> content == write.request.content + Appended(s1, run, name))
      && Shows(Step(After(s1, run), last).response, name, content)
      && (last.request == Read(name) && Ok(After(s1, run), last) ==> Step(After(s1, run), last).response.data == content)
  {
    hide EvictUntilFits, Inv;
    var s1, name := Step(s, write).store, write.request.name;
    StepInv(s, write);
    assert s1.files[name].content == StrncpyImage(write.request.content) && s1.files[name].size > 0;
    ContentGrows(s1, run, name);
    AnswersShowContent(After(s1, run), last, name);
    if ZeroFree(write.request.content) { StrncpyZeroFree(write.request.content); }
  }

  // ----- opening before use -----

  /** Whether the latest successful open or close by c along the run was an open. */
  predicate LatestIsOpen(s: Store, run: seq<Event>, name: string, c: int, was: bool)
    decreases |run|
  {
    if run == [] then was
    else LatestIsOpen(Step(s, run[0]).store, run[1..], name, c, NewOpened(s, run[0], name, c, was))
  }

  lemma {:induction false} OpensTracked(s: Store, run: seq<Event>, name: string, c: int)
    requires Inv(s) && Defined(s, run) && name in s.files && !Dropped(s, run, name)
    ensures Inv(After(s, run)) && name in After(s, run).files
    ensures c in After(s, run).files[name].whoOpened <==> LatestIsOpen(s, run, name, c, c in s.files[name].whoOpened)
    decreases |run|
  {
    if run != [] {
      StepInv(s, run[0]);
      FileStep(s, run[0], name, c);
      OpensTracked(Step(s, run[0]).store, run[1..], name, c);
    }
  }

  predicate Uses(e: Event, name: string) {
    On(e, name) && !e.request.Open?
  }

  /**
   * Over every run of a file's life a client's read, write, append, lock, unlock, close or remove
   * succeeds only if its latest successful open or close of the file was an open; creating it opens it.
   */
  lemma UseOnlyWhenOpen(s: Store, create: Event, name: string, run: seq<Event>, e: Event)
    requires Inv(s) && Fine(s, create) && name !in s.files && name in Step(s, create).store.files
    requires var s1 := Step(s, create).store; Defined(s1, run) && !Dropped(s1, run, name) && Fine(After(s1, run), e)
    ensures var s1 := Step(s, create).store;
      Uses(e, name) && Ok(After(s1, run), e) ==> LatestIsOpen(s1, run, name, e.client, e.client == create.client)
  {
    var s1 := Step(s, create).store;
    FileCreated(s, create, name);
    StepInv(s, create);
    OpensTracked(s1, run, name, e.client);
  }

  // ----- locks -----

  /** What others can do to a file that c has locked: nothing that reads, changes, unlocks or removes it. */
  ghost predicate Respected(s: Store, e: Event, name: string, c: nat)
    requires name in s.files
  {
    var r := Step(s, e);
    && (On(e, name) && r.response.outcome == Success ==> e.request.Close? || (e.request.Open? && !e.request.lock))
    && (forall i :: 0 <= i < |r.response.listed| && e.request.ReadN? ==> r.response.listed[i].name != name)
    && (name in r.store.files ==>
          r.store.files[name].content == s.files[name].content && r.store.files[name].lockerClient == c)
  }

  lemma OthersRespect(s: Store, e: Event, name: string, c: nat)
    requires Inv(s) && Fine(s, e) && name in s.files && s.files[name].lockerClient == c && e.client != c
    ensures Respected(s, e, name, c)
  {
    if name in Step(s, e).store.files { FileStep(s, e, name, c); }
    if e.request.ReadN? { ReadableKnown(s.files, s.queue, e.client); }
  }

  ghost predicate RespectedThroughout(s: Store, run: seq<Event>, name: string, c: nat)
    decreases |run|
  {
    run == [] || (
      && name in s.files
      && (run[0].client != c ==> Respected(s, run[0], name, c))
      && RespectedThroughout(Step(s, run[0]).store, run[1..], name, c))
  }

  predicate Unlocks(s: Store, run: seq<Event>, name: string, c: nat)
    decreases |run|
  {
    run != [] && ((run[0].client == c && run[0].request == Unlock(name)) || Unlocks(Step(s, run[0]).store, run[1..], name, c))
  }

  /**
   * Once c has locked a file it keeps the lock until it unlocks or the file is removed or evicted,
   * and all that time every other client is kept from reading, listing, changing, locking,
   * unlocking and removing it.
   */
  lemma {:induction false} LockHolds(s: Store, run: seq<Event>, name: string, c: nat)
    requires Inv(s) && Defined(s, run) && name in s.files && s.files[name].lockerClient == c
    requires !Dropped(s, run, name) && !Unlocks(s, run, name, c)
    ensures name in After(s, run).files && After(s, run).files[name].lockerClient == c
    ensures RespectedThroughout(s, run, name, c)
    decreases |run|
  {
    if run != [] {
      var e := run[0];
      StepInv(s, e);
      FileStep(s, e, name, c);
      if e.client != c { OthersRespect(s, e, name, c); }
      LockHolds(Step(s, e).store, run[1..], name, c);
    }
  }

  /** Only the owner can remove a locked file: if another client's step drops it, it was evicted. */
  lemma LockedFileLeavesByOwnerOrEviction(s: Store, e: Event, name: string, c: nat)
    requires Inv(s) && Fine(s, e) && name in s.files && s.files[name].lockerClient == c
    ensures name !in Step(s, e).store.files ==>
      (e.client == c && e.request == Remove(name)) || name in Names(Step(s, e).response.evicted)
  {
    hide EvictUntilFits, Inv;
    if Ok(s, e) && (e.request.Write? || e.request.Append?) { EvictionOnFile(s, |e.request.content|, name); }
  }

  // ----- LRU behaves as FIFO while written files are left alone -----

  /** The step refreshes the access time of a written file: it opens, reads, locks, appends to or lists one. */
  predicate Touches(s: Store, e: Event) {
    && Ok(s, e)
    && (if e.request.ReadN? then Step(s, e).response.listed != []
        else (e.request.Open? || e.request.Read? || e.request.Lock? || e.request.Append?) && e.request.name in s.queue)
  }

  predicate TouchesSomewhere(s: Store, run: seq<Event>)
    decreases |run|
  {
    run != [] && (Touches(s, run[0]) || TouchesSomewhere(Step(s, run[0]).store, run[1..]))
  }

  lemma {:induction false} EvictionKeepsPolicy(s: Store, need: nat)
    ensures EvictUntilFits(s, need).Evicted? ==> EvictUntilFits(s, need).store.repPolicy == s.repPolicy
    decreases |s.queue|
  {
    if !Fits(s, need) && s.queue != [] && QueueKnown(s) { EvictionKeepsPolicy(Evict(s), need); }
  }

  lemma QueuedInOrder(s: Store, s': Store, name: string, now: int)
    requires InOrder(s, now) && name !in s.queue && s'.queue == s.queue + [name]
    requires name in s'.files && s'.files == s.files[name := s'.files[name]] && s'.files[name].lastAccess == now
    ensures InOrder(s', now)
  {
  }

  lemma WriteSame(s: Store, c: nat, now: int, name: string, content: Bytes)
    requires Inv(s) && InOrder(s, now) && s.repPolicy == Fifo
    ensures var a, b := WriteFile(With(s, Lru), c, now, name, content), WriteFile(s, c, now, name, content);
      && a.response == b.response && b.store.repPolicy == Fifo
      && (b.response.outcome != Undefined ==> a.store == With(b.store, Lru))
  {
    hide EvictUntilFits, Inv;
    assert With(s, Fifo) == s;
    EvictionSame(s, now, |content|);
    EvictionKeepsPolicy(s, |content|);
    FinishSame(s, EvictUntilFits(With(s, Lru), |content|), EvictUntilFits(s, |content|), now, name, content);
  }

  lemma FinishSame(s: Store, a: Eviction, b: Eviction, now: int, name: string, content: Bytes)
    requires a.Stuck? <==> b.Stuck?
    requires b.Evicted? ==> a.victims == b.victims && a.store == With(b.store, Lru) && b.store.repPolicy == Fifo
    ensures var x, y := FinishWrite(With(s, Lru), a, now, name, content), FinishWrite(s, b, now, name, content);
      && x.response == y.response
      && (y.response.outcome == Success ==> x.store == With(y.store, Lru) && y.store.repPolicy == Fifo)
      && (y.response.outcome != Success ==> x.store == With(s, Lru) && y.store == s)
  {
  }

  lemma WriteInOrder(s: Store, c: nat, now: int, name: string, content: Bytes)
    requires Inv(s) && InOrder(s, now) && |content| < U63 && s.repPolicy == Fifo
    requires WriteFile(s, c, now, name, content).response.outcome == Success
    ensures InOrder(WriteFile(s, c, now, name, content).store, now)
  {
    hide EvictUntilFits;
    assert With(s, Fifo) == s;
    EvictionSame(s, now, |content|);
    EvictionOutcome(s, |content|);
    var r := EvictUntilFits(s, |content|);
    EmptyFileStays(s, r.store, r.victims, name);
    QueuedInOrder(r.store, WriteFile(s, c, now, name, content).store, name, now);
  }

  lemma AppendSame(s: Store, c: nat, now: int, name: string, content: Bytes)
    requires Inv(s) && InOrder(s, now) && s.repPolicy == Fifo
    ensures var a, b := AppendFile(With(s, Lru), c, now, name, content), AppendFile(s, c, now, name, content);
      && a.response == b.response && b.store.repPolicy == Fifo
      && (b.response.outcome != Undefined ==> a.store == With(b.store, Lru))
  {
    hide EvictUntilFits, Inv;
    assert With(s, Fifo) == s;
    EvictionSame(s, now, |content|);
    EvictionKeepsPolicy(s, |content|);
    FinishAppendSame(s, EvictUntilFits(With(s, Lru), |content|), EvictUntilFits(s, |content|), now, name, content);
  }

  lemma FinishAppendSame(s: Store, a: Eviction, b: Eviction, now: int, name: string, content: Bytes)
    requires a.Stuck? <==> b.Stuck?
    requires b.Evicted? ==> a.victims == b.victims && a.store == With(b.store, Lru) && b.store.repPolicy == Fifo
    ensures var x, y := FinishAppend(With(s, Lru), a, now, name, content), FinishAppend(s, b, now, name, content);
      && x.response == y.response
      && (y.response.outcome == Success ==> x.store == With(y.store, Lru) && y.store.repPolicy == Fifo)
      && (y.response.outcome != Success ==> x.store == With(s, Lru) && y.store == s)
  {
  }

  /** Appending to a file outside the queue may evict, but leaves the queued files' times alone. */
  lemma AppendInOrder(s: Store, c: nat, now: int, name: string, content: Bytes)
    requires Inv(s) && InOrder(s, now) && |content| < U63 && s.repPolicy == Fifo && name !in s.queue
    requires AppendFile(s, c, now, name, content).response.outcome == Success
    ensures InOrder(AppendFile(s, c, now, name, content).store, now)
  {
    hide EvictUntilFits;
    assert With(s, Fifo) == s;
    EvictionSame(s, now, |content|);
    EvictionOutcome(s, |content|);
    var r := EvictUntilFits(s, |content|);
    assert name !in r.store.queue;
    SameTimesInOrder(r.store, AppendFile(s, c, now, name, content).store, now);
  }

  lemma OtherSame(s: Store, e: Event)
    requires s.repPolicy == Fifo && !e.request.Write? && !e.request.Append?
    ensures var a, b := Step(With(s, Lru), e), Step(s, e);
      a.response == b.response && a.store == With(b.store, Lru) && b.store.repPolicy == Fifo
  {
    hide EvictUntilFits, ListRemove, Readable, Touch, Take;
    if e.request.ReadN? { ListingSame(s, e.client, e.now, e.request.n); }
  }

  lemma ListingSame(s: Store, c: nat, now: int, n: int)
    requires s.repPolicy == Fifo
    ensures var a, b := ReadNFiles(With(s, Lru), c, now, n), ReadNFiles(s, c, now, n);
      a.response == b.response && a.store == With(b.store, Lru) && b.store.repPolicy == Fifo
  {
  }

  lemma NothingListed(s: Store, e: Event)
    requires e.request.ReadN? && !Touches(s, e)
    ensures Step(s, e).store == s
  {
    ReadableKnown(s.files, s.queue, e.client);
    if Ok(s, e) { assert Touch(s.files, [], e.now) == s.files; }
  }

  lemma OtherInOrder(s: Store, e: Event)
    requires Inv(s) && InOrder(s, e.now) && !Touches(s, e) && !e.request.Write? && !e.request.Append?
    ensures InOrder(Step(s, e).store, e.now)
  {
    var s' := Step(s, e).store;
    if e.request.ReadN? {
      NothingListed(s, e);
    } else if e.request.Remove? {
      ListRemoveDistinct(s.queue, e.request.name);
      if s' != s { RemovalInOrder(s, s', e.request.name, e.now); }
    } else if s' != s {
      SameTimesInOrder(s, s', e.now);
    }
  }

  lemma SameTimesInOrder(s: Store, s': Store, now: int)
    requires InOrder(s, now) && s'.queue == s.queue
    requires forall n :: n in s.queue ==> n in s'.files && s'.files[n].lastAccess == s.files[n].lastAccess
    ensures InOrder(s', now)
  {
  }

  lemma RemovedAt(queue: seq<string>, k: nat, i: nat)
    requires k < |queue| && i < |queue| - 1
    ensures RemoveAt(queue, k)[i] == queue[Shift(i, k)] && RemoveAt(queue, k)[i] in RemoveAt(queue, k)
  {
  }

  lemma RemovalInOrder(s: Store, s': Store, name: string, now: int)
    requires InOrder(s, now) && s'.files == s.files - {name}
    requires s'.queue == RemoveFirst(s.queue, name) && name !in s'.queue
    ensures InOrder(s', now)
  {
    if name in s.queue {
      var k, q := FirstIndex(s.queue, name), s'.queue;
      hide RemoveAt, RemoveFirst, FirstIndex;
      assert q == RemoveAt(s.queue, k) by { RemoveFirstIs(s.queue, name); }
      forall i | 0 <= i < |q| ensures q[i] in s'.files && s'.files[q[i]].lastAccess == s.files[s.queue[Shift(i, k)]].lastAccess {
        RemovedAt(s.queue, k, i);
      }
    }
  }

  lemma RemoveFirstIs(queue: seq<string>, name: string)
    requires name in queue
    ensures RemoveFirst(queue, name) == RemoveAt(queue, FirstIndex(queue, name))
  {
  }

  function Shift(i: nat, k: nat): nat { if i < k then i else i + 1 }

  /** The clock does not go back along the run. */
  ghost predicate ClockRuns(run: seq<Event>, from: int) {
    && (forall i :: 0 <= i < |run| ==> run[i].now >= from)
    && (forall i, j :: 0 <= i < j < |run| ==> run[i].now <= run[j].now)
  }

  lemma LaterInOrder(s: Store, now: int, later: int)
    requires InOrder(s, now) && now <= later
    ensures InOrder(s, later)
  {
  }

  function Responses(s: Store, run: seq<Event>): seq<Response>
    decreases |run|
  {
    if run == [] then [] else [Step(s, run[0]).response] + Responses(Step(s, run[0]).store, run[1..])
  }

  lemma StepSameInOrder(s: Store, e: Event)
    requires Inv(s) && InOrder(s, e.now) && s.repPolicy == Fifo && !Touches(s, e) && Fine(s, e)
    ensures var a, b := Step(With(s, Lru), e), Step(s, e);
      a.response == b.response && a.store == With(b.store, Lru) && b.store.repPolicy == Fifo
    ensures Inv(Step(s, e).store) && InOrder(Step(s, e).store, e.now)
  {
    StepInv(s, e);
    if e.request.Write? {
      WriteSame(s, e.client, e.now, e.request.name, e.request.content);
      if Ok(s, e) { WriteInOrder(s, e.client, e.now, e.request.name, e.request.content); }
    } else if e.request.Append? {
      AppendSame(s, e.client, e.now, e.request.name, e.request.content);
      if Ok(s, e) { AppendInOrder(s, e.client, e.now, e.request.name, e.request.content); }
    } else {
      OtherSame(s, e);
      OtherInOrder(s, e);
    }
  }

  /**
   * With a clock that does not go back, and as long as no request opens, reads, locks, appends to
   * or lists a file already written, LRU gives every answer FIFO gives and keeps the same files.
   */
  lemma {:induction false} LruRunsAsFifo(s: Store, now: int, run: seq<Event>)
    requires Inv(s) && InOrder(s, now) && s.repPolicy == Fifo && ClockRuns(run, now)
    requires Defined(s, run) && !TouchesSomewhere(s, run)
    ensures Responses(With(s, Lru), run) == Responses(s, run)
    ensures After(With(s, Lru), run) == With(After(s, run), Lru)
    decreases |run|
  {
    if run != [] {
      var e, rest := run[0], run[1..];
      LaterInOrder(s, now, e.now);
      StepSameInOrder(s, e);
      assert forall i :: 0 <= i < |rest| ==> rest[i] == run[i + 1];
      LruRunsAsFifo(Step(s, e).store, e.now, rest);
    }
  }

  // ----- the statistics printed at exit -----

  /** The largest byte count the store had along the run. */
  function PeakBytes(s: Store, run: seq<Event>): int
    decreases |run|
  {
    if run == [] then s.sizeMB else Max(s.sizeMB, PeakBytes(Step(s, run[0]).store, run[1..]))
  }

  function PeakFiles(s: Store, run: seq<Event>): int
    decreases |run|
  {
    if run == [] then s.filesNumb else Max(s.filesNumb, PeakFiles(Step(s, run[0]).store, run[1..]))
  }

  function Evictions(s: Store, run: seq<Event>): nat
    decreases |run|
  {
    if run == [] then 0 else |Step(s, run[0]).response.evicted| + Evictions(Step(s, run[0]).store, run[1..])
  }

  /** The maxima follow the counters, and the victims are counted. */
  ghost predicate Recorded(s: Store, s': Store, victims: nat) {
    && s'.maxMBStored == Max(s.maxMBStored, s'.sizeMB) && s'.maxFileStored == Max(s.maxFileStored, s'.filesNumb)
    && s'.victimNumb == s.victimNumb + victims
  }

  lemma EvictingRecorded(s: Store, e: Event)
    requires Inv(s) && Fine(s, e) && Ok(s, e) && s.maxMBStored >= s.sizeMB && s.maxFileStored >= s.filesNumb
    requires e.request.Write? || e.request.Append?
    ensures Recorded(s, Step(s, e).store, |Step(s, e).response.evicted|)
  {
    hide EvictUntilFits, Inv, Gone;
    EvictionOutcome(s, |e.request.content|);
    EvictionShrinks(s, |e.request.content|);
  }

  lemma StatisticsStep(s: Store, e: Event)
    requires Inv(s) && Fine(s, e) && s.maxMBStored >= s.sizeMB && s.maxFileStored >= s.filesNumb
    ensures Recorded(s, Step(s, e).store, |Step(s, e).response.evicted|)
  {
    hide EvictUntilFits, Inv;
    if Ok(s, e) && (e.request.Write? || e.request.Append?) {
      EvictingRecorded(s, e);
    } else if Ok(s, e) && e.request.Remove? {
      RemovalShrinks(s, e.client, e.request.name);
    }
  }

  lemma RemovalShrinks(s: Store, c: nat, name: string)
    requires Inv(s) && RemoveFile(s, c, name).response.outcome == Success
    ensures RemoveFile(s, c, name).store.sizeMB <= s.sizeMB
  {
    RemoveKeeps(s, c, name);
    Sub64Exact(s.sizeMB, s.files[name].size);
  }

  lemma {:induction false} EvictionShrinks(s: Store, need: nat)
    requires Inv(s) && EvictUntilFits(s, need).Evicted?
    ensures var s' := EvictUntilFits(s, need).store; s'.filesNumb <= s.filesNumb && s'.sizeMB <= s.sizeMB
    decreases |s.queue|
  {
    if !Fits(s, need) {
      EvictKeeps(s);
      EvictionShrinks(Evict(s), need);
    }
  }

  /** The recorded maxima are the peaks of the whole run, and the victim count is every eviction there was. */
  lemma {:induction false} StatisticsExact(s: Store, run: seq<Event>)
    requires Inv(s) && Defined(s, run) && s.maxMBStored >= s.sizeMB && s.maxFileStored >= s.filesNumb
    ensures After(s, run).maxMBStored == Max(s.maxMBStored, PeakBytes(s, run))
    ensures After(s, run).maxFileStored == Max(s.maxFileStored, PeakFiles(s, run))
    ensures After(s, run).victimNumb == s.victimNumb + Evictions(s, run)
    decreases |run|
  {
    if run != [] {
      StepInv(s, run[0]);
      StatisticsStep(s, run[0]);
      StatisticsExact(Step(s, run[0]).store, run[1..]);
    }
  }
}
