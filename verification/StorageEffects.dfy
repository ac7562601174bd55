/** When each request succeeds, and what it may change, told without the code's order of checks. */
module StorageEffects {
  import opened StorageSpec
  import opened StorageInvariant
  import opened StorageEviction
  import opened StorageRuns
  import opened StorageListing

  // ----- success and failure -----

  /** Making room for need more bytes does not run out of victims. */
  ghost predicate CanFit(s: Store, need: nat) {
    Total(Unqueued(s)) + need <= s.maxMB
  }

  /** The requests the store grants. */
  ghost predicate Granted(s: Store, e: Event)
    requires Inv(s)
  {
    var c := e.client;
    match e.request
    case Open(name, create, lock) =>
      if create then name !in s.files else name in s.files && (lock ==> MayUse(s.files[name], c))
    case Read(name) => OpenTo(s, name, c) && MayUse(s.files[name], c)
    case Lock(name) => OpenTo(s, name, c) && MayUse(s.files[name], c)
    case Unlock(name) => OpenTo(s, name, c) && MayUse(s.files[name], c)
    case Close(name) => OpenTo(s, name, c)
    case Remove(name) => OpenTo(s, name, c) && s.files[name].lockerClient == c
    case ReadN(n) => s.queue != [] && (n > 0 || s.filesNumb > 0)
    case Write(name, content) =>
      && content != [] && OpenTo(s, name, c)
      && s.files[name].content == [] && s.files[name].lockerClient == c && CanFit(s, |content|)
    case Append(name, content) =>
      content != [] && OpenTo(s, name, c) && MayUse(s.files[name], c) && AppendFits(s, name, |content|)
  }

  /** A request succeeds exactly when it is granted; one that fails changes nothing at all. */
  lemma SucceedsIffGranted(s: Store, e: Event)
    requires Inv(s) && Sized(e.request)
    ensures Ok(s, e) <==> Granted(s, e)
    ensures Step(s, e).response.outcome.Failure? ==> Step(s, e) == Fail(s, Step(s, e).response.outcome.errno)
  {
    if e.request.Write? {
      WriteUndefinedIff(s, e.client, e.now, e.request.name, e.request.content);
      assert e.request.name in s.files ==> FileOk(s.files[e.request.name]);
    } else if e.request.Append? && AppendAdmitted(s, e.client, e.request.name, e.request.content) {
      AppendSucceedsIff(s, e.client, e.now, e.request.name, e.request.content);
    }
  }

  /** A request that names a file and carries what it needs answers ENOENT exactly when there is no such file. */
  lemma NoEntryIffMissing(s: Store, e: Event)
    requires !e.request.ReadN? && !(e.request.Open? && e.request.create)
    requires (e.request.Write? || e.request.Append?) ==> e.request.content != []
    ensures Step(s, e).response.outcome == Failure(ENOENT) <==> e.request.name !in s.files
  {
    hide EvictUntilFits;
  }

  // ----- files coming and going -----

  /** A file leaves the store exactly by a successful removal or as a victim. */
  lemma LeavesIff(s: Store, e: Event, name: string)
    requires Inv(s) && Fine(s, e) && name in s.files
    ensures name !in Step(s, e).store.files <==>
      (Ok(s, e) && e.request == Remove(name)) || name in Names(Step(s, e).response.evicted)
  {
    hide EvictUntilFits, Inv;
    if Ok(s, e) && (e.request.Write? || e.request.Append?) {
      EvictionOnFile(s, |e.request.content|, name);
    } else {
      assert Names([]) == {};
    }
  }

  // ----- access times -----

  /** Requests that refresh the access time of the file they name. */
  predicate Refreshes(s: Store, e: Event, name: string)
    requires name in s.files
  {
    && On(e, name)
    && (e.request.Open? || e.request.Write? || e.request.Append? || e.request.Lock?
        || (e.request.Read? && s.files[name].size > 0))
  }

  lemma LightAccess(s: Store, e: Event, name: string)
    requires name in s.files && name in Step(s, e).store.files
    requires !e.request.Write? && !e.request.Append? && !e.request.ReadN?
    ensures Step(s, e).store.files[name].lastAccess ==
      if Ok(s, e) && Refreshes(s, e, name) then e.now else s.files[name].lastAccess
  {
  }

  lemma EvictingAccess(s: Store, e: Event, name: string)
    requires Inv(s) && Fine(s, e) && name in s.files && name in Step(s, e).store.files
    requires e.request.Write? || e.request.Append?
    ensures Step(s, e).store.files[name].lastAccess ==
      if Ok(s, e) && Refreshes(s, e, name) then e.now else s.files[name].lastAccess
  {
    hide EvictUntilFits, Inv;
    if Ok(s, e) { EvictionOnFile(s, |e.request.content|, name); }
  }

  lemma ListingAccess(s: Store, e: Event, name: string)
    requires name in s.files && e.request.ReadN?
    ensures name in Step(s, e).store.files
    ensures Step(s, e).store.files[name].lastAccess ==
      if Listed(Step(s, e).response.listed, name) then e.now else s.files[name].lastAccess
  {
    if Ok(s, e) { ListedAre(s, e.client, e.now, e.request.n); }
  }

  /**
   * A file's access time moves to the present exactly when it is opened, written, appended to,
   * locked, read with something in it, or listed.
   */
  lemma AccessStep(s: Store, e: Event, name: string)
    requires Inv(s) && Fine(s, e) && name in s.files && name in Step(s, e).store.files
    ensures Step(s, e).store.files[name].lastAccess ==
      if (Ok(s, e) && Refreshes(s, e, name)) || (e.request.ReadN? && Listed(Step(s, e).response.listed, name))
      then e.now else s.files[name].lastAccess
  {
    if e.request.ReadN? { ListingAccess(s, e, name); }
    else if e.request.Write? || e.request.Append? { EvictingAccess(s, e, name); }
    else { LightAccess(s, e, name); }
  }
}
