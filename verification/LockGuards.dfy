/** Which lock steps of LockProtocol a request takes on a given store, as the checks of src/storage.c decide. */
module LockGuards {
  import opened StorageSpec
  import opened Sequences
  import opened StorageInvariant
  import opened StoreMoments
  import P = LockProtocol

  /** A write or an append of nothing is refused before any lock is taken. */
  predicate TakesLocks(r: Request) {
    (r.Write? || r.Append?) ==> r.content != []
  }

  function OpOf(r: Request): P.Op {
    match r
    case Open(_, create, _) => if create then P.OpenCreate else P.OpenExisting
    case Read(_) => P.Read
    case ReadN(_) => P.ReadN
    case Write(_, _) => P.Write
    case Append(_, _) => P.Append
    case Lock(_) => P.LockFile
    case Unlock(_) => P.UnlockFile
    case Close(_) => P.Close
    case Remove(_) => P.Remove
  }

  // ----- when a request leaks -----

  /**
   * The requests that keep a lock: reading an empty file, writing or removing a file one has
   * not opened, appending to a file locked by another.
   */
  predicate LeaksOn(s: Store, e: Event) {
    match e.request
    case Read(name) => OpenTo(s, name, e.client) && MayUse(s.files[name], e.client) && s.files[name].size == 0
    case Write(name, content) => content != [] && name in s.files && !OpenTo(s, name, e.client)
    case Append(name, content) => content != [] && OpenTo(s, name, e.client) && !MayUse(s.files[name], e.client)
    case Remove(name) => name in s.files && !OpenTo(s, name, e.client)
    case _ => false
  }

  /** The checks of each operation on the file it has found, in the source's order. */
  function VerdictOf(s: Store, e: Event): P.Verdict
    requires !e.request.ReadN? && e.request.name in s.files
  {
    var f := s.files[e.request.name];
    var isOpen := e.client in f.whoOpened;
    match e.request
    case Open(_, _, lock) => if lock && !MayUse(f, e.client) then P.Denied else P.Granted
    case Read(_) =>
      if !isOpen then P.Denied
      else if MayUse(f, e.client) then (if f.size == 0 then P.Leak else P.Granted)
      else P.Denied
    case Write(_, _) =>
      if !isOpen then P.Leak
      else if f.size != 0 then P.Denied
      else if f.lockerClient != e.client then P.Denied
      else P.Granted
    case Append(_, _) =>
      if !isOpen then P.Denied else if MayUse(f, e.client) then P.Granted else P.Leak
    case Remove(_) =>
      if !isOpen then P.Leak else if f.lockerClient == e.client then P.Granted else P.Denied
    case Close(_) => if isOpen then P.Granted else P.Denied
    case _ => if !isOpen then P.Denied else if MayUse(f, e.client) then P.Granted else P.Denied
  }

  /** A request takes a leaking branch exactly when its guard holds on the store, and only an operation that can. */
  lemma VerdictLeaksIff(s: Store, e: Event)
    requires !e.request.ReadN? && e.request.name in s.files && TakesLocks(e.request)
    ensures VerdictOf(s, e).Leak? <==> LeaksOn(s, e)
    ensures VerdictOf(s, e).Leak? ==> P.CanLeak(OpOf(e.request))
  {
  }

  /**
   * The verdict is the outcome: a granted request does not fail, a denied one does, and a
   * leaking one answers EACCES, or, reading an empty file, success with no bytes.
   */
  lemma VerdictIsOutcome(s: Store, e: Event)
    requires !e.request.ReadN? && e.request.name in s.files && TakesLocks(e.request)
    requires e.request.Open? ==> !e.request.create
    ensures var r := Step(s, e);
      match VerdictOf(s, e)
      case Granted => !r.response.outcome.Failure?
      case Denied => r.response.outcome.Failure? && r.store == s
      case Leak => r.store == s && r.response == Response(if e.request.Read? then Success else Failure(EACCES), [], [], [])
  {
    hide EvictUntilFits;
  }

  // ----- acting on a verdict -----

  /** What an operation that was granted does, without looking again at what granted it. */
  function Acted(s: Store, e: Event): Result
    requires !e.request.ReadN? && e.request.name in s.files
  {
    var name := e.request.name;
    var f := s.files[name];
    match e.request
    case Open(_, _, lock) =>
      var who := if e.client in f.whoOpened then f.whoOpened else f.whoOpened + [e.client];
      Done(SetFile(s, name, f.(lockerClient := if lock then e.client else f.lockerClient, whoOpened := who, lastAccess := e.now)))
    case Read(_) => Result(SetFile(s, name, f.(lastAccess := e.now)), Response(Success, f.content, [], []))
    case Write(_, content) => FinishWrite(s, EvictUntilFits(s, |content|), e.now, name, content)
    case Append(_, content) => FinishAppend(s, EvictUntilFits(s, |content|), e.now, name, content)
    case Lock(_) => Done(SetFile(s, name, f.(lockerClient := e.client, lastAccess := e.now)))
    case Unlock(_) => Done(SetFile(s, name, f.(lockerClient := NOBODY)))
    case Close(_) => Done(SetFile(s, name, f.(whoOpened := ListRemove(f.whoOpened, e.client))))
    case Remove(_) => Done(TakeOut(s, name))
  }

  /** A request that finds its file; one that creates it does not. */
  predicate FindsFile(s: Store, e: Event) {
    !e.request.ReadN? && e.request.name in s.files && TakesLocks(e.request) && (e.request.Open? ==> !e.request.create)
  }

  /** As long as the verdict stands, acting on it is carrying out the request. */
  lemma ActedIsStep(s: Store, e: Event)
    requires FindsFile(s, e) && VerdictOf(s, e).Granted?
    ensures Acted(s, e) == Step(s, e)
  {
    hide EvictUntilFits;
  }

  /** The verdict looks at no more than this of the file. */
  predicate SameForVerdict(f: FileVal, g: FileVal, c: int) {
    (c in f.whoOpened <==> c in g.whoOpened) && f.lockerClient == g.lockerClient && f.size == g.size
  }

  lemma VerdictStays(s: Store, s': Store, e: Event)
    requires FindsFile(s, e) && FindsFile(s', e)
    requires SameForVerdict(s.files[e.request.name], s'.files[e.request.name], e.client)
    ensures VerdictOf(s', e) == VerdictOf(s, e)
  {
  }

  /**
   * Another client's read or close of the same file leaves a verdict as it is; its open, lock or
   * unlock leaves at least a close granted.
   */
  lemma OthersActed(s: Store, e: Event, other: Event)
    requires FindsFile(s, e) && FindsFile(s, other) && e.request.name == other.request.name && e.client != other.client
    requires Distinct(s.files[e.request.name].whoOpened) && P.LookupMode(OpOf(other.request)) == P.R
    requires VerdictOf(s, e).Granted? && (e.request.Close? || other.request.Read? || other.request.Close?)
    ensures FindsFile(Acted(s, other).store, e) && VerdictOf(Acted(s, other).store, e).Granted?
  {
    hide EvictUntilFits, FinishWrite, FinishAppend, TakeOut;
    ListRemoveDistinct(s.files[e.request.name].whoOpened, other.client);
    hide Distinct, ListRemove;
    if other.request.Close? || other.request.Read? { VerdictStays(s, Acted(s, other).store, e); }
  }

  // ----- what a request finds in the table -----

  function IdOf(ids: map<string, nat>, name: string): nat {
    if name in ids then ids[name] else 0
  }

  function IdsOf(ids: map<string, nat>, names: seq<string>): (r: seq<nat>)
    ensures |r| == |names| && forall i :: 0 <= i < |r| ==> r[i] == IdOf(ids, names[i])
  {
    seq(|names|, i requires 0 <= i < |names| => IdOf(ids, names[i]))
  }

  /** How a request goes on from its lookup; a file it creates gets the lock numbered fresh. */
  function BranchOf(s: Store, ids: map<string, nat>, e: Event, fresh_: nat): P.Branch {
    match e.request
    case Open(name, create, _) =>
      if create then (if name in s.files then P.Missing else P.Created(fresh_))
      else if name in s.files then P.Found(IdOf(ids, name)) else P.Missing
    case ReadN(n) => if Wants(s, n) <= 0 || s.queue == [] then P.Missing else P.Listed(IdsOf(ids, s.queue))
    case r => if r.name in s.files then P.Found(IdOf(ids, r.name)) else P.Missing
  }

  /** Every file of the store has a lock of its own in the table. */
  ghost predicate Linked(s: Store, ids: map<string, nat>, table: set<nat>) {
    && (forall n :: n in s.files ==> n in ids && ids[n] in table)
    && (forall m, n :: m in s.files && n in s.files && ids[m] == ids[n] ==> m == n)
  }

  lemma BranchPossible(s: Store, ids: map<string, nat>, e: Event, fresh_: nat, table: set<nat>)
    requires Inv(s) && Linked(s, ids, table)
    ensures P.Possible(OpOf(e.request), BranchOf(s, ids, e, fresh_)) && P.InTable(BranchOf(s, ids, e, fresh_), table)
  {
  }

  // ----- what a decision does to the store -----

  /** A request answered at its lookup at most creates a file. */
  lemma LookupAnswers(s: Store, ids: map<string, nat>, e: Event, fresh_: nat)
    requires !BranchOf(s, ids, e, fresh_).Found? && !BranchOf(s, ids, e, fresh_).Listed? && TakesLocks(e.request)
    ensures Step(s, e).response.outcome != Undefined
    ensures Step(s, e).store.files.Keys ==
      if BranchOf(s, ids, e, fresh_).Created? then s.files.Keys + {e.request.name} else s.files.Keys
    ensures forall n :: n in s.files ==> Step(s, e).store.files[n] == s.files[n]
    ensures BranchOf(s, ids, e, fresh_).Created? ==> e.request.name !in s.files
    ensures !BranchOf(s, ids, e, fresh_).Created? ==> Step(s, e).store == s
  {
    hide EvictUntilFits;
  }

  /**
   * Acting on a granted request leaves every other file as it is or takes it away. Only making room
   * takes others away, and only a removal its own.
   */
  lemma ActedOnOthers(s: Store, e: Event, name: string)
    requires Inv(s) && FindsFile(s, e) && Sized(e.request) && VerdictOf(s, e).Granted?
    requires Acted(s, e).response.outcome != Undefined && name in s.files
    ensures name in Acted(s, e).store.files && name != e.request.name ==> Acted(s, e).store.files[name] == s.files[name]
    ensures name !in Acted(s, e).store.files ==>
      if name == e.request.name then e.request.Remove? else e.request.Write? || e.request.Append?
    ensures e.request.Remove? && name == e.request.name ==> name !in Acted(s, e).store.files
    ensures Acted(s, e).store.files.Keys <= s.files.Keys
  {
    hide EvictUntilFits;
    if e.request.Write? || e.request.Append? { EvictionOutcome(s, |e.request.content|); }
  }

  /** A file of no bytes is never evicted. */
  lemma EmptyKept(s: Store, e: Event, name: string)
    requires Inv(s) && FindsFile(s, e) && Sized(e.request) && VerdictOf(s, e).Granted?
    requires Acted(s, e).response.outcome != Undefined && name in s.files && s.files[name].size == 0 && name != e.request.name
    ensures name in Acted(s, e).store.files && Acted(s, e).store.files[name] == s.files[name]
  {
    ActedOnOthers(s, e, name);
    hide EvictUntilFits, VerdictOf;
    if e.request.Write? || e.request.Append? {
      EvictionOutcome(s, |e.request.content|);
      var r := EvictUntilFits(s, |e.request.content|);
      EmptyFileStays(s, r.store, r.victims, name);
    }
  }

  /** Only writing, appending and removing change a file's size. */
  lemma OwnKept(s: Store, e: Event)
    requires FindsFile(s, e) && P.LookupMode(OpOf(e.request)) == P.R
    ensures e.request.name in Acted(s, e).store.files
    ensures Acted(s, e).store.files[e.request.name].size == s.files[e.request.name].size
  {
    hide EvictUntilFits;
  }
}
