/**
 * What each operation of src/storage.c does to the store, as a function on values. Every
 * operation is one atomic step here; LockProtocol treats how they interleave.
 */
module StorageSpec {
  import opened Bytes
  import opened Sequences

  // ----- machine arithmetic -----

  const U64: nat := 0x1_0000_0000_0000_0000
  const U63: nat := 0x8000_0000_0000_0000

  /** An unsigned long holds its value modulo 2^64. */
  function Wrap64(x: int): nat { if 0 <= x < U64 then x else x % U64 }

  function Add64(a: nat, b: nat): nat { Wrap64(a + b) }

  function Sub64(a: nat, b: nat): nat { Wrap64(a - b) }

  // ----- the store -----

  const NOBODY: int := -1

  /** whoOpened lists client descriptors; the source keeps their decimal text. */
  datatype FileVal = FileVal(size: nat, content: Bytes, lockerClient: int, whoOpened: seq<int>, lastAccess: int)

  datatype Policy = Fifo | Lru

  /** files is the hash table, queue the written files in order of writing. */
  datatype Store = Store(
    files: map<string, FileVal>, queue: seq<string>, filesNumb: int, sizeMB: nat,
    maxFiles: int, maxMB: nat, repPolicy: Policy,
    maxFileStored: int, maxMBStored: nat, victimNumb: int)

  datatype Request =
    | Open(name: string, create: bool, lock: bool)
    | Read(name: string)
    | ReadN(n: int)
    | Write(name: string, content: Bytes)
    | Append(name: string, content: Bytes)
    | Lock(name: string)
    | Unlock(name: string)
    | Close(name: string)
    | Remove(name: string)

  /** A request of a client at a time. */
  datatype Event = Event(client: nat, now: int, request: Request)

  /** Unset: the operation fails without setting errno. */
  datatype Errno = EINVAL | ENOENT | EEXIST | EACCES | EPERM | Unset

  /** Undefined: the code dereferences a null pointer or a freed file. */
  datatype Outcome = Success | Failure(errno: Errno) | Undefined

  datatype Entry = Entry(name: string, content: Bytes)

  /** data answers a read, listed a readN or the victims reported by a write; evicted are all victims. */
  datatype Response = Response(outcome: Outcome, data: Bytes, listed: seq<Entry>, evicted: seq<Entry>)

  datatype Result = Result(store: Store, response: Response)

  /** storageInit: an invalid policy means FIFO, an empty capacity is refused. */
  function Init(maxFiles: int, maxMB: nat, repPolicy: int): Option<Store> {
    if maxFiles <= 0 || maxMB == 0 then None
    else Some(Store(map[], [], 0, 0, maxFiles, maxMB, if repPolicy == 1 then Lru else Fifo, 0, 0, 0))
  }

  function Fail(s: Store, e: Errno): Result {
    Result(s, Response(Failure(e), [], [], []))
  }

  function Done(s: Store): Result {
    Result(s, Response(Success, [], [], []))
  }

  function Crash(s: Store): Result {
    Result(s, Response(Undefined, [], [], []))
  }

  // ----- choosing and removing victims -----

  function Abs(x: int): nat { if x < 0 then -x else x }

  /** The LRU scan from position i with victim v so far and largest difference d so far. */
  function LruScan(times: seq<int>, i: nat, v: nat, d: nat): (r: (nat, nat))
    requires v < |times| && v <= i
    ensures r.0 < |times|
    decreases |times| - i
  {
    if i >= |times| then (v, d)
    else
      var diff := times[v] - times[i];
      if Abs(diff) > d then LruScan(times, i + 1, if diff > 0 then i else v, Abs(diff))
      else LruScan(times, i + 1, v, d)
  }

  /** The victim's position in the queue, and the largest difference seen. The first difference is only a seed. */
  function LruVictim(times: seq<int>): (r: (nat, nat))
    requires times != []
    ensures r.0 < |times|
  {
    if |times| == 1 then (0, 0) else LruScan(times, 1, 0, Abs(times[0] - times[1]))
  }

  predicate QueueKnown(s: Store) {
    forall i :: 0 <= i < |s.queue| ==> s.queue[i] in s.files
  }

  function Times(files: map<string, FileVal>, queue: seq<string>): (r: seq<int>)
    requires forall i :: 0 <= i < |queue| ==> queue[i] in files
    ensures |r| == |queue| && forall i :: 0 <= i < |r| ==> r[i] == files[queue[i]].lastAccess
  {
    seq(|queue|, i requires 0 <= i < |queue| => files[queue[i]].lastAccess)
  }

  function VictimIndex(s: Store): (k: nat)
    requires s.queue != [] && QueueKnown(s)
    ensures k < |s.queue|
  {
    if s.repPolicy == Fifo then 0 else LruVictim(Times(s.files, s.queue)).0
  }

  function VictimName(s: Store): (n: string)
    requires s.queue != [] && QueueKnown(s)
    ensures n in s.queue && n in s.files
  {
    s.queue[VictimIndex(s)]
  }

  function VictimEntry(s: Store): Entry
    requires s.queue != [] && QueueKnown(s)
  {
    Entry(VictimName(s), s.files[VictimName(s)].content)
  }

  /** A file out of the counters, the queue and the table. */
  function TakeOut(s: Store, name: string): (r: Store)
    requires name in s.files
    ensures name in s.queue ==> |r.queue| < |s.queue|
  {
    s.(files := s.files - {name}, queue := ListRemove(s.queue, name),
       filesNumb := s.filesNumb - 1, sizeMB := Sub64(s.sizeMB, s.files[name].size))
  }

  /** getVictim: the victim out, and counted as one. */
  function Evict(s: Store): (r: Store)
    requires s.queue != [] && QueueKnown(s)
    ensures |r.queue| < |s.queue|
  {
    TakeOut(s, VictimName(s)).(victimNumb := s.victimNumb + 1)
  }

  predicate Fits(s: Store, need: nat) {
    s.filesNumb + 1 <= s.maxFiles && Add64(s.sizeMB, need) <= s.maxMB
  }

  /** Stuck: getVictim is called on an empty queue, whose head it dereferences. */
  datatype Eviction = Evicted(store: Store, victims: seq<Entry>) | Stuck

  function EvictUntilFits(s: Store, need: nat): Eviction
    decreases |s.queue|
  {
    if Fits(s, need) then Evicted(s, [])
    else if s.queue == [] || !QueueKnown(s) then Stuck
    else match EvictUntilFits(Evict(s), need)
      case Stuck => Stuck
      case Evicted(s', victims) => Evicted(s', [VictimEntry(s)] + victims)
  }

  function Max(a: int, b: int): int { if a > b then a else b }

  function UpdateStorage(s: Store): Store {
    s.(maxFileStored := Max(s.maxFileStored, s.filesNumb), maxMBStored := Max(s.maxMBStored, s.sizeMB))
  }

  function SetFile(s: Store, name: string, f: FileVal): Store {
    s.(files := s.files[name := f])
  }

  predicate MayUse(f: FileVal, c: int) {
    f.lockerClient == NOBODY || f.lockerClient == c
  }

  /** c has the file open. */
  predicate OpenTo(s: Store, name: string, c: int) {
    name in s.files && c in s.files[name].whoOpened
  }

  // ----- the operations -----

  function OpenFile(s: Store, c: nat, now: int, name: string, create: bool, lock: bool): Result {
    if create then
      if name in s.files then Fail(s, EEXIST)
      else Done(SetFile(s, name, FileVal(0, [], if lock then c else NOBODY, [c], now)))
    else if name !in s.files then Fail(s, ENOENT)
    else
      var f := s.files[name];
      if lock && !MayUse(f, c) then Fail(s, EACCES)
      else
        var who := if c in f.whoOpened then f.whoOpened else f.whoOpened + [c];
        Done(SetFile(s, name, f.(lockerClient := if lock then c else f.lockerClient, whoOpened := who, lastAccess := now)))
  }

  function ReadFile(s: Store, c: nat, now: int, name: string): Result {
    if name !in s.files then Fail(s, ENOENT)
    else
      var f := s.files[name];
      if c !in f.whoOpened || !MayUse(f, c) then Fail(s, EACCES)
      else if f.size == 0 then Done(s)
      else Result(SetFile(s, name, f.(lastAccess := now)), Response(Success, f.content, [], []))
  }

  /** The queued files a client may read, in queue order. */
  function Readable(files: map<string, FileVal>, queue: seq<string>, c: int): seq<string> {
    if queue == [] then []
    else if queue[0] in files && MayUse(files[queue[0]], c) then [queue[0]] + Readable(files, queue[1..], c)
    else Readable(files, queue[1..], c)
  }

  function Take<T>(s: seq<T>, n: int): seq<T> {
    if n <= 0 then [] else if n < |s| then s[..n] else s
  }

  function Touch(files: map<string, FileVal>, names: seq<string>, now: int): map<string, FileVal> {
    map n | n in files :: if n in names then files[n].(lastAccess := now) else files[n]
  }

  function Entries(files: map<string, FileVal>, names: seq<string>): (r: seq<Entry>)
    requires forall i :: 0 <= i < |names| ==> names[i] in files
    ensures |r| == |names| && forall i :: 0 <= i < |r| ==> r[i] == Entry(names[i], files[names[i]].content)
  {
    seq(|names|, i requires 0 <= i < |names| => Entry(names[i], files[names[i]].content))
  }

  lemma {:induction false} ReadableKnown(files: map<string, FileVal>, queue: seq<string>, c: int)
    ensures forall n :: n in Readable(files, queue, c) <==> n in queue && n in files && MayUse(files[n], c)
  {
    if queue != [] {
      ReadableKnown(files, queue[1..], c);
      assert queue == [queue[0]] + queue[1..];
    }
  }

  /** n <= 0 asks for as many files as the counter says there are. */
  function ReadNFiles(s: Store, c: nat, now: int, n: int): Result {
    if n <= 0 && s.filesNumb <= 0 then Fail(s, ENOENT)
    else if s.queue == [] then Fail(s, Unset)
    else
      var names := Take(Readable(s.files, s.queue, c), if n <= 0 then s.filesNumb else n);
      ReadableKnown(s.files, s.queue, c);
      Result(s.(files := Touch(s.files, names, now)), Response(Success, [], Entries(s.files, names), []))
  }

  function WriteFile(s: Store, c: nat, now: int, name: string, content: Bytes): Result {
    if content == [] then Fail(s, EINVAL)
    else if name !in s.files then Fail(s, ENOENT)
    else
      var f := s.files[name];
      if c !in f.whoOpened then Fail(s, EACCES)
      else if f.size != 0 then Fail(s, EEXIST)
      else if f.lockerClient != c then Fail(s, EACCES)
      else FinishWrite(s, EvictUntilFits(s, |content|), now, name, content)
  }

  function FinishWrite(s: Store, room: Eviction, now: int, name: string, content: Bytes): Result {
    if room.Stuck? || name !in room.store.files then Crash(s)
    else Result(PutWritten(room.store, now, name, content), Response(Success, [], room.victims, room.victims))
  }

  /** The file gets its content and joins the counters and the queue. */
  function PutWritten(s: Store, now: int, name: string, content: Bytes): Store
    requires name in s.files
  {
    var written := s.files[name].(content := StrncpyImage(content), size := |content|, lastAccess := now);
    UpdateStorage(SetFile(s, name, written).(
      filesNumb := s.filesNumb + 1, sizeMB := Add64(s.sizeMB, |content|), queue := s.queue + [name]))
  }

  /** Evicted files are not reported; the file appended to may be among them. */
  function AppendFile(s: Store, c: nat, now: int, name: string, content: Bytes): Result {
    if content == [] then Fail(s, EINVAL)
    else if name !in s.files then Fail(s, ENOENT)
    else
      var f := s.files[name];
      if c !in f.whoOpened || !MayUse(f, c) then Fail(s, EACCES)
      else FinishAppend(s, EvictUntilFits(s, |content|), now, name, content)
  }

  function FinishAppend(s: Store, room: Eviction, now: int, name: string, content: Bytes): Result {
    if room.Stuck? || name !in room.store.files then Crash(s)
    else Result(PutAppended(room.store, now, name, content), Response(Success, [], [], room.victims))
  }

  function PutAppended(s: Store, now: int, name: string, content: Bytes): Store
    requires name in s.files
  {
    var f := s.files[name];
    var longer := f.(content := f.content + content, size := Add64(f.size, |content|), lastAccess := now);
    UpdateStorage(SetFile(s, name, longer).(sizeMB := Add64(s.sizeMB, |content|)))
  }

  function LockFile(s: Store, c: nat, now: int, name: string): Result {
    if name !in s.files then Fail(s, ENOENT)
    else
      var f := s.files[name];
      if c !in f.whoOpened then Fail(s, EACCES)
      else if !MayUse(f, c) then Fail(s, EPERM)
      else Done(SetFile(s, name, f.(lockerClient := c, lastAccess := now)))
  }

  function UnlockFile(s: Store, c: nat, name: string): Result {
    if name !in s.files then Fail(s, ENOENT)
    else
      var f := s.files[name];
      if c !in f.whoOpened || !MayUse(f, c) then Fail(s, EACCES)
      else Done(SetFile(s, name, f.(lockerClient := NOBODY)))
  }

  function CloseFile(s: Store, c: nat, name: string): Result {
    if name !in s.files then Fail(s, ENOENT)
    else
      var f := s.files[name];
      if c !in f.whoOpened then Fail(s, EACCES)
      else Done(SetFile(s, name, f.(whoOpened := ListRemove(f.whoOpened, c))))
  }

  /** The file counter drops even when the file was never written, hence never counted. */
  function RemoveFile(s: Store, c: nat, name: string): Result {
    if name !in s.files then Fail(s, ENOENT)
    else
      var f := s.files[name];
      if c !in f.whoOpened || f.lockerClient != c then Fail(s, EACCES)
      else Done(TakeOut(s, name))
  }

  function Step(s: Store, e: Event): Result {
    match e.request
    case Open(name, create, lock) => OpenFile(s, e.client, e.now, name, create, lock)
    case Read(name) => ReadFile(s, e.client, e.now, name)
    case ReadN(n) => ReadNFiles(s, e.client, e.now, n)
    case Write(name, content) => WriteFile(s, e.client, e.now, name, content)
    case Append(name, content) => AppendFile(s, e.client, e.now, name, content)
    case Lock(name) => LockFile(s, e.client, e.now, name)
    case Unlock(name) => UnlockFile(s, e.client, name)
    case Close(name) => CloseFile(s, e.client, name)
    case Remove(name) => RemoveFile(s, e.client, name)
  }

  // ----- runs -----

  /** No request takes an object larger than memory can hold, and none runs into undefined behaviour. */
  predicate Defined(s: Store, run: seq<Event>)
    decreases |run|
  {
    run == [] ||
    (Sized(run[0].request) && Step(s, run[0]).response.outcome != Undefined && Defined(Step(s, run[0]).store, run[1..]))
  }

  /** A C object has fewer than 2^63 bytes. */
  predicate Sized(r: Request) {
    (r.Write? || r.Append?) ==> |r.content| < U63
  }

  function After(s: Store, run: seq<Event>): Store
    decreases |run|
  {
    if run == [] then s else After(Step(s, run[0]).store, run[1..])
  }
}
