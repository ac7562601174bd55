/**
 * The storage object of src/storage.c on the real list and hash table: its operations update
 * counters, list nodes, bucket chains and file records in place, and do what StorageSpec says.
 */
module Storage {
  import opened Bytes
  import opened Sequences
  import opened StorageSpec
  import opened StorageInvariant
  import HashTable
  import LinkedList

  class StoredFile {
    const name: string
    var size: nat
    var content: Bytes
    var lockerClient: int
    var whoOpened: seq<int>
    var lastAccess: int

    constructor (name: string, lockerClient: int, client: int, now: int)
      ensures this.name == name && Val() == FileVal(0, [], lockerClient, [client], now)
    {
      this.name, size, content := name, 0, [];
      this.lockerClient, whoOpened, lastAccess := lockerClient, [client], now;
    }

    ghost function Val(): FileVal
      reads this
    {
      FileVal(size, content, lockerClient, whoOpened, lastAccess)
    }
  }

  // ----- the walk of readN, on values -----

  /** What visiting one queue entry does to the files. */
  ghost predicate Visited(files: map<string, FileVal>, name: string, c: int, now: int, copies: seq<Entry>,
                          files': map<string, FileVal>)
  {
    name in files &&
    if MayUse(files[name], c) then
      copies == [Entry(name, files[name].content)] && files' == files[name := files[name].(lastAccess := now)]
    else
      copies == [] && files' == files
  }

  /** After i entries, the files read are names, their copies sent, and what is still to come completes the answer. */
  ghost predicate ReadSoFar(m: map<string, FileVal>, queue: seq<string>, c: int, now: int, n: int, i: nat,
                            names: seq<string>, sent: seq<Entry>, files: map<string, FileVal>)
  {
    && i <= |queue| && files == Touch(m, names, now)
    && Take(Readable(m, queue, c), n) == names + Take(Readable(m, queue[i..], c), n - |names|)
    && (forall k :: k in names ==> k in m) && sent == Entries(m, names)
  }

  lemma ReadSoFarInit(m: map<string, FileVal>, queue: seq<string>, c: int, now: int, n: int)
    ensures ReadSoFar(m, queue, c, now, n, 0, [], [], m)
  {
    TouchNone(m, now);
    assert queue[0..] == queue;
    assert forall t: seq<string> :: [] + t == t;
  }

  lemma ReadSoFarSkip(m: map<string, FileVal>, queue: seq<string>, c: int, now: int, n: int, i: nat, names: seq<string>,
                      sent: seq<Entry>, files: map<string, FileVal>)
    requires ReadSoFar(m, queue, c, now, n, i, names, sent, files) && i < |queue| && |names| < n
    requires queue[i] in m && !MayUse(m[queue[i]], c)
    ensures ReadSoFar(m, queue, c, now, n, i + 1, names, sent, files)
  {
    ReadableStep(m, queue, i, c, n - |names|);
  }

  lemma ReadSoFarTake(m: map<string, FileVal>, queue: seq<string>, c: int, now: int, n: int, i: nat, names: seq<string>,
                      sent: seq<Entry>, files: map<string, FileVal>)
    requires ReadSoFar(m, queue, c, now, n, i, names, sent, files) && i < |queue| && |names| < n
    requires queue[i] in m && MayUse(m[queue[i]], c)
    ensures ReadSoFar(m, queue, c, now, n, i + 1, names + [queue[i]], sent + [Entry(queue[i], m[queue[i]].content)],
                      files[queue[i] := m[queue[i]].(lastAccess := now)])
  {
    var x, names' := queue[i], names + [queue[i]];
    ReadableStep(m, queue, i, c, n - |names|);
    TouchStep(m, names, x, now);
    EntriesStep(m, names, x);
    var rest := Take(Readable(m, queue[i + 1..], c), n - |names'|);
    assert names + ([x] + rest) == names' + rest;
  }

  lemma EntriesStep(m: map<string, FileVal>, names: seq<string>, x: string)
    requires x in m && forall k :: k in names ==> k in m
    ensures Entries(m, names + [x]) == Entries(m, names) + [Entry(x, m[x].content)]
  {
  }

  lemma ReadSoFarStep(m: map<string, FileVal>, queue: seq<string>, c: int, now: int, n: int, i: nat, names: seq<string>,
                      sent: seq<Entry>, files: map<string, FileVal>, copies: seq<Entry>, files': map<string, FileVal>)
    requires ReadSoFar(m, queue, c, now, n, i, names, sent, files) && i < |queue| && |names| < n
    requires Visited(files, queue[i], c, now, copies, files')
    ensures ReadSoFar(m, queue, c, now, n, i + 1, names + (if copies == [] then [] else [queue[i]]), sent + copies, files')
  {
    hide ReadSoFar, Touch;
    TouchedSame(m, queue, c, now, n, i, names, sent, files);
    if MayUse(m[queue[i]], c) {
      ReadSoFarTake(m, queue, c, now, n, i, names, sent, files);
    } else {
      ReadSoFarSkip(m, queue, c, now, n, i, names, sent, files);
      assert names + [] == names && sent + copies == sent;
    }
  }

  lemma TouchedSame(m: map<string, FileVal>, queue: seq<string>, c: int, now: int, n: int, i: nat, names: seq<string>,
                    sent: seq<Entry>, files: map<string, FileVal>)
    requires ReadSoFar(m, queue, c, now, n, i, names, sent, files) && i < |queue| && queue[i] in files
    ensures queue[i] in m && files[queue[i]].(lastAccess := now) == m[queue[i]].(lastAccess := now)
  {
  }

  lemma ReadSoFarDone(m: map<string, FileVal>, queue: seq<string>, c: int, now: int, n: int, i: nat, names: seq<string>,
                      sent: seq<Entry>, files: map<string, FileVal>)
    requires ReadSoFar(m, queue, c, now, n, i, names, sent, files) && (|names| >= n || i == |queue|)
    ensures names == Take(Readable(m, queue, c), n) && (forall k :: k in names ==> k in m)
    ensures sent == Entries(m, names) && files == Touch(m, names, now)
  {
    assert names + [] == names;
  }

  lemma ReadableStep(files: map<string, FileVal>, queue: seq<string>, i: nat, c: int, n: int)
    requires i < |queue| && queue[i] in files && n > 0
    ensures Take(Readable(files, queue[i..], c), n) ==
      if MayUse(files[queue[i]], c) then [queue[i]] + Take(Readable(files, queue[i + 1..], c), n - 1)
      else Take(Readable(files, queue[i + 1..], c), n)
  {
    assert queue[i..][1..] == queue[i + 1..];
  }

  lemma TouchStep(files: map<string, FileVal>, names: seq<string>, x: string, now: int)
    requires x in files
    ensures Touch(files, names + [x], now) == Touch(files, names, now)[x := files[x].(lastAccess := now)]
  {
  }

  lemma TouchNone(files: map<string, FileVal>, now: int)
    ensures Touch(files, [], now) == files
  {
  }

  /** An eviction that some victims preceded. */
  ghost function Before(victims: seq<Entry>, e: Eviction): Eviction {
    match e
    case Stuck => Stuck
    case Evicted(s, more) => Evicted(s, victims + more)
  }

  lemma BeforeNone(e: Eviction)
    ensures Before([], e) == e
  {
    if e.Evicted? { assert [] + e.victims == e.victims; }
  }

  lemma BeforeEvicted(victims: seq<Entry>, e: Eviction)
    ensures Before(victims, e).Evicted? <==> e.Evicted?
  {
  }

  lemma BeforeOne(victims: seq<Entry>, victim: Entry, e: Eviction)
    ensures Before(victims, Before([victim], e)) == Before(victims + [victim], e)
  {
    if e.Evicted? { assert victims + ([victim] + e.victims) == victims + [victim] + e.victims; }
  }

  lemma FitsAlready(s: StorageSpec.Store, need: nat, victims: seq<Entry>)
    requires Fits(s, need)
    ensures Before(victims, EvictUntilFits(s, need)) == Evicted(s, victims)
  {
    assert victims + [] == victims;
  }

  lemma ScanNext(times: seq<int>, i: nat, v: nat, d: nat)
    requires v < i < |times|
    ensures var diff := times[v] - times[i]; var longer := StorageSpec.Abs(diff) > d;
      StorageSpec.LruScan(times, i, v, d)
        == StorageSpec.LruScan(times, i + 1, if longer && diff > 0 then i else v, if longer then StorageSpec.Abs(diff) else d)
  {
  }

  lemma ScanDone(times: seq<int>, i: nat, v: nat, d: nat)
    requires v < |times| <= i
    ensures StorageSpec.LruScan(times, i, v, d).0 == v
  {
  }

  lemma PutWrittenIs(s: StorageSpec.Store, now: int, name: string, content: Bytes, f: FileVal)
    requires name in s.files && s.files[name] == f
    ensures StorageSpec.PutWritten(s, now, name, content) == StorageSpec.UpdateStorage(s.(
      files := s.files[name := f.(content := StrncpyImage(content), size := |content|, lastAccess := now)],
      filesNumb := s.filesNumb + 1, sizeMB := Add64(s.sizeMB, |content|), queue := s.queue + [name]))
  {
  }

  lemma TakeOutIs(s: StorageSpec.Store, name: string, f: FileVal)
    requires name in s.files && s.files[name] == f
    ensures StorageSpec.TakeOut(s, name) == s.(
      files := s.files - {name}, queue := ListRemove(s.queue, name), filesNumb := s.filesNumb - 1,
      sizeMB := Sub64(s.sizeMB, f.size))
  {
  }

  class Store {
    const files: HashTable.Table<StoredFile>
    const filesFIFOQueue: LinkedList.List
    const maxFiles: int
    const maxMB: nat
    const repPolicy: Policy
    var filesNumb: int
    var sizeMB: nat
    var maxFileStored: int
    var maxMBStored: nat
    var victimNumb: int

    /** The file records, by name. */
    ghost function Files(): (r: map<string, FileVal>)
      reads files, files.contents.Values
      ensures r.Keys == files.contents.Keys
    {
      map n | n in files.contents :: files.contents[n].Val()
    }

    ghost function Abs(): StorageSpec.Store
      reads this, files, files.contents.Values, filesFIFOQueue
    {
      StorageSpec.Store(Files(), filesFIFOQueue.Names(), filesNumb, sizeMB, maxFiles, maxMB, repPolicy,
                        maxFileStored, maxMBStored, victimNumb)
    }

    /** The two structures are sound and every record is filed under its own name. */
    ghost predicate Sound()
      reads files, files.buckets, files.entries, files.contents.Values, filesFIFOQueue, filesFIFOQueue.nodes
    {
      && files.Valid() && filesFIFOQueue.Valid()
      && forall n :: n in files.contents ==> files.contents[n].name == n
    }

    ghost predicate Valid()
      reads this, files, files.buckets, files.entries, files.contents.Values, filesFIFOQueue, filesFIFOQueue.nodes
    {
      Sound() && Inv(Abs())
    }

    constructor (maxFiles: int, maxMB: nat, repPolicy: int, hash: string -> nat)
      requires maxFiles > 0 && 0 < maxMB < U64
      ensures Sound() && Abs() == Init(maxFiles, maxMB, repPolicy).value
      ensures maxMB < U63 ==> Valid()
    {
      this.maxFiles, this.maxMB := maxFiles, maxMB;
      this.repPolicy := if repPolicy == 1 then Lru else Fifo;
      filesNumb, sizeMB, maxFileStored, maxMBStored, victimNumb := 0, 0, 0, 0, 0;
      files := new HashTable.Table(maxFiles, hash);
      filesFIFOQueue := new LinkedList.List();
      new;
      if maxMB < U63 { InitAccounting(maxFiles, maxMB, repPolicy); }
      assert Files() == map[];
    }

    /** Only newly allocated objects joined the structures. */
    twostate predicate Grown()
      reads files, filesFIFOQueue
    {
      && (forall i :: 0 <= i < |filesFIFOQueue.nodes| ==>
            filesFIFOQueue.nodes[i] in old(filesFIFOQueue.nodes) || fresh(filesFIFOQueue.nodes[i]))
      && (forall e :: e in files.entries ==> e in old(files.entries) || fresh(e))
      && (forall n :: n in files.contents ==> files.contents[n] in old(files.contents.Values) || fresh(files.contents[n]))
    }

    // ----- one file record -----

    /** Only f changed. */
    twostate lemma OneFileChanged(f: StoredFile)
      requires Sound() && files.contents == old(files.contents)
      requires f.name in files.contents && files.contents[f.name] == f
      requires forall n :: n in files.contents && n != f.name ==> unchanged(files.contents[n])
      ensures Files() == old(Files())[f.name := f.Val()]
    {
    }

    lemma ValueOf(f: StoredFile)
      requires f.name in files.contents && files.contents[f.name] == f
      ensures f.name in Files() && Files()[f.name] == f.Val()
    {
    }

    method Find(name: string) returns (f: StoredFile?)
      requires Sound()
      ensures f == null <==> name !in Files()
      ensures f != null ==> f.name == name && name in files.contents && files.contents[name] == f && f.Val() == Files()[name]
    {
      var r := files.Find(name);
      match r
      case None => f := null;
      case Some(file) => f := file;
    }

    method CreateFile(client: nat, now: int, name: string, lock: bool)
      requires Sound() && name !in Files()
      modifies files, files.buckets
      ensures Sound() && Grown()
      ensures Abs() == SetFile(old(Abs()), name, FileVal(0, [], if lock then client else NOBODY, [client], now))
    {
      hide HashTable.Table.Valid, LinkedList.List.Valid;
      var f := new StoredFile(name, if lock then client else NOBODY, client, now);
      var inserted := files.Insert(name, f);
      OneFileJoined(f);
      hide Files;
    }

    twostate lemma OneFileJoined(new f: StoredFile)
      requires f.name !in old(files.contents) && files.contents == old(files.contents)[f.name := f]
      requires forall n :: n in old(files.contents) ==> unchanged(old(files.contents[n]))
      ensures Files() == old(Files())[f.name := f.Val()]
    {
    }

    method OpenFile(client: nat, now: int, name: string, create: bool, lock: bool) returns (r: Response)
      requires Sound()
      modifies files, files.buckets, files.contents.Values
      ensures Sound() && Grown() && Result(Abs(), r) == StorageSpec.OpenFile(old(Abs()), client, now, name, create, lock)
    {
      hide HashTable.Table.Valid, LinkedList.List.Valid;
      var f := Find(name);
      if create {
        if f != null { return Response(Failure(EEXIST), [], [], []); }
        CreateFile(client, now, name, lock);
        return Response(Success, [], [], []);
      }
      if f == null { return Response(Failure(ENOENT), [], [], []); }
      r := ReopenFile(f, client, now, lock);
    }

    method ReopenFile(f: StoredFile, client: nat, now: int, lock: bool) returns (r: Response)
      requires Sound() && f.name in files.contents && files.contents[f.name] == f
      modifies f
      ensures Sound() && unchanged(files) && unchanged(filesFIFOQueue)
      ensures Result(Abs(), r) == StorageSpec.OpenFile(old(Abs()), client, now, f.name, false, lock)
    {
      hide HashTable.Table.Valid, LinkedList.List.Valid;
      if lock {
        if f.lockerClient == NOBODY || f.lockerClient == client {
          f.lockerClient := client;
        } else {
          return Response(Failure(EACCES), [], [], []);
        }
      }
      if client !in f.whoOpened {
        f.whoOpened := f.whoOpened + [client];
      }
      f.lastAccess := now;
      OneFileChanged(f);
      r := Response(Success, [], [], []);
    }

    method ReadFile(client: nat, now: int, name: string) returns (r: Response)
      requires Sound()
      modifies files.contents.Values
      ensures Sound() && Grown() && Result(Abs(), r) == StorageSpec.ReadFile(old(Abs()), client, now, name)
    {
      hide HashTable.Table.Valid, LinkedList.List.Valid;
      var f := Find(name);
      if f == null { return Response(Failure(ENOENT), [], [], []); }
      if client !in f.whoOpened { return Response(Failure(EACCES), [], [], []); }
      if f.lockerClient == NOBODY || f.lockerClient == client {
        if f.size == 0 { return Response(Success, [], [], []); }
        r := Response(Success, f.content, [], []);
        f.lastAccess := now;
        OneFileChanged(f);
      } else {
        r := Response(Failure(EACCES), [], [], []);
      }
    }

    method LockFile(client: nat, now: int, name: string) returns (r: Response)
      requires Sound()
      modifies files.contents.Values
      ensures Sound() && Grown() && Result(Abs(), r) == StorageSpec.LockFile(old(Abs()), client, now, name)
    {
      hide HashTable.Table.Valid, LinkedList.List.Valid;
      var f := Find(name);
      if f == null { return Response(Failure(ENOENT), [], [], []); }
      if client !in f.whoOpened { return Response(Failure(EACCES), [], [], []); }
      if f.lockerClient == NOBODY || f.lockerClient == client {
        f.lockerClient := client;
        f.lastAccess := now;
        OneFileChanged(f);
        r := Response(Success, [], [], []);
      } else {
        r := Response(Failure(EPERM), [], [], []);
      }
    }

    method UnlockFile(client: nat, name: string) returns (r: Response)
      requires Sound()
      modifies files.contents.Values
      ensures Sound() && Grown() && Result(Abs(), r) == StorageSpec.UnlockFile(old(Abs()), client, name)
    {
      hide HashTable.Table.Valid, LinkedList.List.Valid;
      var f := Find(name);
      if f == null { return Response(Failure(ENOENT), [], [], []); }
      if client !in f.whoOpened { return Response(Failure(EACCES), [], [], []); }
      if f.lockerClient == NOBODY || f.lockerClient == client {
        f.lockerClient := NOBODY;
        OneFileChanged(f);
        r := Response(Success, [], [], []);
      } else {
        r := Response(Failure(EACCES), [], [], []);
      }
    }

    method CloseFile(client: nat, name: string) returns (r: Response)
      requires Sound()
      modifies files.contents.Values
      ensures Sound() && Grown() && Result(Abs(), r) == StorageSpec.CloseFile(old(Abs()), client, name)
    {
      hide HashTable.Table.Valid, LinkedList.List.Valid;
      var f := Find(name);
      if f == null { return Response(Failure(ENOENT), [], [], []); }
      if client !in f.whoOpened { return Response(Failure(EACCES), [], [], []); }
      f.whoOpened := ListRemove(f.whoOpened, client);
      OneFileChanged(f);
      r := Response(Success, [], [], []);
    }

    // ----- files leaving -----

    twostate lemma OneFileLeft(name: string)
      requires files.contents == old(files.contents) - {name}
      requires forall n :: n in files.contents ==> unchanged(files.contents[n])
      ensures Files() == old(Files()) - {name}
    {
    }

    /** Names are queued once, so removing one by value is exact. */
    lemma QueueRemovable(name: string)
      requires Distinct(filesFIFOQueue.Names())
      ensures !TailHidesEarlierMatch(filesFIFOQueue.Names(), name)
    {
      ListRemoveDistinct(filesFIFOQueue.Names(), name);
      ListRemoveExact(filesFIFOQueue.Names(), name);
    }

    /** The structures hold nothing they did not hold before. */
    twostate predicate OnlyLess()
      reads files, filesFIFOQueue
    {
      && files.entries == old(files.entries)
      && (forall i :: 0 <= i < |filesFIFOQueue.nodes| ==> filesFIFOQueue.nodes[i] in old(filesFIFOQueue.nodes))
      && (forall n :: n in files.contents ==> n in old(files.contents) && files.contents[n] == old(files.contents)[n])
    }

    method LeaveQueue(name: string)
      requires Sound() && !TailHidesEarlierMatch(filesFIFOQueue.Names(), name)
      modifies filesFIFOQueue, filesFIFOQueue.nodes
      ensures Sound() && filesFIFOQueue.Names() == ListRemove(old(filesFIFOQueue.Names()), name)
      ensures forall e :: e in filesFIFOQueue.nodes ==> e in old(filesFIFOQueue.nodes)
      ensures Files() == old(Files())
    {
      hide HashTable.Table.Valid, LinkedList.List.Valid;
      var removed := filesFIFOQueue.RemoveList(name);
    }

    method LeaveTable(name: string)
      requires Sound()
      modifies files, files.buckets, files.entries
      ensures Sound() && files.contents == old(files.contents) - {name} && files.entries == old(files.entries)
      ensures Files() == old(Files()) - {name} && filesFIFOQueue.Names() == old(filesFIFOQueue.Names())
    {
      hide HashTable.Table.Valid, LinkedList.List.Valid;
      var deleted := files.Delete(name);
      OneFileLeft(name);
    }

    /** Out of the counters, the queue and the table. */
    method TakeOut(f: StoredFile)
      requires Sound() && !TailHidesEarlierMatch(filesFIFOQueue.Names(), f.name)
      requires f.name in files.contents && files.contents[f.name] == f
      modifies this`filesNumb, this`sizeMB, files, files.buckets, files.entries, filesFIFOQueue, filesFIFOQueue.nodes
      ensures Sound() && OnlyLess()
      ensures Abs() == StorageSpec.TakeOut(old(Abs()), f.name)
    {
      hide HashTable.Table.Valid, LinkedList.List.Valid, Sub64, ListRemove, TailHidesEarlierMatch, Files, StorageSpec.TakeOut;
      ValueOf(f);
      TakeOutIs(Abs(), f.name, f.Val());
      filesNumb := filesNumb - 1;
      sizeMB := Sub64(sizeMB, f.size);
      LeaveQueue(f.name);
      LeaveTable(f.name);
    }

    method RemoveFile(client: nat, name: string) returns (r: Response)
      requires Sound() && !TailHidesEarlierMatch(filesFIFOQueue.Names(), name)
      modifies this`filesNumb, this`sizeMB, files, files.buckets, files.entries, filesFIFOQueue, filesFIFOQueue.nodes
      ensures Sound() && Grown() && Result(Abs(), r) == StorageSpec.RemoveFile(old(Abs()), client, name)
    {
      hide HashTable.Table.Valid, LinkedList.List.Valid;
      var f := Find(name);
      if f == null { return Response(Failure(ENOENT), [], [], []); }
      if client !in f.whoOpened { return Response(Failure(EACCES), [], [], []); }
      if f.lockerClient == client {
        TakeOut(f);
        r := Response(Success, [], [], []);
      } else {
        r := Response(Failure(EACCES), [], [], []);
      }
    }

    // ----- choosing victims -----

    /** Every queued file is in the table. */
    ghost predicate Known()
      reads this, files, files.contents.Values, filesFIFOQueue
    {
      forall i :: 0 <= i < |filesFIFOQueue.nodes| ==> filesFIFOQueue.nodes[i].info in files.contents
    }

    method FileOf(e: LinkedList.Elem, ghost i: nat) returns (f: StoredFile)
      requires Sound() && Known() && i < |filesFIFOQueue.nodes| && e == filesFIFOQueue.nodes[i]
      ensures Sound() && Known()
      ensures f.name == e.info && files.contents[e.info] == f
    {
      hide HashTable.Table.Valid, LinkedList.List.Valid;
      var found := Find(e.info);
      f := found;
    }

    /** The next entry of the queue with its file. */
    method NextFile(e: LinkedList.Elem, ghost i: nat) returns (n: LinkedList.Elem?, f: StoredFile?)
      requires Sound() && Known() && i < |filesFIFOQueue.nodes| && e == filesFIFOQueue.nodes[i]
      ensures Sound() && Known()
      ensures n == if i + 1 < |filesFIFOQueue.nodes| then filesFIFOQueue.nodes[i + 1] else null
      ensures n != null ==> f != null && f.name == n.info && files.contents[n.info] == f
    {
      hide HashTable.Table.Valid, LinkedList.List.Valid;
      n := filesFIFOQueue.NextList(e, i);
      f := null;
      if n != null {
        f := FileOf(n, i + 1);
      }
    }

    /** The scan of getVictim under LRU, along the queue from its head. */
    method LruScan() returns (victim: StoredFile, ghost k: nat)
      requires Sound() && Known() && filesFIFOQueue.nodes != []
      ensures Sound() && Known() && k < |filesFIFOQueue.nodes|
      ensures k == LruVictim(Times(old(Files()), old(filesFIFOQueue.Names()))).0
      ensures victim == files.contents[filesFIFOQueue.nodes[k].info]
    {
      hide HashTable.Table.Valid, LinkedList.List.Valid, StorageSpec.LruScan;
      ghost var nodes, times := filesFIFOQueue.nodes, Times(Files(), filesFIFOQueue.Names());
      var victimElem := filesFIFOQueue.GetHead();
      victim := FileOf(victimElem, 0);
      k := 0;
      var tmpElem, tmpVict := NextFile(victimElem, 0);
      if tmpElem != null {
        var maxDiffTime := StorageSpec.Abs(victim.lastAccess - tmpVict.lastAccess);
        ghost var i := 1;
        while tmpElem != null
          invariant Sound() && Known()
          invariant 1 <= i <= |nodes| && k < i
          invariant tmpElem == if i < |nodes| then nodes[i] else null
          invariant tmpElem != null ==> tmpVict == files.contents[tmpElem.info]
          invariant victim == files.contents[nodes[k].info]
          invariant StorageSpec.LruScan(times, i, k, maxDiffTime) == LruVictim(times)
          decreases |nodes| - i
        {
          ScanNext(times, i, k, maxDiffTime);
          var tmpTime := victim.lastAccess - tmpVict.lastAccess;
          assert tmpTime == times[k] - times[i];
          if StorageSpec.Abs(tmpTime) > maxDiffTime {
            maxDiffTime := StorageSpec.Abs(tmpTime);
            if tmpTime > 0 {
              victim := tmpVict;
              k := i;
            }
          }
          tmpElem, tmpVict := NextFile(tmpElem, i);
          i := i + 1;
        }
        ScanDone(times, i, k, maxDiffTime);
      }
    }

    lemma KnownMeans()
      requires QueueKnown(Abs())
      ensures Known()
    {
      var queue := filesFIFOQueue.Names();
      assert forall i :: 0 <= i < |queue| ==> queue[i] == filesFIFOQueue.nodes[i].info && queue[i] in Files();
    }

    /** The victim, and the copy of it that is handed back. */
    method ChooseVictim() returns (victim: StoredFile, copy: Entry)
      requires Sound() && QueueKnown(Abs()) && filesFIFOQueue.nodes != []
      ensures Sound() && victim.name in files.contents && files.contents[victim.name] == victim
      ensures Abs() == old(Abs()) && filesFIFOQueue.Names() == old(filesFIFOQueue.Names())
      ensures unchanged(files) && unchanged(filesFIFOQueue)
      ensures victim.name == VictimName(old(Abs())) && copy == VictimEntry(old(Abs()))
    {
      hide HashTable.Table.Valid, LinkedList.List.Valid, LruVictim;
      KnownMeans();
      if repPolicy == Fifo {
        var victimElem := filesFIFOQueue.GetHead();
        victim := FileOf(victimElem, 0);
      } else {
        var found, k := LruScan();
        victim := found;
      }
      copy := Entry(victim.name, victim.content);
    }

    method DropVictim(victim: StoredFile)
      requires Sound() && victim.name in files.contents && files.contents[victim.name] == victim
      requires Distinct(filesFIFOQueue.Names())
      modifies this`filesNumb, this`sizeMB, this`victimNumb
      modifies files, files.buckets, files.entries, filesFIFOQueue, filesFIFOQueue.nodes
      ensures Sound() && OnlyLess()
      ensures Abs() == StorageSpec.TakeOut(old(Abs()), victim.name).(victimNumb := old(victimNumb) + 1)
    {
      hide HashTable.Table.Valid, LinkedList.List.Valid, ListRemove, TailHidesEarlierMatch, Distinct, Sub64;
      QueueRemovable(victim.name);
      victimNumb := victimNumb + 1;
      TakeOut(victim);
    }

    method GetVictim() returns (copy: Entry)
      requires Sound() && QueueKnown(Abs()) && Distinct(filesFIFOQueue.Names()) && filesFIFOQueue.nodes != []
      modifies this`filesNumb, this`sizeMB, this`victimNumb
      modifies files, files.buckets, files.entries, filesFIFOQueue, filesFIFOQueue.nodes
      ensures Sound() && OnlyLess()
      ensures Abs() == Evict(old(Abs())) && copy == VictimEntry(old(Abs()))
    {
      hide HashTable.Table.Valid, LinkedList.List.Valid, VictimName, VictimEntry, StorageSpec.TakeOut, Distinct, QueueKnown, Files;
      var victim, entry := ChooseVictim();
      copy := entry;
      DropVictim(victim);
    }

    // ----- making room -----

    method EvictOne(ghost need: nat) returns (victim: Entry)
      requires Valid() && !Fits(Abs(), need) && EvictUntilFits(Abs(), need).Evicted?
      modifies this`filesNumb, this`sizeMB, this`victimNumb
      modifies files, files.buckets, files.entries, filesFIFOQueue, filesFIFOQueue.nodes
      ensures Valid() && OnlyLess() && |filesFIFOQueue.nodes| < old(|filesFIFOQueue.nodes|)
      ensures EvictUntilFits(old(Abs()), need) == Before([victim], EvictUntilFits(Abs(), need))
    {
      ghost var s := Abs();
      EvictKeeps(s);
      assert Distinct(s.queue);
      hide HashTable.Table.Valid, LinkedList.List.Valid, Inv, Distinct, Evict, VictimEntry, OnlyLess, QueueKnown, Fits;
      victim := GetVictim();
    }

    method MakeRoom(need: nat) returns (victims: seq<Entry>)
      requires Valid() && EvictUntilFits(Abs(), need).Evicted?
      modifies this`filesNumb, this`sizeMB, this`victimNumb
      modifies files, files.buckets, files.entries, filesFIFOQueue, filesFIFOQueue.nodes
      ensures Valid() && OnlyLess()
      ensures EvictUntilFits(old(Abs()), need) == Evicted(Abs(), victims)
    {
      hide HashTable.Table.Valid, LinkedList.List.Valid, Inv, EvictUntilFits, Before, Add64;
      BeforeNone(EvictUntilFits(Abs(), need));
      victims := [];
      while filesNumb + 1 > maxFiles || Add64(sizeMB, need) > maxMB
        invariant Valid() && OnlyLess()
        invariant EvictUntilFits(old(Abs()), need) == Before(victims, EvictUntilFits(Abs(), need))
        decreases |filesFIFOQueue.nodes|
      {
        BeforeEvicted(victims, EvictUntilFits(Abs(), need));
        var victim := EvictOne(need);
        BeforeOne(victims, victim, EvictUntilFits(Abs(), need));
        victims := victims + [victim];
      }
      FitsAlready(Abs(), need, victims);
    }

    // ----- writing -----

    method UpdateStorage()
      requires Sound()
      modifies this`maxFileStored, this`maxMBStored
      ensures Sound() && Abs() == StorageSpec.UpdateStorage(old(Abs()))
    {
      hide HashTable.Table.Valid, LinkedList.List.Valid;
      if filesNumb > maxFileStored {
        maxFileStored := filesNumb;
      }
      if sizeMB > maxMBStored {
        maxMBStored := sizeMB;
      }
    }

    method FillFile(f: StoredFile, content: Bytes, size: nat, now: int)
      requires Sound() && f.name in files.contents && files.contents[f.name] == f
      modifies f
      ensures Sound() && filesFIFOQueue.Names() == old(filesFIFOQueue.Names())
      ensures Files() == old(Files())[f.name := old(f.Val()).(content := content, size := size, lastAccess := now)]
    {
      hide HashTable.Table.Valid, LinkedList.List.Valid;
      f.content := content;
      f.size := size;
      f.lastAccess := now;
      OneFileChanged(f);
    }

    /** A written file joins the counters and the queue. */
    method Enqueue(name: string, contentSize: nat) returns (ghost added: LinkedList.Elem)
      requires Sound()
      modifies this`filesNumb, this`sizeMB, filesFIFOQueue, filesFIFOQueue.nodes
      ensures Sound() && fresh(added) && filesFIFOQueue.nodes == old(filesFIFOQueue.nodes) + [added]
      ensures Abs() == old(Abs()).(
        filesNumb := old(filesNumb) + 1, sizeMB := Add64(old(sizeMB), contentSize), queue := old(filesFIFOQueue.Names()) + [name])
    {
      hide HashTable.Table.Valid, LinkedList.List.Valid, Add64;
      filesNumb := filesNumb + 1;
      sizeMB := Add64(sizeMB, contentSize);
      var elem := filesFIFOQueue.AppendList(name);
      added := elem;
    }

    method PutWritten(f: StoredFile, now: int, content: Bytes) returns (ghost added: LinkedList.Elem)
      requires Sound() && f.name in files.contents && files.contents[f.name] == f
      modifies f, this`filesNumb, this`sizeMB, this`maxFileStored, this`maxMBStored, filesFIFOQueue, filesFIFOQueue.nodes
      ensures Sound() && unchanged(files) && fresh(added) && filesFIFOQueue.nodes == old(filesFIFOQueue.nodes) + [added]
      ensures Abs() == StorageSpec.PutWritten(old(Abs()), now, f.name, content)
    {
      hide HashTable.Table.Valid, LinkedList.List.Valid, StorageSpec.UpdateStorage, Add64, StrncpyImage, Files;
      hide StorageSpec.PutWritten;
      ValueOf(f);
      PutWrittenIs(Abs(), now, f.name, content, f.Val());
      FillFile(f, StrncpyImage(content), |content|, now);
      added := Enqueue(f.name, |content|);
      UpdateStorage();
    }

    method PutAppended(f: StoredFile, now: int, content: Bytes)
      requires Sound() && f.name in files.contents && files.contents[f.name] == f
      modifies f, this`sizeMB, this`maxFileStored, this`maxMBStored
      ensures Sound() && unchanged(files) && unchanged(filesFIFOQueue)
      ensures Abs() == StorageSpec.PutAppended(old(Abs()), now, f.name, content)
    {
      hide HashTable.Table.Valid, LinkedList.List.Valid, StorageSpec.UpdateStorage, Add64;
      FillFile(f, f.content + content, Add64(f.size, |content|), now);
      sizeMB := Add64(sizeMB, |content|);
      UpdateStorage();
    }

    method FinishWrite(f: StoredFile, now: int, content: Bytes)
      returns (victims: seq<Entry>, ghost kept: seq<LinkedList.Elem>, ghost added: LinkedList.Elem)
      requires Valid() && f.name in files.contents && files.contents[f.name] == f
      requires var room := EvictUntilFits(Abs(), |content|); room.Evicted? && f.name in room.store.files
      modifies this, f, files, files.buckets, files.entries, filesFIFOQueue, filesFIFOQueue.nodes
      ensures Sound() && files.entries == old(files.entries)
      ensures forall n :: n in files.contents ==> n in old(files.contents) && files.contents[n] == old(files.contents)[n]
      ensures fresh(added) && filesFIFOQueue.nodes == kept + [added]
      ensures forall i :: 0 <= i < |kept| ==> kept[i] in old(filesFIFOQueue.nodes)
      ensures EvictUntilFits(old(Abs()), |content|) == Evicted(EvictUntilFits(old(Abs()), |content|).store, victims)
      ensures Abs() == StorageSpec.PutWritten(EvictUntilFits(old(Abs()), |content|).store, now, f.name, content)
    {
      hide HashTable.Table.Valid, LinkedList.List.Valid, Inv, EvictUntilFits, StorageSpec.PutWritten;
      victims := MakeRoom(|content|);
      kept := filesFIFOQueue.nodes;
      assert f.name in Files();
      added := PutWritten(f, now, content);
    }

    /** The precondition names the inputs on which the source dereferences a null pointer or a freed file. */
    method WriteFile(client: nat, now: int, name: string, content: Bytes) returns (r: Response)
      requires Valid() && StorageSpec.WriteFile(Abs(), client, now, name, content).response.outcome != Undefined
      modifies this, files, files.buckets, files.entries, filesFIFOQueue, filesFIFOQueue.nodes, files.contents.Values
      ensures Sound() && Grown() && Result(Abs(), r) == StorageSpec.WriteFile(old(Abs()), client, now, name, content)
    {
      hide HashTable.Table.Valid, LinkedList.List.Valid, Inv, EvictUntilFits, StorageSpec.PutWritten;
      if content == [] { return Response(Failure(EINVAL), [], [], []); }
      var f := Find(name);
      if f == null { return Response(Failure(ENOENT), [], [], []); }
      if client !in f.whoOpened { return Response(Failure(EACCES), [], [], []); }
      if f.size != 0 { return Response(Failure(EEXIST), [], [], []); }
      if f.lockerClient != client { return Response(Failure(EACCES), [], [], []); }
      var victims, kept, added := FinishWrite(f, now, content);
      r := Response(Success, [], victims, victims);
    }

    method FinishAppend(f: StoredFile, now: int, content: Bytes) returns (victims: seq<Entry>)
      requires Valid() && f.name in files.contents && files.contents[f.name] == f
      requires var room := EvictUntilFits(Abs(), |content|); room.Evicted? && f.name in room.store.files
      modifies this, f, files, files.buckets, files.entries, filesFIFOQueue, filesFIFOQueue.nodes
      ensures Sound() && Grown()
      ensures EvictUntilFits(old(Abs()), |content|) == Evicted(EvictUntilFits(old(Abs()), |content|).store, victims)
      ensures Abs() == StorageSpec.PutAppended(EvictUntilFits(old(Abs()), |content|).store, now, f.name, content)
    {
      hide HashTable.Table.Valid, LinkedList.List.Valid, Inv, EvictUntilFits, StorageSpec.PutAppended;
      victims := MakeRoom(|content|);
      assert f.name in Files();
      PutAppended(f, now, content);
    }

    /** The victims are not handed to the caller; the response records them for the specification. */
    method AppendFile(client: nat, now: int, name: string, content: Bytes) returns (r: Response)
      requires Valid() && StorageSpec.AppendFile(Abs(), client, now, name, content).response.outcome != Undefined
      modifies this, files, files.buckets, files.entries, filesFIFOQueue, filesFIFOQueue.nodes, files.contents.Values
      ensures Sound() && Grown() && Result(Abs(), r) == StorageSpec.AppendFile(old(Abs()), client, now, name, content)
    {
      hide HashTable.Table.Valid, LinkedList.List.Valid, Inv, EvictUntilFits, StorageSpec.PutAppended;
      if content == [] { return Response(Failure(EINVAL), [], [], []); }
      var f := Find(name);
      if f == null { return Response(Failure(ENOENT), [], [], []); }
      if client !in f.whoOpened { return Response(Failure(EACCES), [], [], []); }
      if f.lockerClient == NOBODY || f.lockerClient == client {
        var victims := FinishAppend(f, now, content);
        r := Response(Success, [], [], victims);
      } else {
        r := Response(Failure(EACCES), [], [], []);
      }
    }

    // ----- reading many files -----

    /** One file of the queue: its copy, if the client may have it. */
    method ReadOne(f: StoredFile, client: nat, now: int) returns (copies: seq<Entry>)
      requires Sound() && f.name in files.contents && files.contents[f.name] == f
      modifies f
      ensures Sound() && files.contents == old(files.contents)
      ensures filesFIFOQueue.Names() == old(filesFIFOQueue.Names())
      ensures copies == if MayUse(old(f.Val()), client) then [Entry(f.name, old(f.content))] else []
      ensures Files() ==
        if MayUse(old(f.Val()), client) then old(Files())[f.name := old(f.Val()).(lastAccess := now)] else old(Files())
    {
      hide HashTable.Table.Valid, LinkedList.List.Valid;
      if f.lockerClient == client || f.lockerClient == NOBODY {
        copies := [Entry(f.name, f.content)];
        f.lastAccess := now;
        OneFileChanged(f);
      } else {
        copies := [];
      }
    }

    /** The file of one queue entry, and the entry after it. */
    method ReadNext(e: LinkedList.Elem, ghost i: nat, client: nat, now: int) returns (copies: seq<Entry>, next: LinkedList.Elem?)
      requires Sound() && Known() && i < |filesFIFOQueue.nodes| && e == filesFIFOQueue.nodes[i]
      modifies files.contents.Values
      ensures Sound() && Known() && files.contents == old(files.contents)
      ensures filesFIFOQueue.Names() == old(filesFIFOQueue.Names()) && e.info in old(Files())
      ensures next == if i + 1 < |filesFIFOQueue.nodes| then filesFIFOQueue.nodes[i + 1] else null
      ensures |copies| <= 1 && Visited(old(Files()), e.info, client, now, copies, Files())
    {
      hide HashTable.Table.Valid, LinkedList.List.Valid;
      var kFile := FileOf(e, i);
      copies := ReadOne(kFile, client, now);
      next := filesFIFOQueue.NextList(e, i);
    }

    /** The walk along the queue, until n files are read or the queue ends. */
    method ReadQueue(client: nat, now: int, n: int) returns (sent: seq<Entry>, ghost names: seq<string>)
      requires Sound() && Known() && filesFIFOQueue.nodes != []
      modifies files.contents.Values
      ensures Sound() && filesFIFOQueue.Names() == old(filesFIFOQueue.Names())
      ensures names == Take(Readable(old(Files()), old(filesFIFOQueue.Names()), client), n)
      ensures (forall k :: k in names ==> k in old(Files())) && sent == Entries(old(Files()), names)
      ensures Files() == Touch(old(Files()), names, now)
    {
      hide HashTable.Table.Valid, LinkedList.List.Valid, ReadSoFar, Visited;
      ghost var m, queue := Files(), filesFIFOQueue.Names();
      ghost var i := 0;
      var counter, maxReached := 0, false;
      sent, names := [], [];
      ReadSoFarInit(m, queue, client, now, n);
      var listElem := filesFIFOQueue.GetHead();
      while counter < n && !maxReached
        invariant Sound() && Known() && files.contents == old(files.contents) && filesFIFOQueue.Names() == queue
        invariant 0 <= i <= |queue| && counter == |names| && (maxReached <==> i == |queue|)
        invariant i < |queue| ==> listElem == filesFIFOQueue.nodes[i]
        invariant ReadSoFar(m, queue, client, now, n, i, names, sent, Files())
        decreases |queue| - i
      {
        ghost var before := Files();
        var copies, next := ReadNext(listElem, i, client, now);
        ReadSoFarStep(m, queue, client, now, n, i, names, sent, before, copies, Files());
        names := names + if copies == [] then [] else [listElem.info];
        sent := sent + copies;
        counter := counter + |copies|;
        listElem := next;
        i := i + 1;
        maxReached := listElem == null;
      }
      ReadSoFarDone(m, queue, client, now, n, i, names, sent, Files());
    }

    method ReadNFiles(client: nat, now: int, n: int) returns (r: Response)
      requires Sound() && QueueKnown(Abs())
      modifies files.contents.Values
      ensures Sound() && Grown() && Result(Abs(), r) == StorageSpec.ReadNFiles(old(Abs()), client, now, n)
    {
      hide HashTable.Table.Valid, LinkedList.List.Valid, Touch, Readable, Take;
      var wanted := n;
      if n <= 0 {
        if filesNumb > 0 {
          wanted := filesNumb;
        } else {
          return Response(Failure(ENOENT), [], [], []);
        }
      }
      var listElem := filesFIFOQueue.GetHead();
      if listElem == null { return Response(Failure(Unset), [], [], []); }
      KnownMeans();
      var sent, names := ReadQueue(client, now, wanted);
      r := Response(Success, [], sent, []);
    }

    // ----- any request -----

    lemma Ready()
      requires Valid()
      ensures QueueKnown(Abs()) && Distinct(filesFIFOQueue.Names())
    {
      assert Abs().queue == filesFIFOQueue.Names();
    }

    /** Every request does to the real structures what Step does to the abstract store. */
    method HandleOther(e: Event) returns (r: Response)
      requires Sound() && QueueKnown(Abs()) && !e.request.Write? && !e.request.Append? && !e.request.Remove?
      modifies files, files.buckets, files.contents.Values
      ensures Sound() && Grown() && Result(Abs(), r) == Step(old(Abs()), e)
    {
      hide HashTable.Table.Valid, LinkedList.List.Valid, QueueKnown, Grown;
      hide StorageSpec.OpenFile, StorageSpec.ReadFile, StorageSpec.ReadNFiles;
      hide StorageSpec.LockFile, StorageSpec.UnlockFile, StorageSpec.CloseFile;
      match e.request {
        case Open(name, create, lock) => r := OpenFile(e.client, e.now, name, create, lock);
        case Read(name) => r := ReadFile(e.client, e.now, name);
        case ReadN(n) => r := ReadNFiles(e.client, e.now, n);
        case Lock(name) => r := LockFile(e.client, e.now, name);
        case Unlock(name) => r := UnlockFile(e.client, name);
        case Close(name) => r := CloseFile(e.client, name);
      }
    }

    /** Every request does to the real structures what Step does to the abstract store. */
    method Handle(e: Event) returns (r: Response)
      requires Valid() && Sized(e.request) && Step(Abs(), e).response.outcome != Undefined
      modifies this, files, files.buckets, files.entries, filesFIFOQueue, filesFIFOQueue.nodes, files.contents.Values
      ensures Valid() && Grown() && Result(Abs(), r) == Step(old(Abs()), e)
    {
      StepInv(Abs(), e);
      Ready();
      hide HashTable.Table.Valid, LinkedList.List.Valid, Inv, Distinct, QueueKnown, Grown, Files;
      hide StorageSpec.WriteFile, StorageSpec.AppendFile, StorageSpec.RemoveFile;
      if e.request.Write? {
        r := WriteFile(e.client, e.now, e.request.name, e.request.content);
      } else if e.request.Append? {
        r := AppendFile(e.client, e.now, e.request.name, e.request.content);
      } else if e.request.Remove? {
        QueueRemovable(e.request.name);
        r := RemoveFile(e.client, e.request.name);
      } else {
        r := HandleOther(e);
      }
    }

    /** A whole run of requests, one after the other. */
    method Serve(run: seq<Event>)
      requires Valid() && Defined(Abs(), run)
      modifies this, files, files.buckets, files.entries, filesFIFOQueue, filesFIFOQueue.nodes, files.contents.Values
      ensures Valid() && Abs() == After(old(Abs()), run)
    {
      hide HashTable.Table.Valid, LinkedList.List.Valid, Inv, Step;
      var i := 0;
      while i < |run|
        invariant 0 <= i <= |run| && Valid() && Grown()
        invariant Defined(Abs(), run[i..]) && After(Abs(), run[i..]) == After(old(Abs()), run)
      {
        assert run[i..][1..] == run[i + 1..];
        var r := Handle(run[i]);
        i := i + 1;
      }
    }
  }
}
