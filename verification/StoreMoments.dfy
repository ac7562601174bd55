/**
 * storageReadNFiles looks at one file after the other, under that file's lock alone, while other
 * workers lock, unlock, open, read and close files. Here is what such a reading answers and leaves
 * behind, and exactly when one moment explains it.
 */
module StoreMoments {
  import opened Sequences
  import opened StorageSpec
  import opened StorageRuns
  import opened StorageListing
  import opened StorageEffects

  /** What workers do to the store: a whole request at once, or, within readN, one look at one file. */
  datatype Item = Whole(event: Event) | Glance(t: nat, client: nat, now: int, name: string)

  /** The client may read the file it looks at. */
  predicate Sees(s: Store, i: Item)
    requires i.Glance?
  {
    i.name in s.files && MayUse(s.files[i.name], i.client)
  }

  function Do(s: Store, i: Item): Store {
    match i
    case Whole(e) => Step(s, e).store
    case Glance(_, _, now, name) => if Sees(s, i) then SetFile(s, name, s.files[name].(lastAccess := now)) else s
  }

  function Answer(s: Store, i: Item): Response {
    match i
    case Whole(e) => Step(s, e).response
    case Glance(_, _, _, name) =>
      Response(Success, [], if Sees(s, i) then [Entry(name, s.files[name].content)] else [], [])
  }

  function DoAll(s: Store, items: seq<Item>): Store
    decreases |items|
  {
    if items == [] then s else DoAll(Do(s, items[0]), items[1..])
  }

  function Answers(s: Store, items: seq<Item>): seq<Response>
    decreases |items|
  {
    if items == [] then [] else [Answer(s, items[0])] + Answers(Do(s, items[0]), items[1..])
  }

  /** The requests that hold the storage lock only for reading when they look a file up. */
  predicate Light(i: Item) {
    i.Glance? ||
    match i.event.request
    case Open(_, create, _) => !create
    case Write(_, _) => false
    case Append(_, _) => false
    case Remove(_) => false
    case _ => true
  }

  ghost predicate AllLight(items: seq<Item>) {
    forall i :: 0 <= i < |items| ==> Light(items[i])
  }

  predicate Mine(i: Item, t: nat) {
    i.Glance? && i.t == t
  }

  /** What the other workers do. */
  function Others(items: seq<Item>, t: nat): seq<Item> {
    if items == [] then []
    else (if Mine(items[0], t) then [] else [items[0]]) + Others(items[1..], t)
  }

  /** The store before the i-th item. */
  function At(s: Store, items: seq<Item>, i: nat): Store
    requires i <= |items|
  {
    DoAll(s, items[..i])
  }

  lemma {:induction false} DoAllSplit(s: Store, a: seq<Item>, b: seq<Item>)
    ensures DoAll(s, a + b) == DoAll(DoAll(s, a), b)
    decreases |a|
  {
    if a == [] {
      assert a + b == b;
    } else {
      assert (a + b)[1..] == a[1..] + b;
      DoAllSplit(Do(s, a[0]), a[1..], b);
    }
  }

  lemma AtSplit(s: Store, items: seq<Item>, i: nat, k: nat)
    requires i <= k <= |items|
    ensures DoAll(At(s, items, i), items[i..k]) == At(s, items, k)
  {
    assert items[..i] + items[i..k] == items[..k];
    DoAllSplit(s, items[..i], items[i..k]);
  }

  lemma AtNext(s: Store, items: seq<Item>, i: nat)
    requires i < |items|
    ensures At(s, items, i + 1) == At(Do(s, items[0]), items[1..], i)
  {
    assert items[..i + 1][1..] == items[1..][..i];
  }

  // ----- access times aside -----

  /** The same but for access times. */
  ghost predicate Upto(s: Store, s': Store) {
    && s' == s.(files := s'.files) && s'.files.Keys == s.files.Keys
    && forall n :: n in s.files ==> s'.files[n] == s.files[n].(lastAccess := s'.files[n].lastAccess)
  }

  lemma {:induction false} SameReadable(a: map<string, FileVal>, b: map<string, FileVal>, queue: seq<string>, c: int)
    requires a.Keys == b.Keys && forall n :: n in a ==> a[n].lockerClient == b[n].lockerClient
    ensures Readable(a, queue, c) == Readable(b, queue, c)
  {
    if queue != [] { SameReadable(a, b, queue[1..], c); }
  }

  function Wants(s: Store, n: int): int {
    if n <= 0 then s.filesNumb else n
  }

  lemma TouchUpto(s: Store, s': Store, names: seq<string>, now: int)
    requires Upto(s, s')
    ensures Upto(s.(files := Touch(s.files, names, now)), s'.(files := Touch(s'.files, names, now)))
    ensures Upto(s, s'.(files := Touch(s'.files, names, now)))
  {
  }

  lemma ListingUpto(s: Store, s': Store, e: Event)
    requires Upto(s, s') && e.request.ReadN?
    ensures Upto(Step(s, e).store, Step(s', e).store) && Step(s, e).response == Step(s', e).response
    ensures Upto(s, Step(s', e).store)
  {
    SameReadable(s.files, s'.files, s.queue, e.client);
    var names := Take(Readable(s.files, s.queue, e.client), Wants(s, e.request.n));
    ReadableKnown(s.files, s.queue, e.client);
    assert Entries(s.files, names) == Entries(s'.files, names);
    TouchUpto(s, s', names, e.now);
    hide Upto, Readable, Take, Touch;
  }

  lemma FileUpto(s: Store, s': Store, e: Event)
    requires Upto(s, s') && Light(Whole(e)) && !e.request.ReadN?
    ensures Upto(Step(s, e).store, Step(s', e).store) && Step(s, e).response == Step(s', e).response
  {
    assert e.request.name in s.files ==> s'.files[e.request.name].whoOpened == s.files[e.request.name].whoOpened;
  }

  /** No light item looks at access times. */
  lemma LightUpto(s: Store, s': Store, i: Item)
    requires Upto(s, s') && Light(i)
    ensures Upto(Do(s, i), Do(s', i)) && Answer(s, i) == Answer(s', i)
  {
    if i.Whole? {
      if i.event.request.ReadN? { ListingUpto(s, s', i.event); } else { FileUpto(s, s', i.event); }
    }
  }

  /** The answers to the others along a run that includes the worker's glances. */
  function AnswersBut(s: Store, items: seq<Item>, t: nat): seq<Response>
    decreases |items|
  {
    if items == [] then []
    else (if Mine(items[0], t) then [] else [Answer(s, items[0])]) + AnswersBut(Do(s, items[0]), items[1..], t)
  }

  /** Without the worker's glances the others get the same answers, and the store is the same but for access times. */
  lemma {:induction false} WithoutMine(s: Store, s': Store, items: seq<Item>, t: nat)
    requires Upto(s, s') && AllLight(items)
    ensures Upto(DoAll(s, items), DoAll(s', Others(items, t)))
    ensures AnswersBut(s, items, t) == Answers(s', Others(items, t))
    decreases |items|
  {
    if items != [] {
      if Mine(items[0], t) {
        assert Others(items, t) == Others(items[1..], t);
        WithoutMine(Do(s, items[0]), s', items[1..], t);
      } else {
        LightUpto(s, s', items[0]);
        WithoutMine(Do(s, items[0]), Do(s', items[0]), items[1..], t);
        assert Others(items, t)[1..] == Others(items[1..], t);
      }
    }
  }

  lemma {:induction false} ButSplit(s: Store, a: seq<Item>, b: seq<Item>, t: nat)
    ensures AnswersBut(s, a + b, t) == AnswersBut(s, a, t) + AnswersBut(DoAll(s, a), b, t)
    decreases |a|
  {
    if a == [] {
      assert a + b == b;
    } else {
      assert (a + b)[1..] == a[1..] + b;
      ButSplit(Do(s, a[0]), a[1..], b, t);
    }
  }

  // ----- the tour of readN -----

  /** The worker looks at the files of left in order, until wanted of them were readable or none is left. */
  ghost predicate Tours(s: Store, items: seq<Item>, t: nat, c: nat, left: seq<string>, wanted: int)
    decreases |items|
  {
    if items == [] then left == [] || wanted <= 0
    else if Mine(items[0], t) then
      && left != [] && wanted > 0 && items[0].name == left[0] && items[0].client == c
      && Tours(Do(s, items[0]), items[1..], t, c, left[1..], if Sees(s, items[0]) then wanted - 1 else wanted)
    else Tours(Do(s, items[0]), items[1..], t, c, left, wanted)
  }

  /** What it collects. */
  function Collected(s: Store, items: seq<Item>, t: nat): seq<Entry>
    decreases |items|
  {
    if items == [] then []
    else (if Mine(items[0], t) then Answer(s, items[0]).listed else []) + Collected(Do(s, items[0]), items[1..], t)
  }

  lemma {:induction false} CollectedFrom(s: Store, items: seq<Item>, t: nat, c: nat, left: seq<string>, wanted: int)
    requires Tours(s, items, t, c, left, wanted)
    ensures forall i :: 0 <= i < |Collected(s, items, t)| ==> Collected(s, items, t)[i].name in left
    decreases |items|
  {
    if items != [] {
      var mine := Mine(items[0], t);
      CollectedFrom(Do(s, items[0]), items[1..], t, c, if mine then left[1..] else left,
                    if mine && Sees(s, items[0]) then wanted - 1 else wanted);
    }
  }

  /** Every file the worker looked at was readable when it did exactly when it is in m. */
  ghost predicate Matches(s: Store, items: seq<Item>, t: nat, m: Store) {
    forall i :: 0 <= i < |items| && Mine(items[i], t) ==> (Sees(At(s, items, i), items[i]) <==> Sees(m, items[i]))
  }

  lemma MatchesNext(s: Store, items: seq<Item>, t: nat, m: Store)
    requires items != []
    ensures Matches(s, items, t, m) <==>
      (Mine(items[0], t) ==> (Sees(s, items[0]) <==> Sees(m, items[0]))) && Matches(Do(s, items[0]), items[1..], t, m)
  {
    var s', rest := Do(s, items[0]), items[1..];
    assert At(s, items, 0) == s;
    forall i: nat | i < |rest| ensures At(s', rest, i) == At(s, items, i + 1) && rest[i] == items[i + 1] {
      AtNext(s, items, i);
    }
    if Matches(s, items, t, m) {
      assert Mine(items[0], t) ==> (Sees(At(s, items, 0), items[0]) <==> Sees(m, items[0]));
      forall i: nat | i < |rest| && Mine(rest[i], t) ensures Sees(At(s', rest, i), rest[i]) <==> Sees(m, rest[i]) {
        assert Mine(items[i + 1], t);
      }
    } else {
      var i :| 0 <= i < |items| && Mine(items[i], t) && !(Sees(At(s, items, i), items[i]) <==> Sees(m, items[i]));
      if i > 0 { assert rest[i - 1] == items[i]; }
    }
  }

  /** What a readN at the store m lists of the files left to it. */
  function ListedAt(m: Store, left: seq<string>, c: nat, wanted: int): seq<Entry> {
    ReadableKnown(m.files, left, c);
    Entries(m.files, Take(Readable(m.files, left, c), wanted))
  }

  lemma ListedAtNext(m: Store, left: seq<string>, c: nat, wanted: int)
    requires left != [] && wanted > 0
    ensures var seen := left[0] in m.files && MayUse(m.files[left[0]], c);
      ListedAt(m, left, c, wanted) ==
        if seen then [Entry(left[0], m.files[left[0]].content)] + ListedAt(m, left[1..], c, wanted - 1)
        else ListedAt(m, left[1..], c, wanted)
  {
    ReadableKnown(m.files, left, c);
    ReadableKnown(m.files, left[1..], c);
  }

  lemma ListedAtFrom(m: Store, left: seq<string>, c: nat, wanted: int)
    ensures forall i :: 0 <= i < |ListedAt(m, left, c, wanted)| ==> ListedAt(m, left, c, wanted)[i].name in left
    ensures left == [] || wanted <= 0 ==> ListedAt(m, left, c, wanted) == []
  {
    ReadableKnown(m.files, left, c);
    var readable := Readable(m.files, left, c);
    assert forall i :: 0 <= i < |Take(readable, wanted)| ==> Take(readable, wanted)[i] == readable[i];
  }

  lemma HeadApart(e: Entry, xs: seq<Entry>, ys: seq<Entry>, left: seq<string>)
    requires e.name !in left && forall i :: 0 <= i < |ys| ==> ys[i].name in left
    ensures [e] + xs != ys
  {
    assert ([e] + xs)[0] == e && (ys != [] ==> ys[0].name in left);
  }

  lemma ConsSame(e: Entry, xs: seq<Entry>, ys: seq<Entry>)
    ensures [e] + xs == [e] + ys <==> xs == ys
  {
    assert ([e] + xs)[1..] == xs && ([e] + ys)[1..] == ys;
  }

  /** One glance at the head of what is left. */
  lemma GlanceMatches(s: Store, m: Store, i: Item, left: seq<string>, wanted: int, tail: seq<Entry>)
    requires i.Glance? && Distinct(left) && left != [] && wanted > 0 && i.name == left[0]
    requires i.name in s.files ==> i.name in m.files && m.files[i.name].content == s.files[i.name].content
    requires i.name in m.files ==> i.name in s.files
    requires forall k :: 0 <= k < |tail| ==> tail[k].name in left[1..]
    ensures Answer(s, i).listed + tail == ListedAt(m, left, i.client, wanted) <==>
      (Sees(s, i) <==> Sees(m, i))
      && tail == ListedAt(m, left[1..], i.client, if Sees(s, i) then wanted - 1 else wanted)
  {
    ListedAtNext(m, left, i.client, wanted);
    ListedAtFrom(m, left[1..], i.client, wanted);
    hide ListedAt;
    assert left[0] !in left[1..];
    if Sees(s, i) {
      var e := Entry(i.name, s.files[i.name].content);
      if Sees(m, i) { ConsSame(e, tail, ListedAt(m, left[1..], i.client, wanted - 1)); }
      else { HeadApart(e, tail, ListedAt(m, left[1..], i.client, wanted), left[1..]); }
    } else if Sees(m, i) {
      assert [] + tail == tail;
      HeadApart(Entry(i.name, m.files[i.name].content), ListedAt(m, left[1..], i.client, wanted - 1), tail, left[1..]);
    } else {
      assert [] + tail == tail;
    }
  }

  /** A light item leaves every file's content, and the table, as they are. */
  lemma LightKeeps(s: Store, i: Item)
    requires Light(i)
    ensures var s' := Do(s, i);
      && s' == s.(files := s'.files) && s'.files.Keys == s.files.Keys
      && forall n :: n in s.files ==> s'.files[n].content == s.files[n].content && s'.files[n].size == s.files[n].size
  {
    if i.Whole? && i.event.request.ReadN? { assert Upto(s, s); ListingUpto(s, s, i.event); }
  }

  ghost predicate SameContents(s: Store, m: Store) {
    m.files.Keys == s.files.Keys && forall n :: n in s.files ==> m.files[n].content == s.files[n].content
  }

  /**
   * What the tour collects is what a readN at the store m lists exactly when every file it looked
   * at was readable then if and only if it is in m.
   */
  lemma {:induction false} ListingIff(s: Store, items: seq<Item>, t: nat, c: nat, left: seq<string>, wanted: int, m: Store)
    requires AllLight(items) && Tours(s, items, t, c, left, wanted) && Distinct(left) && SameContents(s, m)
    ensures Collected(s, items, t) == ListedAt(m, left, c, wanted) <==> Matches(s, items, t, m)
    decreases |items|
  {
    if items == [] {
      ListedAtFrom(m, left, c, wanted);
    } else {
      var i, s', rest := items[0], Do(s, items[0]), items[1..];
      LightKeeps(s, i);
      MatchesNext(s, items, t, m);
      hide ListedAt, Matches;
      if Mine(i, t) {
        var wanted' := if Sees(s, i) then wanted - 1 else wanted;
        ListingIff(s', rest, t, c, left[1..], wanted', m);
        CollectedFrom(s', rest, t, c, left[1..], wanted');
        GlanceMatches(s, m, i, left, wanted, Collected(s', rest, t));
      } else {
        ListingIff(s', rest, t, c, left, wanted, m);
        assert Collected(s, items, t) == Collected(s', rest, t);
      }
    }
  }

  // ----- told by the requests answered in between -----

  /** Whether c may read the file after the item, given whether it may before: only an owner's coming or going tells. */
  function ReadableAfter(s: Store, i: Item, c: nat, name: string, before: bool): bool {
    if i.Whole? && Answer(s, i).outcome == Success then
      match i.event.request
      case Lock(n) => if n == name then i.event.client == c else before
      case Unlock(n) => n == name || before
      case Open(n, _, lock) => if n == name && lock then i.event.client == c else before
      case _ => before
    else before
  }

  function ReadableThrough(s: Store, items: seq<Item>, c: nat, name: string, before: bool): bool
    decreases |items|
  {
    if items == [] then before
    else ReadableThrough(Do(s, items[0]), items[1..], c, name, ReadableAfter(s, items[0], c, name, before))
  }

  lemma ReadableStep(s: Store, i: Item, c: nat, name: string)
    requires Light(i) && name in s.files
    ensures name in Do(s, i).files
    ensures MayUse(Do(s, i).files[name], c) == ReadableAfter(s, i, c, name, MayUse(s.files[name], c))
  {
    LightKeeps(s, i);
    if i.Whole? && i.event.request.ReadN? { assert Upto(s, s); ListingUpto(s, s, i.event); }
  }

  lemma {:induction false} ReadableRun(s: Store, items: seq<Item>, c: nat, name: string)
    requires AllLight(items) && name in s.files
    ensures name in DoAll(s, items).files
    ensures MayUse(DoAll(s, items).files[name], c) == ReadableThrough(s, items, c, name, MayUse(s.files[name], c))
    decreases |items|
  {
    if items != [] {
      ReadableStep(s, items[0], c, name);
      ReadableRun(Do(s, items[0]), items[1..], c, name);
    }
  }

  /**
   * The Lock, Unlock and locking Open requests answered from the lo-th item up to the hi-th leave the
   * file as readable to c as they found it.
   */
  ghost predicate Steady(s: Store, items: seq<Item>, lo: nat, hi: nat, c: nat, name: string)
    requires lo <= hi <= |items|
  {
    var m := At(s, items, lo);
    name in m.files && (MayUse(m.files[name], c) <==> ReadableThrough(m, items[lo..hi], c, name, MayUse(m.files[name], c)))
  }

  lemma {:induction false} KeysKept(s: Store, items: seq<Item>)
    requires AllLight(items)
    ensures DoAll(s, items).files.Keys == s.files.Keys && DoAll(s, items) == s.(files := DoAll(s, items).files)
    ensures SameContents(s, DoAll(s, items))
    decreases |items|
  {
    if items != [] {
      LightKeeps(s, items[0]);
      KeysKept(Do(s, items[0]), items[1..]);
    }
  }

  lemma SteadyIff(s: Store, items: seq<Item>, lo: nat, hi: nat, c: nat, name: string)
    requires AllLight(items) && lo <= hi <= |items| && name in s.files
    ensures name in At(s, items, lo).files && name in At(s, items, hi).files
    ensures Steady(s, items, lo, hi, c, name) <==>
      (MayUse(At(s, items, lo).files[name], c) <==> MayUse(At(s, items, hi).files[name], c))
  {
    KeysKept(s, items[..lo]);
    KeysKept(s, items[..hi]);
    ReadableRun(At(s, items, lo), items[lo..hi], c, name);
    AtSplit(s, items, lo, hi);
  }

  /** From each glance of the worker to the k-th item, or back, the requests in between leave its file as readable. */
  ghost predicate Undisturbed(s: Store, items: seq<Item>, t: nat, k: nat)
    requires k <= |items|
  {
    forall i :: 0 <= i < |items| && Mine(items[i], t) ==>
      Steady(s, items, if i < k then i else k, if i < k then k else i, items[i].client, items[i].name)
  }

  lemma {:induction false} GlancesKnown(s: Store, items: seq<Item>, t: nat, c: nat, left: seq<string>, wanted: int, i: nat)
    requires Tours(s, items, t, c, left, wanted) && i < |items| && Mine(items[i], t)
    ensures items[i].name in left && items[i].client == c
    decreases |items|
  {
    if i > 0 {
      var mine := Mine(items[0], t);
      GlancesKnown(Do(s, items[0]), items[1..], t, c, if mine then left[1..] else left,
                   if mine && Sees(s, items[0]) then wanted - 1 else wanted, i - 1);
    }
  }

  lemma MatchesIffUndisturbed(s: Store, items: seq<Item>, t: nat, c: nat, left: seq<string>, wanted: int, k: nat)
    requires AllLight(items) && Tours(s, items, t, c, left, wanted) && k <= |items|
    requires forall n :: n in left ==> n in s.files
    ensures Matches(s, items, t, At(s, items, k)) <==> Undisturbed(s, items, t, k)
  {
    forall i: nat | i < |items| && Mine(items[i], t)
      ensures Steady(s, items, if i < k then i else k, if i < k then k else i, items[i].client, items[i].name)
        <==> (Sees(At(s, items, i), items[i]) <==> Sees(At(s, items, k), items[i]))
    {
      GlancesKnown(s, items, t, c, left, wanted, i);
      SteadyIff(s, items, if i < k then i else k, if i < k then k else i, c, items[i].name);
    }
  }

  // ----- access times -----

  /** The item refreshes the file's access time. */
  ghost predicate Refreshed(s: Store, i: Item, name: string) {
    match i
    case Glance(_, _, _, n) => n == name && Sees(s, i)
    case Whole(e) =>
      name in s.files &&
      ((Ok(s, e) && Refreshes(s, e, name)) || (e.request.ReadN? && Listed(Step(s, e).response.listed, name)))
  }

  function When(i: Item): int {
    match i
    case Glance(_, _, now, _) => now
    case Whole(e) => e.now
  }

  /** The file's access time after the items, told by the others' requests: the time of the last to refresh it. */
  ghost function Stamp(s: Store, items: seq<Item>, t: nat, name: string, before: int): int
    decreases |items|
  {
    if items == [] then before
    else
      Stamp(Do(s, items[0]), items[1..], t, name,
            if !Mine(items[0], t) && Refreshed(s, items[0], name) then When(items[0]) else before)
  }

  lemma RefreshedStep(s: Store, i: Item, name: string)
    requires Light(i) && name in s.files
    ensures name in Do(s, i).files
    ensures Do(s, i).files[name].lastAccess == if Refreshed(s, i, name) then When(i) else s.files[name].lastAccess
  {
    LightKeeps(s, i);
    if i.Whole? {
      if i.event.request.ReadN? { ListingAccess(s, i.event, name); } else { LightAccess(s, i.event, name); }
    }
  }

  lemma RefreshedUpto(s: Store, s': Store, i: Item, name: string)
    requires Upto(s, s') && Light(i)
    ensures Refreshed(s, i, name) <==> Refreshed(s', i, name)
  {
    LightUpto(s, s', i);
    if i.Whole? { assert Ok(s, i.event) <==> Ok(s', i.event); }
  }

  lemma {:induction false} StampWithout(s: Store, s': Store, items: seq<Item>, t: nat, name: string)
    requires Upto(s, s') && AllLight(items) && name in s.files
    ensures name in DoAll(s', Others(items, t)).files
    ensures DoAll(s', Others(items, t)).files[name].lastAccess == Stamp(s, items, t, name, s'.files[name].lastAccess)
    decreases |items|
  {
    if items != [] {
      var i := items[0];
      LightUpto(s, s', i);
      RefreshedUpto(s, s', i, name);
      RefreshedStep(s', i, name);
      LightKeeps(s, i);
      if Mine(i, t) {
        assert Others(items, t) == Others(items[1..], t);
        StampWithout(Do(s, i), s', items[1..], t, name);
      } else {
        assert Others(items, t)[0] == i && Others(items, t)[1..] == Others(items[1..], t);
        StampWithout(Do(s, i), Do(s', i), items[1..], t, name);
      }
    }
  }

  /** None of the worker's glances refreshes the file. */
  ghost predicate Passes(s: Store, items: seq<Item>, t: nat, name: string) {
    forall i :: 0 <= i < |items| && Mine(items[i], t) && items[i].name == name ==> !Sees(At(s, items, i), items[i])
  }

  lemma PassesNext(s: Store, items: seq<Item>, t: nat, name: string)
    requires items != [] && Passes(s, items, t, name)
    ensures Mine(items[0], t) && items[0].name == name ==> !Sees(s, items[0])
    ensures Passes(Do(s, items[0]), items[1..], t, name)
  {
    assert At(s, items, 0) == s;
    var rest := items[1..];
    forall i: nat | i < |rest| && Mine(rest[i], t) && rest[i].name == name
      ensures !Sees(At(Do(s, items[0]), rest, i), rest[i])
    {
      AtNext(s, items, i);
      assert items[i + 1] == rest[i];
    }
  }

  lemma {:induction false} StampWith(s: Store, items: seq<Item>, t: nat, name: string)
    requires AllLight(items) && name in s.files && Passes(s, items, t, name)
    ensures name in DoAll(s, items).files
    ensures DoAll(s, items).files[name].lastAccess == Stamp(s, items, t, name, s.files[name].lastAccess)
    decreases |items|
  {
    if items != [] {
      RefreshedStep(s, items[0], name);
      PassesNext(s, items, t, name);
      StampWith(Do(s, items[0]), items[1..], t, name);
    }
  }

  /** Each file is looked at once. */
  lemma {:induction false} GlancedOnce(s: Store, items: seq<Item>, t: nat, c: nat, left: seq<string>, wanted: int, i: nat, k: nat)
    requires Tours(s, items, t, c, left, wanted) && Distinct(left)
    requires i < k < |items| && Mine(items[i], t) && Mine(items[k], t)
    ensures items[i].name != items[k].name
    decreases |items|
  {
    var mine := Mine(items[0], t);
    var left', wanted' := if mine then left[1..] else left, if mine && Sees(s, items[0]) then wanted - 1 else wanted;
    if i == 0 {
      assert items[1..][k - 1] == items[k];
      GlancesKnown(Do(s, items[0]), items[1..], t, c, left', wanted', k - 1);
    } else {
      assert items[1..][i - 1] == items[i] && items[1..][k - 1] == items[k];
      GlancedOnce(Do(s, items[0]), items[1..], t, c, left', wanted', i - 1, k - 1);
    }
  }

  // ----- a readN at one moment -----

  /**
   * For each file the tour listed: the last to refresh it since its glance, or else the glance, does so
   * at the time at which the last since the k-th item, or else a readN there, does.
   */
  ghost predicate Restamped(s: Store, items: seq<Item>, t: nat, k: nat, now: int)
    requires k <= |items|
  {
    forall i :: 0 <= i < |items| && Mine(items[i], t) && Sees(At(s, items, i), items[i]) ==>
      Stamp(At(s, items, i + 1), items[i + 1..], t, items[i].name, items[i].now)
        == Stamp(At(s, items, k), items[k..], t, items[i].name, now)
  }

  /** The store just before the k-th item, had the worker not looked at anything. */
  function Before(s: Store, items: seq<Item>, t: nat, k: nat): Store
    requires k <= |items|
  {
    DoAll(s, Others(items[..k], t))
  }

  /** The store in the end, had the readN been taken whole just before the k-th item. */
  function Moved(s: Store, items: seq<Item>, t: nat, k: nat, e: Event): Store
    requires k <= |items|
  {
    DoAll(Step(Before(s, items, t, k), e).store, Others(items[k..], t))
  }

  /** The items make up a tour of the worker for the readN e. */
  ghost predicate TourOf(s: Store, items: seq<Item>, t: nat, e: Event) {
    && e.request.ReadN? && s.queue != [] && Wants(s, e.request.n) > 0 && Distinct(s.queue) && QueueKnown(s)
    && AllLight(items) && Tours(s, items, t, e.client, s.queue, Wants(s, e.request.n))
  }

  lemma ListingIs(p: Store, e: Event)
    requires e.request.ReadN? && p.queue != [] && Wants(p, e.request.n) > 0
    ensures Step(p, e).response == Response(Success, [], ListedAt(p, p.queue, e.client, Wants(p, e.request.n)), [])
  {
  }

  lemma ListedAtUpto(m: Store, p: Store, left: seq<string>, c: nat, wanted: int)
    requires Upto(m, p)
    ensures ListedAt(m, left, c, wanted) == ListedAt(p, left, c, wanted)
  {
    SameReadable(m.files, p.files, left, c);
    ReadableKnown(m.files, left, c);
    var names := Take(Readable(m.files, left, c), wanted);
    assert Entries(m.files, names) == Entries(p.files, names);
  }

  lemma MomentBefore(s: Store, items: seq<Item>, t: nat, k: nat, e: Event)
    requires TourOf(s, items, t, e) && k <= |items|
    ensures var m, p := At(s, items, k), Before(s, items, t, k);
      && Upto(m, p) && Upto(m, Step(p, e).store) && SameContents(s, m) && m == s.(files := m.files)
      && Step(p, e).response == Response(Success, [], ListedAt(m, s.queue, e.client, Wants(s, e.request.n)), [])
  {
    var m, p := At(s, items, k), Before(s, items, t, k);
    assert Upto(s, s);
    WithoutMine(s, s, items[..k], t);
    KeysKept(s, items[..k]);
    assert p.queue == s.queue && p.filesNumb == s.filesNumb;
    hide Step, DoAll, Others, Tours, AnswersBut, Answers, Upto, SameContents, ListedAt;
    ListingUpto(m, p, e);
    ListingIs(p, e);
    ListedAtUpto(m, p, s.queue, e.client, Wants(s, e.request.n));
  }

  lemma MomentStore(s: Store, items: seq<Item>, t: nat, k: nat, e: Event)
    requires TourOf(s, items, t, e) && k <= |items|
    ensures Upto(DoAll(s, items), Moved(s, items, t, k, e))
    ensures AnswersBut(s, items, t) ==
      Answers(s, Others(items[..k], t)) + Answers(Step(Before(s, items, t, k), e).store, Others(items[k..], t))
  {
    var m, p := At(s, items, k), Before(s, items, t, k);
    assert AllLight(items[..k]) && AllLight(items[k..]);
    MomentBefore(s, items, t, k, e);
    hide Step, DoAll, Others, Tours, AnswersBut, Answers, SameContents, ListedAt, TourOf, AllLight;
    assert Upto(s, s);
    hide Upto;
    WithoutMine(s, s, items[..k], t);
    assert items[..k] + items[k..] == items;
    DoAllSplit(s, items[..k], items[k..]);
    WithoutMine(m, Step(p, e).store, items[k..], t);
    ButSplit(s, items[..k], items[k..], t);
  }

  lemma {:induction false} StampSplit(s: Store, a: seq<Item>, b: seq<Item>, t: nat, name: string, before: int)
    ensures Stamp(s, a + b, t, name, before) == Stamp(DoAll(s, a), b, t, name, Stamp(s, a, t, name, before))
    decreases |a|
  {
    if a == [] {
      assert a + b == b;
    } else {
      assert (a + b)[1..] == a[1..] + b;
      StampSplit(Do(s, a[0]), a[1..], b, t, name,
                 if !Mine(a[0], t) && Refreshed(s, a[0], name) then When(a[0]) else before);
    }
  }

  /** The access time after a readN at one moment. */
  lemma MovedStamp(s: Store, items: seq<Item>, t: nat, k: nat, e: Event, name: string)
    requires TourOf(s, items, t, e) && k <= |items| && name in s.files
    ensures name in At(s, items, k).files && name in Before(s, items, t, k).files
    ensures name in Step(Before(s, items, t, k), e).store.files && name in Moved(s, items, t, k, e).files
    ensures Moved(s, items, t, k, e).files[name].lastAccess
      == Stamp(At(s, items, k), items[k..], t, name, Step(Before(s, items, t, k), e).store.files[name].lastAccess)
  {
    MomentBefore(s, items, t, k, e);
    KeysKept(s, items[..k]);
    hide TourOf, Step, Before, DoAll, Others, Stamp, AnswersBut, Answers, ListedAt;
    StampWithout(At(s, items, k), Step(Before(s, items, t, k), e).store, items[k..], t, name);
  }

  lemma BeforeStamp(s: Store, items: seq<Item>, t: nat, k: nat, name: string)
    requires AllLight(items) && k <= |items| && name in s.files
    ensures name in Before(s, items, t, k).files
    ensures Before(s, items, t, k).files[name].lastAccess == Stamp(s, items[..k], t, name, s.files[name].lastAccess)
  {
    assert Upto(s, s);
    StampWithout(s, s, items[..k], t, name);
  }

  lemma StampCut(s: Store, items: seq<Item>, t: nat, k: nat, name: string)
    requires AllLight(items) && k <= |items| && name in s.files && Passes(s, items, t, name)
    ensures name in DoAll(s, items).files && name in Before(s, items, t, k).files
    ensures DoAll(s, items).files[name].lastAccess
      == Stamp(At(s, items, k), items[k..], t, name, Before(s, items, t, k).files[name].lastAccess)
  {
    BeforeStamp(s, items, t, k, name);
    StampWith(s, items, t, name);
    hide *;
    assert items[..k] + items[k..] == items;
    StampSplit(s, items[..k], items[k..], t, name, s.files[name].lastAccess);
  }

  /** A file the tour did not list: a readN at a moment that lists the same leaves it as the tour does. */
  lemma UnlistedSame(s: Store, items: seq<Item>, t: nat, k: nat, e: Event, name: string)
    requires TourOf(s, items, t, e) && k <= |items| && name in s.files
    requires Passes(s, items, t, name) && !Listed(Step(Before(s, items, t, k), e).response.listed, name)
    ensures name in DoAll(s, items).files && name in Moved(s, items, t, k, e).files
    ensures DoAll(s, items).files[name].lastAccess == Moved(s, items, t, k, e).files[name].lastAccess
  {
    MovedStamp(s, items, t, k, e, name);
    StampCut(s, items, t, k, name);
    hide Stamp, Moved, DoAll, Passes, Tours, Before, Step;
    ListingAccess(Before(s, items, t, k), e, name);
  }

  /** A file the tour listed: both leave it with the same access time exactly when the stamps agree. */
  lemma ListedSame(s: Store, items: seq<Item>, t: nat, k: nat, e: Event, i: nat)
    requires TourOf(s, items, t, e) && k <= |items| && i < |items| && Mine(items[i], t) && Sees(At(s, items, i), items[i])
    requires Listed(Step(Before(s, items, t, k), e).response.listed, items[i].name) && items[i].name in s.files
    ensures var name := items[i].name;
      && name in DoAll(s, items).files && name in Moved(s, items, t, k, e).files
      && (DoAll(s, items).files[name].lastAccess == Moved(s, items, t, k, e).files[name].lastAccess <==>
            Stamp(At(s, items, i + 1), items[i + 1..], t, name, items[i].now)
              == Stamp(At(s, items, k), items[k..], t, name, e.now))
  {
    var name := items[i].name;
    MovedStamp(s, items, t, k, e, name);
    ListingAccess(Before(s, items, t, k), e, name);
    TourStamp(s, items, t, e, i);
  }

  lemma TourStamp(s: Store, items: seq<Item>, t: nat, e: Event, i: nat)
    requires TourOf(s, items, t, e) && i < |items| && Mine(items[i], t) && Sees(At(s, items, i), items[i])
    requires items[i].name in s.files
    ensures items[i].name in DoAll(s, items).files
    ensures DoAll(s, items).files[items[i].name].lastAccess
      == Stamp(At(s, items, i + 1), items[i + 1..], t, items[i].name, items[i].now)
  {
    var name, m, rest := items[i].name, At(s, items, i + 1), items[i + 1..];
    AtSplit(s, items, i, i + 1);
    assert items[i..i + 1] == [items[i]] && items[i + 1..|items|] == rest && items[..|items|] == items;
    assert m == Do(At(s, items, i), items[i]);
    AtSplit(s, items, i + 1, |items|);
    KeysKept(s, items[..i + 1]);
    forall k: nat | k < |rest| && Mine(rest[k], t) ensures rest[k].name != name {
      assert items[i + 1 + k] == rest[k];
      GlancedOnce(s, items, t, e.client, s.queue, Wants(s, e.request.n), i, i + 1 + k);
    }
    assert m.files[name].lastAccess == items[i].now;
    StampWith(m, rest, t, name);
  }

  lemma ListedSplit(a: seq<Entry>, b: seq<Entry>, name: string)
    ensures Listed(a + b, name) <==> Listed(a, name) || Listed(b, name)
  {
    if i :| 0 <= i < |a| && a[i].name == name { assert (a + b)[i].name == name; }
    if i :| 0 <= i < |b| && b[i].name == name { assert (a + b)[|a| + i].name == name; }
    if i :| 0 <= i < |a + b| && (a + b)[i].name == name {
      if i < |a| { assert a[i].name == name; } else { assert b[i - |a|].name == name; }
    }
  }

  /** A file is in what the tour collects exactly when one of its glances saw the file readable. */
  lemma {:induction false} CollectedIff(s: Store, items: seq<Item>, t: nat, name: string)
    ensures Listed(Collected(s, items, t), name) <==> !Passes(s, items, t, name)
    decreases |items|
  {
    if items != [] {
      var s', rest := Do(s, items[0]), items[1..];
      var head := if Mine(items[0], t) then Answer(s, items[0]).listed else [];
      CollectedIff(s', rest, t, name);
      ListedSplit(head, Collected(s', rest, t), name);
      assert At(s, items, 0) == s;
      if !Passes(s', rest, t, name) {
        var i :| 0 <= i < |rest| && Mine(rest[i], t) && rest[i].name == name && Sees(At(s', rest, i), rest[i]);
        AtNext(s, items, i);
        assert items[i + 1] == rest[i];
      }
      if Passes(s, items, t, name) { PassesNext(s, items, t, name); }
      if Listed(head, name) { assert Mine(items[0], t) && items[0].name == name && Sees(s, items[0]); }
      if !Passes(s, items, t, name) && Passes(s', rest, t, name) {
        FirstGlanceSees(s, items, t, name);
        assert head[0].name == name;
      }
    }
  }

  lemma FirstGlanceSees(s: Store, items: seq<Item>, t: nat, name: string)
    requires items != [] && !Passes(s, items, t, name) && Passes(Do(s, items[0]), items[1..], t, name)
    ensures Mine(items[0], t) && items[0].name == name && Sees(s, items[0])
  {
    var i :| 0 <= i < |items| && Mine(items[i], t) && items[i].name == name && Sees(At(s, items, i), items[i]);
    assert At(s, items, 0) == s && (i > 0 ==> items[1..][i - 1] == items[i]);
    if i > 0 { AtNext(s, items, i - 1); }
  }

  lemma SameTimes(a: Store, b: Store)
    requires Upto(a, b) && forall n :: n in a.files ==> a.files[n].lastAccess == b.files[n].lastAccess
    ensures a == b
  {
    assert a.files == b.files;
  }

  lemma MovedIff(s: Store, items: seq<Item>, t: nat, k: nat, e: Event)
    requires TourOf(s, items, t, e) && k <= |items|
    requires Step(Before(s, items, t, k), e).response.listed == Collected(s, items, t)
    ensures Moved(s, items, t, k, e) == DoAll(s, items) <==> Restamped(s, items, t, k, e.now)
  {
    MomentStore(s, items, t, k, e);
    MomentBefore(s, items, t, k, e);
    KeysKept(s, items);
    forall i: nat | i < |items| && Mine(items[i], t)
      ensures items[i].name in s.files
    {
      GlancesKnown(s, items, t, e.client, s.queue, Wants(s, e.request.n), i);
    }
    var toured, moved := DoAll(s, items), Moved(s, items, t, k, e);
    if Restamped(s, items, t, k, e.now) {
      forall name | name in toured.files ensures toured.files[name].lastAccess == moved.files[name].lastAccess {
        CollectedIff(s, items, t, name);
        if Passes(s, items, t, name) {
          UnlistedSame(s, items, t, k, e, name);
        } else {
          var i :| 0 <= i < |items| && Mine(items[i], t) && items[i].name == name && Sees(At(s, items, i), items[i]);
          ListedSame(s, items, t, k, e, i);
        }
      }
      SameTimes(toured, moved);
    } else {
      var i :| 0 <= i < |items| && Mine(items[i], t) && Sees(At(s, items, i), items[i])
        && Stamp(At(s, items, i + 1), items[i + 1..], t, items[i].name, items[i].now)
          != Stamp(At(s, items, k), items[k..], t, items[i].name, e.now);
      CollectedIff(s, items, t, items[i].name);
      ListedSame(s, items, t, k, e, i);
    }
  }

  /**
   * readN, looking at one file after the other, has answered what it would have answered, taken whole
   * at a given moment, exactly when the Lock, Unlock and locking Open requests answered between that
   * moment and each of its glances leave the file as readable to its client; and it has then left
   * the same store exactly when its refreshing of access times at that moment would not show. The
   * others get the same answers in any case.
   */
  lemma MomentIff(s: Store, items: seq<Item>, t: nat, k: nat, e: Event)
    requires TourOf(s, items, t, e) && k <= |items|
    ensures Step(Before(s, items, t, k), e).response == Response(Success, [], Collected(s, items, t), []) <==>
      Undisturbed(s, items, t, k)
    ensures Undisturbed(s, items, t, k) ==>
      (Moved(s, items, t, k, e) == DoAll(s, items) <==> Restamped(s, items, t, k, e.now))
    ensures AnswersBut(s, items, t) ==
      Answers(s, Others(items[..k], t)) + Answers(Step(Before(s, items, t, k), e).store, Others(items[k..], t))
  {
    MomentStore(s, items, t, k, e);
    MomentBefore(s, items, t, k, e);
    var wanted := Wants(s, e.request.n);
    ListingIff(s, items, t, e.client, s.queue, wanted, At(s, items, k));
    MatchesIffUndisturbed(s, items, t, e.client, s.queue, wanted, k);
    hide Step, Moved, Before, Matches, Undisturbed, ListedAt, Collected, DoAll, AnswersBut, Answers;
    if Undisturbed(s, items, t, k) { MovedIff(s, items, t, k, e); }
  }

  /** The owners' comings and goings before a look, and among the requests taken before the readN, leave its file as readable. */
  ghost predicate Agrees(s: Store, items: seq<Item>, i: nat, before: seq<Item>)
    requires i < |items| && items[i].Glance? && items[i].name in s.files
  {
    var c, name := items[i].client, items[i].name;
    var first := MayUse(s.files[name], c);
    ReadableThrough(s, items[..i], c, name, first) == ReadableThrough(s, before, c, name, first)
  }

  /**
   * Whatever requests are taken before a whole readN, in whatever order: it lists what the tour collected
   * exactly when, for each look, the Lock, Unlock and locking Open requests among them leave the file as
   * readable as those answered before the look.
   */
  lemma AnyOrderIff(s: Store, items: seq<Item>, t: nat, e: Event, before: seq<Item>)
    requires TourOf(s, items, t, e) && AllLight(before)
    ensures forall i :: 0 <= i < |items| && Mine(items[i], t) ==> items[i].name in s.files
    ensures Step(DoAll(s, before), e).response == Response(Success, [], Collected(s, items, t), []) <==>
      forall i :: 0 <= i < |items| && Mine(items[i], t) ==> Agrees(s, items, i, before)
  {
    var m, wanted := DoAll(s, before), Wants(s, e.request.n);
    KeysKept(s, before);
    ListingIs(m, e);
    ListingIff(s, items, t, e.client, s.queue, wanted, m);
    forall i: nat | i < |items| && Mine(items[i], t)
      ensures items[i].name in s.files && (Agrees(s, items, i, before) <==> (Sees(At(s, items, i), items[i]) <==> Sees(m, items[i])))
    {
      GlancesKnown(s, items, t, e.client, s.queue, wanted, i);
      ReadableRun(s, items[..i], e.client, items[i].name);
      ReadableRun(s, before, e.client, items[i].name);
    }
  }

  // ----- readings that every moment, or no moment, explains -----

  /** The item lets an owner come or go at the file. */
  predicate ChangesOwner(s: Store, i: Item, name: string) {
    i.Whole? && Answer(s, i).outcome == Success &&
    match i.event.request
    case Lock(n) => n == name
    case Unlock(n) => n == name
    case Open(n, _, lock) => n == name && lock
    case _ => false
  }

  lemma {:induction false} NobodyComes(s: Store, items: seq<Item>, c: nat, name: string, before: bool)
    requires forall i :: 0 <= i < |items| ==> !ChangesOwner(At(s, items, i), items[i], name)
    ensures ReadableThrough(s, items, c, name, before) == before
    decreases |items|
  {
    if items != [] {
      assert At(s, items, 0) == s;
      forall i: nat | i < |items[1..]| ensures !ChangesOwner(At(Do(s, items[0]), items[1..], i), items[1..][i], name) {
        AtNext(s, items, i);
        assert items[1..][i] == items[i + 1];
      }
      NobodyComes(Do(s, items[0]), items[1..], c, name, before);
    }
  }

  lemma NobodyInPart(s: Store, items: seq<Item>, lo: nat, hi: nat, name: string, i: nat)
    requires lo <= hi <= |items| && i < hi - lo
    requires !ChangesOwner(At(s, items, lo + i), items[lo + i], name)
    ensures !ChangesOwner(At(At(s, items, lo), items[lo..hi], i), items[lo..hi][i], name)
  {
    var part, early := items[lo..hi], items[lo..lo + i];
    assert |part[..i]| == |early| && forall k :: 0 <= k < i ==> part[..i][k] == items[lo + k] == early[k];
    assert part[..i] == early;
    AtSplit(s, items, lo, lo + i);
  }

  lemma NobodyBetween(s: Store, items: seq<Item>, lo: nat, hi: nat, c: nat, name: string)
    requires lo <= hi <= |items| && AllLight(items) && name in s.files
    requires forall i :: 0 <= i < |items| ==> !ChangesOwner(At(s, items, i), items[i], name)
    ensures Steady(s, items, lo, hi, c, name)
  {
    KeysKept(s, items[..lo]);
    hide ChangesOwner, Do, DoAll, ReadableThrough;
    forall i: nat | i < |items[lo..hi]| ensures !ChangesOwner(At(At(s, items, lo), items[lo..hi], i), items[lo..hi][i], name) {
      NobodyInPart(s, items, lo, hi, name, i);
    }
    NobodyComes(At(s, items, lo), items[lo..hi], c, name, MayUse(At(s, items, lo).files[name], c));
  }

  /** If no owner comes or goes at a queued file meanwhile, every moment explains what readN answers. */
  lemma EveryMoment(s: Store, items: seq<Item>, t: nat, k: nat, e: Event)
    requires TourOf(s, items, t, e) && k <= |items|
    requires forall i, n :: 0 <= i < |items| && n in s.queue ==> !ChangesOwner(At(s, items, i), items[i], n)
    ensures Step(Before(s, items, t, k), e).response == Response(Success, [], Collected(s, items, t), [])
  {
    forall i: nat | i < |items| && Mine(items[i], t)
      ensures Steady(s, items, if i < k then i else k, if i < k then k else i, items[i].client, items[i].name)
    {
      GlancesKnown(s, items, t, e.client, s.queue, Wants(s, e.request.n), i);
      NobodyBetween(s, items, if i < k then i else k, if i < k then k else i, items[i].client, items[i].name);
    }
    assert Undisturbed(s, items, t, k);
    MomentIff(s, items, t, k, e);
  }

  /** Two written files, both open to one client, which has locked the second. */
  ghost predicate OneLocked(s: Store, a: string, b: string, owner: nat) {
    && s.queue == [a, b] && a != b && QueueKnown(s) && s.filesNumb == 2
    && OpenTo(s, a, owner) && OpenTo(s, b, owner)
    && s.files[a].lockerClient == NOBODY && s.files[b].lockerClient == owner
  }

  /** While the reader goes from the first file to the second, the owner locks the first and unlocks the second. */
  function Crossing(t: nat, a: string, b: string, owner: nat, reader: nat, now: int): seq<Item> {
    [Glance(t, reader, now, a), Whole(Event(owner, now, Lock(a))), Whole(Event(owner, now, Unlock(b))), Glance(t, reader, now, b)]
  }

  lemma CrossingRun(s: Store, t: nat, a: string, b: string, owner: nat, reader: nat, now: int)
    requires OneLocked(s, a, b, owner) && reader != owner
    ensures var items := Crossing(t, a, b, owner, reader, now);
      && Tours(s, items, t, reader, s.queue, 2)
      && Collected(s, items, t) == [Entry(a, s.files[a].content), Entry(b, s.files[b].content)]
  {
    var items := Crossing(t, a, b, owner, reader, now);
    var s1 := Do(s, items[0]);
    var s2 := Do(s1, items[1]);
    var s3 := Do(s2, items[2]);
    var s4 := Do(s3, items[3]);
    assert items[1..] == [items[1], items[2], items[3]] && items[2..] == [items[2], items[3]] && items[3..] == [items[3]];
    assert s.queue[1..] == [b] && [b][1..] == [];
    assert Tours(s4, [], t, reader, [], 0) && Collected(s4, [], t) == [];
    assert items[3..][1..] == [] && items[2..][1..] == items[3..] && items[1..][1..] == items[2..];
    assert Tours(s3, items[3..], t, reader, [b], 1) && Collected(s3, items[3..], t) == [Entry(b, s.files[b].content)];
    assert Tours(s2, items[2..], t, reader, [b], 1) && Collected(s2, items[2..], t) == Collected(s3, items[3..], t);
    assert Tours(s1, items[1..], t, reader, [b], 1) && Collected(s1, items[1..], t) == Collected(s2, items[2..], t);
  }

  lemma OthersCons(i: Item, rest: seq<Item>, t: nat)
    ensures Others([i] + rest, t) == (if Mine(i, t) then [] else [i]) + Others(rest, t)
  {
    assert ([i] + rest)[1..] == rest;
  }

  lemma CrossingOthers(t: nat, a: string, b: string, owner: nat, reader: nat, now: int, k: nat)
    requires k <= 4
    ensures var items := Crossing(t, a, b, owner, reader, now);
      Others(items[..k], t) == if k <= 1 then [] else if k == 2 then [items[1]] else [items[1], items[2]]
  {
    var items := Crossing(t, a, b, owner, reader, now);
    var first, lock, unlock, last := items[0], items[1], items[2], items[3];
    assert items == [first] + ([lock] + ([unlock] + ([last] + []))) && Others([], t) == [];
    hide Others;
    OthersCons(last, [], t);
    if k == 1 {
      assert items[..1] == [first] + [];
      OthersCons(first, [], t);
    } else if k == 2 {
      assert items[..2] == [first] + ([lock] + []);
      OthersCons(lock, [], t);
      OthersCons(first, [lock] + [], t);
    } else if k == 3 {
      assert items[..3] == [first] + ([lock] + ([unlock] + []));
      OthersCons(unlock, [], t);
      OthersCons(lock, [unlock] + [], t);
      OthersCons(first, [lock] + ([unlock] + []), t);
    } else if k == 4 {
      assert items[..4] == items;
      OthersCons(unlock, [last] + [], t);
      OthersCons(lock, [unlock] + ([last] + []), t);
      OthersCons(first, [lock] + ([unlock] + ([last] + [])), t);
    } else {
      assert items[..0] == [];
    }
  }

  lemma CrossingBefore(s: Store, t: nat, a: string, b: string, owner: nat, reader: nat, now: int, k: nat)
    requires k <= 4
    ensures var items := Crossing(t, a, b, owner, reader, now);
      var locked := Step(s, Event(owner, now, Lock(a))).store;
      var unlocked := Step(locked, Event(owner, now, Unlock(b))).store;
      Before(s, items, t, k) == if k <= 1 then s else if k == 2 then locked else unlocked
  {
    hide Step, Others;
    var items := Crossing(t, a, b, owner, reader, now);
    var lock, unlock := items[1], items[2];
    CrossingOthers(t, a, b, owner, reader, now, k);
    assert [lock][1..] == [] && [unlock][1..] == [] && [lock, unlock][1..] == [unlock];
    assert DoAll(s, [lock]) == DoAll(Do(s, lock), []) == Do(s, lock);
    assert DoAll(Do(s, lock), [unlock]) == DoAll(Do(Do(s, lock), unlock), []);
    assert DoAll(s, [lock, unlock]) == DoAll(Do(s, lock), [unlock]);
  }

  /** readN lists both files, though before the Lock, between the two requests and after the Unlock it would list one at most. */
  lemma ListsWhatNoMomentShows(s: Store, t: nat, a: string, b: string, owner: nat, reader: nat, now: int)
    requires OneLocked(s, a, b, owner) && reader != owner
    ensures var items, e := Crossing(t, a, b, owner, reader, now), Event(reader, now, ReadN(0));
      && TourOf(s, items, t, e) && |Collected(s, items, t)| == 2
      && forall k :: 0 <= k <= 4 ==> |Step(Before(s, items, t, k), e).response.listed| <= 1 && !Undisturbed(s, items, t, k)
  {
    var items, e := Crossing(t, a, b, owner, reader, now), Event(reader, now, ReadN(0));
    CrossingRun(s, t, a, b, owner, reader, now);
    assert TourOf(s, items, t, e);
    var locked := Step(s, Event(owner, now, Lock(a))).store;
    var unlocked := Step(locked, Event(owner, now, Unlock(b))).store;
    TwoReadable(s, a, b, reader);
    TwoReadable(locked, a, b, reader);
    TwoReadable(unlocked, a, b, reader);
    forall k | 0 <= k <= 4
      ensures |Step(Before(s, items, t, k), e).response.listed| <= 1 && !Undisturbed(s, items, t, k)
    {
      CrossingBefore(s, t, a, b, owner, reader, now, k);
      MomentIff(s, items, t, k, e);
    }
  }

  lemma TwoReadable(s: Store, a: string, b: string, c: nat)
    requires s.queue == [a, b] && a in s.files && b in s.files
    ensures Readable(s.files, s.queue, c) ==
      (if MayUse(s.files[a], c) then [a] else []) + (if MayUse(s.files[b], c) then [b] else [])
  {
    assert s.queue[1..] == [b] && [b][1..] == [];
    assert Readable(s.files, [b], c) == if MayUse(s.files[b], c) then [b] else [];
  }
}
