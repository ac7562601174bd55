/** What storageReadNFiles answers, told by positions in the queue. */
module StorageListing {
  import opened StorageSpec
  import opened StorageInvariant

  /** at lists, in order, exactly the positions of the queue that hold files c may read. */
  ghost predicate ReadablePositions(s: Store, c: int, at: seq<nat>) {
    && (forall i, j :: 0 <= i < j < |at| ==> at[i] < at[j])
    && (forall i :: 0 <= i < |at| ==> at[i] < |s.queue|)
    && (forall k: nat :: k < |s.queue| ==> (k in at <==> s.queue[k] in s.files && MayUse(s.files[s.queue[k]], c)))
  }

  ghost predicate Picks(queue: seq<string>, at: seq<nat>, names: seq<string>) {
    |names| == |at| && forall i :: 0 <= i < |at| ==> at[i] < |queue| && names[i] == queue[at[i]]
  }

  /** The positions found in the tail of the queue, moved up by one, after the head's if it is readable. */
  ghost function Lift(at: seq<nat>, head: bool): (r: seq<nat>)
    ensures |r| == |at| + if head then 1 else 0
  {
    var up := seq(|at|, i requires 0 <= i < |at| => at[i] + 1);
    if head then [0] + up else up
  }

  lemma LiftFrom(at: seq<nat>, head: bool, i: nat)
    requires i < |Lift(at, head)|
    ensures Lift(at, head)[i] == if head && i == 0 then 0 else at[if head then i - 1 else i] + 1
  {
  }

  lemma LiftHas(at: seq<nat>, head: bool, k: nat)
    ensures k in Lift(at, head) <==> if k == 0 then head else (k - 1) as nat in at
  {
    hide Lift;
    var r, d := Lift(at, head), if head then 1 else 0;
    if k == 0 && head { LiftFrom(at, head, 0); assert r[0] == k; }
    if k > 0 && k - 1 in at {
      var i :| 0 <= i < |at| && at[i] == k - 1;
      LiftFrom(at, head, i + d);
      assert r[i + d] == k;
    }
    if k in r {
      var i :| 0 <= i < |r| && r[i] == k;
      LiftFrom(at, head, i);
    }
  }

  lemma {:induction false} Positions(s: Store, c: int) returns (at: seq<nat>)
    ensures ReadablePositions(s, c, at) && Picks(s.queue, at, Readable(s.files, s.queue, c))
    decreases |s.queue|
  {
    if s.queue == [] { return []; }
    var tail := s.(queue := s.queue[1..]);
    var rest := Positions(tail, c);
    var head := s.queue[0] in s.files && MayUse(s.files[s.queue[0]], c);
    at := Lift(rest, head);
    PositionsLift(s, c, rest, head);
    PicksLift(s, c, rest, head);
  }

  lemma LiftSorted(at: seq<nat>, head: bool)
    requires forall i, j :: 0 <= i < j < |at| ==> at[i] < at[j]
    ensures var r := Lift(at, head); forall i, j :: 0 <= i < j < |r| ==> r[i] < r[j]
  {
    hide Lift;
    var r := Lift(at, head);
    forall i, j | 0 <= i < j < |r| ensures r[i] < r[j] {
      LiftFrom(at, head, i);
      LiftFrom(at, head, j);
    }
  }

  lemma PositionsLift(s: Store, c: int, rest: seq<nat>, head: bool)
    requires s.queue != [] && (head <==> s.queue[0] in s.files && MayUse(s.files[s.queue[0]], c))
    requires ReadablePositions(s.(queue := s.queue[1..]), c, rest)
    ensures ReadablePositions(s, c, Lift(rest, head))
  {
    var at := Lift(rest, head);
    LiftSorted(rest, head);
    forall i | 0 <= i < |at| ensures at[i] < |s.queue| {
      LiftFrom(rest, head, i);
    }
    forall k: nat | k < |s.queue|
      ensures k in at <==> s.queue[k] in s.files && MayUse(s.files[s.queue[k]], c)
    {
      LiftHas(rest, head, k);
      if k > 0 { assert s.queue[k] == s.queue[1..][k - 1]; }
    }
  }

  lemma PicksLift(s: Store, c: int, rest: seq<nat>, head: bool)
    requires s.queue != [] && (head <==> s.queue[0] in s.files && MayUse(s.files[s.queue[0]], c))
    requires Picks(s.queue[1..], rest, Readable(s.files, s.queue[1..], c))
    ensures Picks(s.queue, Lift(rest, head), Readable(s.files, s.queue, c))
  {
    hide Lift;
    var at, names := Lift(rest, head), Readable(s.files, s.queue, c);
    forall i | 0 <= i < |at| ensures at[i] < |s.queue| && names[i] == s.queue[at[i]] {
      LiftFrom(rest, head, i);
    }
  }

  /** How many files a successful readN lists. */
  function Wanted(s: Store, n: int, readable: nat): nat {
    if n <= 0 || n > readable then readable else n
  }

  /**
   * With true accounts and a written file in the store, readN lists exactly the first n files, in
   * queue order, of those unlocked or locked by the caller, with their contents; all of them when
   * n is not positive or exceeds their number. Nothing but their access times changes.
   */
  lemma ReadNExact(s: Store, c: nat, now: int, n: int) returns (at: seq<nat>)
    requires Accounting(s) && s.queue != []
    ensures ReadablePositions(s, c, at)
    ensures var r := ReadNFiles(s, c, now, n);
      && r.response.outcome == Success && |r.response.listed| == Wanted(s, n, |at|)
      && (forall i :: 0 <= i < |r.response.listed| ==> CopyAt(s, at[i], r.response.listed[i]))
      && r.store == s.(files := r.store.files) && r.store.files.Keys == s.files.Keys
      && (forall name :: name in s.files && Listed(r.response.listed, name) ==>
            r.store.files[name] == s.files[name].(lastAccess := now))
      && (forall name :: name in s.files && !Listed(r.response.listed, name) ==> r.store.files[name] == s.files[name])
  {
    at := Positions(s, c);
    ListedAre(s, c, now, n);
    assert |at| <= |s.queue| by { Bounded(at, |s.queue|); }
  }

  /** e is the file at position k of the queue, with its content. */
  ghost predicate CopyAt(s: Store, k: nat, e: Entry) {
    k < |s.queue| && s.queue[k] in s.files && e == Entry(s.queue[k], s.files[s.queue[k]].content)
  }

  ghost predicate Listed(es: seq<Entry>, name: string) {
    exists i :: 0 <= i < |es| && es[i].name == name
  }

  lemma ListedAre(s: Store, c: nat, now: int, n: int)
    requires ReadNFiles(s, c, now, n).response.outcome == Success
    ensures var r := ReadNFiles(s, c, now, n); var names := Take(Readable(s.files, s.queue, c), if n <= 0 then s.filesNumb else n);
      && (forall i :: 0 <= i < |names| ==> names[i] in s.files)
      && r.response.listed == Entries(s.files, names)
      && forall name :: name in names <==> Listed(r.response.listed, name)
  {
    ReadableKnown(s.files, s.queue, c);
    var r, names := ReadNFiles(s, c, now, n), Take(Readable(s.files, s.queue, c), if n <= 0 then s.filesNumb else n);
    forall name | name in names ensures Listed(r.response.listed, name) {
      var i :| 0 <= i < |names| && names[i] == name;
      assert r.response.listed[i].name == name;
    }
  }

  lemma {:induction false} Bounded(at: seq<nat>, n: nat)
    requires forall i, j :: 0 <= i < j < |at| ==> at[i] < at[j]
    requires forall i :: 0 <= i < |at| ==> at[i] < n
    ensures |at| <= n
  {
    if at != [] {
      var k := |at| - 1;
      Bounded(at[..k], at[k]);
    }
  }

  /**
   * Asked for all files, readN lists every readable one exactly when the file counter is positive
   * and at least their number: once the counter has drifted below the queue, files can be missed.
   */
  lemma ReadAllIff(s: Store, c: nat, now: int, n: int)
    requires n <= 0 && s.queue != []
    ensures var r := ReadNFiles(s, c, now, n).response; var readable := Readable(s.files, s.queue, c);
      r.outcome == Success && |r.listed| == |readable| <==> s.filesNumb > 0 && s.filesNumb >= |readable|
  {
    ReadableKnown(s.files, s.queue, c);
  }
}
