/** Runs on which the store departs from its evident intention; the exact condition of each is proved elsewhere. */
module StorageFailures {
  import opened Bytes
  import opened StorageSpec
  import opened StorageInvariant
  import opened StorageEviction

  // ----- runs of client 4, step by step -----

  function Create(now: int, name: string): Event { Event(4, now, Open(name, true, true)) }

  function WriteOne(now: int, name: string, b: byte): Event { Event(4, now, Write(name, [b])) }

  /** A file created and locked by client 4 at a time. */
  function Empty(now: int): FileVal { FileVal(0, [], 4, [4], now) }

  function OneByte(now: int, b: byte): FileVal { FileVal(1, [b], 4, [4], now) }

  lemma Then(s: Store, e: Event, s': Store, rest: seq<Event>)
    requires Step(s, e).store == s'
    ensures After(s, [e] + rest) == After(s', rest)
  {
    assert ([e] + rest)[1..] == rest;
  }

  lemma CreateStep(s: Store, now: int, name: string)
    requires name !in s.files
    ensures Step(s, Create(now, name)) == Done(s.(files := s.files[name := Empty(now)]))
  {
  }

  /** A write of one byte that fits. */
  lemma WriteStep(s: Store, now: int, name: string, b: byte, created: int)
    requires name in s.files && s.files[name] == Empty(created) && Fits(s, 1)
    ensures var r := Step(s, WriteOne(now, name, b));
      && r.response == Response(Success, [], [], [])
      && r.store == UpdateStorage(s.(files := s.files[name := OneByte(now, b)], filesNumb := s.filesNumb + 1,
                                     sizeMB := Add64(s.sizeMB, 1), queue := s.queue + [name]))
  {
    assert EvictUntilFits(s, 1) == Evicted(s, []);
    assert StrncpyImage([b]) == [b] by { if b != 0 { assert StrncpyImage([]) == []; } }
  }

  // ----- counters -----

  /** Removing a file that was never written makes the store count minus one files. */
  lemma CounterBelowZero()
    ensures After(Init(1, 10, 0).value, [Create(0, "f"), Event(4, 0, Remove("f"))]).filesNumb == -1
  {
    var s := Init(1, 10, 0).value;
    var remove := Event(4, 0, Remove("f"));
    CreateStep(s, 0, "f");
    var s1 := Step(s, Create(0, "f")).store;
    var s2 := Step(s1, remove).store;
    Then(s, Create(0, "f"), s1, [remove]);
    Then(s1, remove, s2, []);
  }

  /** Appending to a file that was never written succeeds, and stores bytes that no counted or queued file has. */
  lemma AppendToUnwritten()
    ensures var s := After(Init(1, 10, 0).value, [Create(0, "f"), Event(4, 0, Append("f", [1]))]);
      && s.files == map["f" := OneByte(0, 1)] && s.queue == [] && s.filesNumb == 0 && s.sizeMB == 1
      && Inv(s) && !Accounting(s)
  {
    var s := Init(1, 10, 0).value;
    var create, append := Create(0, "f"), Event(4, 0, Append("f", [1]));
    CreateStep(s, 0, "f");
    var s1 := Step(s, create).store;
    assert EvictUntilFits(s1, 1) == Evicted(s1, []);
    var s2 := Step(s1, append).store;
    assert [] + [1 as byte] == [1];
    assert s1.files["f" := OneByte(0, 1)] == map["f" := OneByte(0, 1)];
    Then(s, create, s1, [append]);
    Then(s1, append, s2, []);
    InitAccounting(1, 10, 0);
    StepInv(s, create);
    StepInv(s1, append);
  }

  /**
   * Create a and b, write b, remove a: the file counter is back at zero, and a client that asks for
   * all files is told there are none although b is there for it to read.
   */
  lemma ReadAllMissesFile()
    ensures var s := After(Init(2, 10, 0).value,
                           [Create(0, "a"), Create(0, "b"), WriteOne(0, "b", 1), Event(4, 0, Remove("a"))]);
      && Step(s, Event(4, 0, ReadN(0))).response.outcome == Failure(ENOENT)
      && Readable(s.files, s.queue, 4) == ["b"]
  {
    var s0 := Init(2, 10, 0).value;
    var a, b, write, remove := Create(0, "a"), Create(0, "b"), WriteOne(0, "b", 1), Event(4, 0, Remove("a"));
    CreateStep(s0, 0, "a");
    var s1 := Step(s0, a).store;
    CreateStep(s1, 0, "b");
    var s2 := Step(s1, b).store;
    WriteStep(s2, 0, "b", 1, 0);
    var s3 := Step(s2, write).store;
    assert "a" !in s3.queue && s3.files["a"] == Empty(0);
    var s4 := Step(s3, remove).store;
    assert s4.queue == ["b"] && s4.filesNumb == 0 && s4.files["b"] == OneByte(0, 1);
    FourSteps(s0, a, s1, b, s2, write, s3, remove, s4);
    assert ["b"][1..] == [];
  }

  lemma FourSteps(s0: Store, a: Event, s1: Store, b: Event, s2: Store, c: Event, s3: Store, d: Event, s4: Store)
    requires Step(s0, a).store == s1 && Step(s1, b).store == s2 && Step(s2, c).store == s3 && Step(s3, d).store == s4
    ensures After(s0, [a, b, c, d]) == s4
  {
    hide Step;
    Then(s0, a, s1, [b, c, d]);
    Then(s1, b, s2, [c, d]);
    Then(s2, c, s3, [d]);
    Then(s3, d, s4, []);
    assert [a] + [b, c, d] == [a, b, c, d] && [b] + [c, d] == [b, c, d] && [c] + [d] == [c, d] && [d] + [] == [d];
  }

  // ----- eviction -----

  /** A write of more bytes than the whole store may hold runs getVictim on an empty queue. */
  lemma OversizedWriteUndefined()
    ensures var s := Step(Init(1, 1, 0).value, Create(0, "f")).store;
      Step(s, Event(4, 0, Write("f", [1, 2]))).response.outcome == Undefined
  {
    CreateStep(Init(1, 1, 0).value, 0, "f");
    var s := Step(Init(1, 1, 0).value, Create(0, "f")).store;
    assert EvictUntilFits(s, 2) == Stuck;
  }

  function OneByteStore(): Store {
    Store(map["f" := OneByte(0, 1)], ["f"], 1, 1, 1, 10, Fifo, 1, 1, 0)
  }

  lemma WriteF()
    ensures After(Init(1, 10, 0).value, [Create(0, "f"), WriteOne(0, "f", 1)]) == OneByteStore()
    ensures Accounting(OneByteStore())
  {
    var s0 := Init(1, 10, 0).value;
    var create, write := Create(0, "f"), WriteOne(0, "f", 1);
    CreateStep(s0, 0, "f");
    var s1 := Step(s0, create).store;
    WriteStep(s1, 0, "f", 1, 0);
    assert s1.files["f" := OneByte(0, 1)] == map["f" := OneByte(0, 1)];
    Then(s0, create, s1, [write]);
    Then(s1, write, OneByteStore(), []);
    InitAccounting(1, 10, 0);
    StepInv(s0, create);
    StepInv(s1, write);
  }

  /** Appending to the only file of a store of one file evicts that very file. */
  lemma AppendEvictsItsOwnFile()
    ensures var s := After(Init(1, 10, 0).value, [Create(0, "f"), WriteOne(0, "f", 1)]);
      Accounting(s) && Step(s, Event(4, 0, Append("f", [2]))).response.outcome == Undefined
  {
    WriteF();
    hide After, Accounting;
    FifoDrain(OneByteStore());
    AppendToQueuedUndefinedIff(OneByteStore(), 4, 0, [2], 0);
  }

  /**
   * Under LRU: write f at 1 and g at 3, read f at 5. The next file to need room throws out f, the
   * one just read, although g has not been used since 3.
   */
  lemma LruThrowsOutTheRecentFile()
    ensures var s := After(Init(2, 10, 1).value,
                           [Create(0, "f"), Create(0, "g"), WriteOne(1, "f", 1), WriteOne(3, "g", 2),
                            Event(4, 5, Read("f")), Create(6, "h")]);
      && "f" in s.files && s.files["f"].lastAccess == 5 && "g" in s.files && s.files["g"].lastAccess == 3
      && Step(s, WriteOne(6, "h", 3)).response == Response(Success, [], [Entry("f", [1])], [Entry("f", [1])])
  {
    var s0 := Init(2, 10, 1).value;
    var f, g, wf, wg, read, h :=
      Create(0, "f"), Create(0, "g"), WriteOne(1, "f", 1), WriteOne(3, "g", 2), Event(4, 5, Read("f")), Create(6, "h");
    CreateStep(s0, 0, "f");
    var s1 := Step(s0, f).store;
    CreateStep(s1, 0, "g");
    var s2 := Step(s1, g).store;
    WriteStep(s2, 1, "f", 1, 0);
    var s3 := Step(s2, wf).store;
    WriteStep(s3, 3, "g", 2, 0);
    var s4 := Step(s3, wg).store;
    var s5 := Step(s4, read).store;
    CreateStep(s5, 6, "h");
    var s6 := Step(s5, h).store;
    FourSteps(s0, f, s1, g, s2, wf, s3, wg, s4);
    TwoMore(s0, [f, g, wf, wg], s4, read, s5, h, s6);
    assert [f, g, wf, wg] + [read, h] == [f, g, wf, wg, read, h];
    assert s6.queue == ["f", "g"] && s6.files["f"] == FileVal(1, [1], 4, [4], 5) && s6.files["g"] == OneByte(3, 2);
    TwoQueued(s6);
    OneEviction(s6);
  }

  lemma {:induction false} TwoMore(s: Store, run: seq<Event>, mid: Store, a: Event, s1: Store, b: Event, s2: Store)
    requires After(s, run) == mid && Step(mid, a).store == s1 && Step(s1, b).store == s2
    ensures After(s, run + [a, b]) == s2
    decreases |run|
  {
    hide Step;
    if run == [] {
      Then(s, a, s1, [b]);
      Then(s1, b, s2, []);
      assert run + [a, b] == [a] + [b];
    } else {
      TwoMore(Step(s, run[0]).store, run[1..], mid, a, s1, b, s2);
      assert (run + [a, b])[1..] == run[1..] + [a, b];
    }
  }

  lemma TwoQueued(s: Store)
    requires s.queue == ["f", "g"] && s.repPolicy == Lru && QueueKnown(s) && "f" in s.files && "g" in s.files
    requires s.files["f"].lastAccess == 5 && s.files["g"].lastAccess == 3
    ensures VictimName(s) == "f"
  {
    assert Times(s.files, s.queue) == [5, 3];
    LruMissesSecond();
  }

  lemma OneEviction(s: Store)
    requires s.queue == ["f", "g"] && QueueKnown(s) && VictimName(s) == "f" && !Fits(s, 1)
    requires s.files["f"] == FileVal(1, [1], 4, [4], 5) && "h" in s.files && s.files["h"] == Empty(6)
    requires s.filesNumb == 2 && s.maxFiles == 2 && s.sizeMB == 2 && s.maxMB == 10
    ensures Step(s, WriteOne(6, "h", 3)).response == Response(Success, [], [Entry("f", [1])], [Entry("f", [1])])
  {
    var s' := Evict(s);
    assert Fits(s', 1) && "h" in s'.files;
    assert EvictUntilFits(s', 1) == Evicted(s', []);
    assert [VictimEntry(s)] + [] == [Entry("f", [1])];
  }

  // ----- LRU is not FIFO -----

  function ReadOne(now: int, name: string): Event { Event(4, now, Read(name)) }

  lemma ReadStep(s: Store, now: int, name: string, b: byte, written: int)
    requires name in s.files && s.files[name] == OneByte(written, b)
    ensures Step(s, ReadOne(now, name)).store == s.(files := s.files[name := OneByte(now, b)])
  {
  }

  /** Three written files, used last at 5, 4 and 3, and a new one. */
  function InUse(p: Policy): Store {
    Store(map["f" := OneByte(5, 1), "g" := OneByte(4, 2), "h" := OneByte(3, 3), "k" := Empty(6)], ["f", "g", "h"],
          3, 3, 3, 10, p, 3, 3, 0)
  }

  function UseThree(): seq<Event> {
    [Create(0, "f"), Create(0, "g"), Create(0, "h"), WriteOne(1, "f", 1), WriteOne(2, "g", 2), WriteOne(3, "h", 3),
     ReadOne(4, "g"), ReadOne(5, "f"), Create(6, "k")]
  }

  lemma {:induction false} Joined(s: Store, a: seq<Event>, b: seq<Event>)
    ensures After(s, a + b) == After(After(s, a), b)
    decreases |a|
  {
    hide Step;
    if a == [] {
      assert a + b == b;
    } else {
      assert (a + b)[1..] == a[1..] + b;
      Joined(Step(s, a[0]).store, a[1..], b);
    }
  }

  function JustWritten(p: Policy): Store {
    Store(map["f" := OneByte(1, 1), "g" := OneByte(2, 2), "h" := OneByte(3, 3)], ["f", "g", "h"], 3, 3, 3, 10, p, 3, 3, 0)
  }

  lemma ThreeWritten(p: int)
    ensures After(Init(3, 10, p).value,
                  [Create(0, "f"), Create(0, "g"), Create(0, "h"), WriteOne(1, "f", 1)] + [WriteOne(2, "g", 2), WriteOne(3, "h", 3)])
      == JustWritten(if p == 1 then Lru else Fifo)
  {
    var s0 := Init(3, 10, p).value;
    CreateStep(s0, 0, "f");
    var s1 := Step(s0, Create(0, "f")).store;
    CreateStep(s1, 0, "g");
    var s2 := Step(s1, Create(0, "g")).store;
    CreateStep(s2, 0, "h");
    var s3 := Step(s2, Create(0, "h")).store;
    WriteStep(s3, 1, "f", 1, 0);
    var s4 := Step(s3, WriteOne(1, "f", 1)).store;
    WriteStep(s4, 2, "g", 2, 0);
    var s5 := Step(s4, WriteOne(2, "g", 2)).store;
    WriteStep(s5, 3, "h", 3, 0);
    var s6 := Step(s5, WriteOne(3, "h", 3)).store;
    assert s6.files == map["f" := OneByte(1, 1), "g" := OneByte(2, 2), "h" := OneByte(3, 3)];
    hide Step, Init;
    FourSteps(s0, Create(0, "f"), s1, Create(0, "g"), s2, Create(0, "h"), s3, WriteOne(1, "f", 1), s4);
    TwoMore(s0, [Create(0, "f"), Create(0, "g"), Create(0, "h"), WriteOne(1, "f", 1)], s4, WriteOne(2, "g", 2), s5, WriteOne(3, "h", 3), s6);
  }

  lemma ThreeUsed(p: Policy)
    ensures After(JustWritten(p), [ReadOne(4, "g"), ReadOne(5, "f"), Create(6, "k")]) == InUse(p)
  {
    var s6 := JustWritten(p);
    ReadStep(s6, 4, "g", 2, 2);
    var s7 := Step(s6, ReadOne(4, "g")).store;
    ReadStep(s7, 5, "f", 1, 1);
    var s8 := Step(s7, ReadOne(5, "f")).store;
    CreateStep(s8, 6, "k");
    var s9 := Step(s8, Create(6, "k")).store;
    assert s9.files == InUse(p).files;
    hide Step;
    Then(s6, ReadOne(4, "g"), s7, [ReadOne(5, "f"), Create(6, "k")]);
    Then(s7, ReadOne(5, "f"), s8, [Create(6, "k")]);
    Then(s8, Create(6, "k"), s9, []);
    assert [ReadOne(4, "g")] + [ReadOne(5, "f"), Create(6, "k")] == [ReadOne(4, "g"), ReadOne(5, "f"), Create(6, "k")];
    assert [ReadOne(5, "f")] + [Create(6, "k")] == [ReadOne(5, "f"), Create(6, "k")] && [Create(6, "k")] + [] == [Create(6, "k")];
  }

  /** Whatever the policy, the run leads there. */
  lemma UsedThree(p: int)
    ensures After(Init(3, 10, p).value, UseThree()) == InUse(if p == 1 then Lru else Fifo)
  {
    hide Step, After, InUse, JustWritten;
    ThreeWritten(p);
    ThreeUsed(if p == 1 then Lru else Fifo);
    var six := [Create(0, "f"), Create(0, "g"), Create(0, "h"), WriteOne(1, "f", 1)] + [WriteOne(2, "g", 2), WriteOne(3, "h", 3)];
    Joined(Init(3, 10, p).value, six, [ReadOne(4, "g"), ReadOne(5, "f"), Create(6, "k")]);
    assert six + [ReadOne(4, "g"), ReadOne(5, "f"), Create(6, "k")] == UseThree();
  }

  /** Making room for k takes the one file the policy names. */
  lemma OneOfThree(p: Policy, v: string)
    requires v in {"f", "g", "h"} && QueueKnown(InUse(p)) && VictimName(InUse(p)) == v
    ensures Step(InUse(p), WriteOne(6, "k", 4)).response.listed == [Entry(v, InUse(p).files[v].content)]
  {
    var s := InUse(p);
    assert !Fits(s, 1);
    var s' := Evict(s);
    assert Fits(s', 1) && "k" in s'.files;
    assert EvictUntilFits(s', 1) == Evicted(s', []);
    assert [VictimEntry(s)] + [] == [Entry(v, s.files[v].content)];
  }

  /**
   * Three files are written in the order f, g, h and used last at 5, 4 and 3. The next to need room throws
   * out h, the last in the queue, in a store that was asked for policy 1, and f, the first, in any other.
   */
  lemma PolicyTells(p: int)
    ensures Step(After(Init(3, 10, p).value, UseThree()), WriteOne(6, "k", 4)).response.listed
      == if p == 1 then [Entry("h", [3])] else [Entry("f", [1])]
  {
    hide After, LruVictim, Step, UseThree, Init, VictimName, QueueKnown;
    UsedThree(p);
    VictimsOfThree();
    if p == 1 { OneOfThree(Lru, "h"); } else { OneOfThree(Fifo, "f"); }
  }

  lemma VictimsOfThree()
    ensures QueueKnown(InUse(Lru)) && VictimName(InUse(Lru)) == "h"
    ensures QueueKnown(InUse(Fifo)) && VictimName(InUse(Fifo)) == "f"
  {
    assert Times(InUse(Lru).files, InUse(Lru).queue) == [5, 4, 3];
    OfThree(5, 4, 3);
  }
}
