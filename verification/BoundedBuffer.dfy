/**
 * The job queue of src/boundedBuffer.c as a monitor. One step is one stretch of code under
 * the mutex; the history of every job that went in and came out is kept beside the state.
 */
module JobQueueSpec {

  type Tid = nat

  /** Threads neither enqueueing nor dequeueing have no entry. A waiting producer keeps its job in hand. */
  datatype Phase =
    | FullWait(job: string) | FullWoken(job: string)
    | EmptyWait | EmptyWoken

  datatype State = State(size: nat, jobs: seq<string>, phase: map<Tid, Phase>, enqueued: seq<string>, dequeued: seq<string>)

  datatype Step = Enqueue(t: Tid, job: string) | Dequeue(t: Tid) | SpuriousWakeup(t: Tid)

  function Init(size: nat): State {
    State(size, [], map[], [], [])
  }

  predicate Asleep(p: Phase) {
    p.FullWait? || p.EmptyWait?
  }

  function WakeOne(p: Phase): Phase {
    match p
    case FullWait(job) => FullWoken(job)
    case EmptyWait => EmptyWoken
    case _ => p
  }

  function BroadcastFull(phase: map<Tid, Phase>): map<Tid, Phase> {
    map t | t in phase :: if phase[t].FullWait? then WakeOne(phase[t]) else phase[t]
  }

  function BroadcastEmpty(phase: map<Tid, Phase>): map<Tid, Phase> {
    map t | t in phase :: if phase[t].EmptyWait? then WakeOne(phase[t]) else phase[t]
  }

  predicate Enabled(q: State, a: Step) {
    match a
    case Enqueue(t, job) => t !in q.phase || q.phase[t] == FullWoken(job)
    case Dequeue(t) => t !in q.phase || q.phase[t].EmptyWoken?
    case SpuriousWakeup(t) => t in q.phase && Asleep(q.phase[t])
  }

  /** empty is broadcast on every enqueue; full only when a dequeue leaves the queue empty. */
  function Next(q: State, a: Step): State
    requires Enabled(q, a)
  {
    match a
    case Enqueue(t, job) =>
      if |q.jobs| == q.size then q.(phase := q.phase[t := FullWait(job)])
      else q.(jobs := q.jobs + [job], enqueued := q.enqueued + [job], phase := BroadcastEmpty(q.phase - {t}))
    case Dequeue(t) =>
      if q.jobs == [] then q.(phase := q.phase[t := EmptyWait])
      else
        var rest := q.(jobs := q.jobs[1..], dequeued := q.dequeued + [q.jobs[0]], phase := q.phase - {t});
        if rest.jobs == [] then rest.(phase := BroadcastFull(rest.phase)) else rest
    case SpuriousWakeup(t) => q.(phase := q.phase[t := WakeOne(q.phase[t])])
  }

  // ----- the invariant -----

  ghost predicate Inv(q: State) {
    && q.size > 0 && |q.jobs| <= q.size
    && q.enqueued == q.dequeued + q.jobs
    && (forall t :: t in q.phase && q.phase[t].FullWait? ==> q.jobs != [])
    && (forall t :: t in q.phase && q.phase[t].EmptyWait? ==> q.jobs == [])
  }

  lemma StepInv(q: State, a: Step)
    requires Inv(q) && Enabled(q, a)
    ensures Inv(Next(q, a))
  {
    if a.Dequeue? && q.jobs != [] {
      assert q.jobs == [q.jobs[0]] + q.jobs[1..];
    }
  }

  /** A job goes in at the end, and into the history, exactly when there is room; the oldest comes out exactly when there is one. */
  lemma JobsStep(q: State, a: Step)
    requires Inv(q) && Enabled(q, a)
    ensures Next(q, a).size == q.size
    ensures var q', goesIn, comesOut := Next(q, a), a.Enqueue? && |q.jobs| < q.size, a.Dequeue? && |q.jobs| > 0;
      && (goesIn ==> q'.jobs == q.jobs + [a.job] && q'.enqueued == q.enqueued + [a.job])
      && (comesOut ==> [q.jobs[0]] + q'.jobs == q.jobs && q'.dequeued == q.dequeued + [q.jobs[0]])
      && (!goesIn ==> q'.enqueued == q.enqueued) && (!comesOut ==> q'.dequeued == q.dequeued)
      && (!goesIn && !comesOut ==> q'.jobs == q.jobs)
  {
  }

  predicate SleepsIn(q: State, t: Tid) {
    t in q.phase && Asleep(q.phase[t])
  }

  /**
   * Who sleeps after a step: a producer that found the queue full, a consumer that found it empty, and every
   * sleeper but the one woken out of turn, the consumers once a job goes in, and the producers once the
   * last job comes out.
   */
  lemma SleepsIff(q: State, a: Step, t: Tid)
    requires Inv(q) && Enabled(q, a)
    ensures SleepsIn(Next(q, a), t) <==>
      if a.t == t then (a.Enqueue? && |q.jobs| == q.size) || (a.Dequeue? && |q.jobs| == 0)
      else SleepsIn(q, t) && !(q.phase[t].EmptyWait? && a.Enqueue? && |q.jobs| < q.size)
                          && !(q.phase[t].FullWait? && a.Dequeue? && |q.jobs| == 1)
  {
  }

  predicate Valid(q: State, run: seq<Step>)
    decreases |run|
  {
    run == [] || (Enabled(q, run[0]) && Valid(Next(q, run[0]), run[1..]))
  }

  function After(q: State, run: seq<Step>): State
    requires Valid(q, run)
    decreases |run|
  {
    if run == [] then q else After(Next(q, run[0]), run[1..])
  }

  /** In every interleaving of any number of threads what went in is what came out followed by what is queued. */
  lemma {:induction false} RunInv(q: State, run: seq<Step>)
    requires Inv(q) && Valid(q, run)
    ensures Inv(After(q, run)) && After(q, run).size == q.size
    decreases |run|
  {
    if run != [] {
      StepInv(q, run[0]);
      RunInv(Next(q, run[0]), run[1..]);
    }
  }

  /**
   * Producers and consumers are never stranded together: while a producer and a consumer
   * are both blocked in the queue, one of the two kinds has a thread that is awake.
   */
  lemma NeverStrandedTogether(size: nat, run: seq<Step>, p: Tid, c: Tid)
    requires size > 0 && Valid(Init(size), run)
    requires var q := After(Init(size), run);
      && p in q.phase && (q.phase[p].FullWait? || q.phase[p].FullWoken?)
      && c in q.phase && (q.phase[c].EmptyWait? || q.phase[c].EmptyWoken?)
    ensures var q := After(Init(size), run); !Asleep(q.phase[p]) || !Asleep(q.phase[c])
  {
    RunInv(Init(size), run);
  }

  function Puts(t: Tid, jobs: seq<string>): seq<Step> {
    if jobs == [] then [] else [Enqueue(t, jobs[0])] + Puts(t, jobs[1..])
  }

  /** The queue takes as many jobs as its size says, one after the other, with nobody put to sleep. */
  lemma {:induction false} TakesAll(q: State, t: Tid, jobs: seq<string>)
    requires Inv(q) && |q.jobs| + |jobs| <= q.size && q.phase == map[]
    ensures Valid(q, Puts(t, jobs))
    ensures var e := After(q, Puts(t, jobs)); e.jobs == q.jobs + jobs && e.phase == map[]
    decreases |jobs|
  {
    if jobs == [] {
      assert q.jobs + [] == q.jobs;
    } else {
      var q' := Next(q, Enqueue(t, jobs[0]));
      StepInv(q, Enqueue(t, jobs[0]));
      assert q'.phase == map[];
      TakesAll(q', t, jobs[1..]);
      assert Puts(t, jobs)[1..] == Puts(t, jobs[1..]);
      assert q.jobs + jobs == q.jobs + [jobs[0]] + jobs[1..];
    }
  }

  // ----- what signalling full only at zero costs -----

  predicate NoEnqueueSucceeds(q: State, run: seq<Step>)
    requires Valid(q, run)
    decreases |run|
  {
    run == [] ||
    (!(run[0].Enqueue? && |q.jobs| < q.size) && NoEnqueueSucceeds(Next(q, run[0]), run[1..]))
  }

  function CountDequeues(q: State, run: seq<Step>): nat
    requires Valid(q, run)
    decreases |run|
  {
    if run == [] then 0
    else (if run[0].Dequeue? && q.jobs != [] then 1 else 0) + CountDequeues(Next(q, run[0]), run[1..])
  }

  /** A sleeping producer wakes for certain only once the whole queue has drained, one dequeue per job. */
  lemma {:induction false} SleeperWokenByDrain(q: State, run: seq<Step>, p: Tid)
    requires Inv(q) && Valid(q, run) && NoEnqueueSucceeds(q, run)
    requires p in q.phase && q.phase[p].FullWait?
    requires forall i :: 0 <= i < |run| ==> run[i] != SpuriousWakeup(p) && !(run[i].Enqueue? && run[i].t == p)
    ensures var e := After(q, run);
      && CountDequeues(q, run) <= |q.jobs|
      && p in e.phase
      && (e.phase[p].FullWait? <==> CountDequeues(q, run) < |q.jobs|)
      && (e.phase[p].FullWoken? <==> CountDequeues(q, run) == |q.jobs|)
    decreases |run|
  {
    if run != [] {
      var q' := Next(q, run[0]);
      StepInv(q, run[0]);
      if q'.phase[p].FullWait? {
        SleeperWokenByDrain(q', run[1..], p);
      } else {
        StaysWoken(q', run[1..], p);
      }
    }
  }

  lemma {:induction false} StaysWoken(q: State, run: seq<Step>, p: Tid)
    requires Inv(q) && Valid(q, run) && NoEnqueueSucceeds(q, run) && q.jobs == []
    requires p in q.phase && q.phase[p].FullWoken?
    requires forall i :: 0 <= i < |run| ==> !(run[i].Enqueue? && run[i].t == p)
    ensures CountDequeues(q, run) == 0 && p in After(q, run).phase && After(q, run).phase[p].FullWoken?
    decreases |run|
  {
    if run != [] {
      StepInv(q, run[0]);
      StaysWoken(Next(q, run[0]), run[1..], p);
    }
  }

  /** n rounds in which a consumer takes one job and another producer puts one in. */
  function Barging(n: nat): seq<Step> {
    if n == 0 then [] else [Dequeue(2), Enqueue(1, "b")] + Barging(n - 1)
  }

  /**
   * With more than one producer a sleeper can starve: however long the run, producer 0
   * stays asleep although the queue has had room n times, because it never drained.
   */
  lemma {:induction false} SleepingProducerCanStarve(q: State, n: nat)
    requires Inv(q) && q.size >= 2 && |q.jobs| == q.size
    requires 0 in q.phase && q.phase[0].FullWait? && 1 !in q.phase && 2 !in q.phase
    ensures Valid(q, Barging(n)) && |Barging(n)| == 2 * n
    ensures var e := After(q, Barging(n)); 0 in e.phase && e.phase[0].FullWait? && |e.enqueued| == |q.enqueued| + n
    decreases n
  {
    if n > 0 {
      var a, b, rest := Dequeue(2), Enqueue(1, "b"), Barging(n - 1);
      var q1 := Next(q, a);
      StepInv(q, a);
      var q2 := Next(q1, b);
      StepInv(q1, b);
      SleepingProducerCanStarve(q2, n - 1);
      assert Barging(n)[1..] == [b] + rest && ([b] + rest)[1..] == rest;
    }
  }

  /** Such a state is reachable: fill a queue of two and let producer 0 find it full. */
  lemma StarvationReachable()
    ensures var run := [Enqueue(1, "x"), Enqueue(1, "y"), Enqueue(0, "z")];
      && Valid(Init(2), run)
      && var q := After(Init(2), run); Inv(q) && |q.jobs| == 2 && q.phase == map[0 := FullWait("z")]
  {
    var a, b, c := Enqueue(1, "x"), Enqueue(1, "y"), Enqueue(0, "z");
    var q1 := Next(Init(2), a);
    var q2 := Next(q1, b);
    assert q1.phase == map[] && q2.phase == map[];
    var q3 := Next(q2, c);
    assert [a, b, c][1..] == [b, c] && [b, c][1..] == [c] && [c][1..] == [];
    assert Valid(q3, []) && Valid(q2, [c]) && Valid(q1, [b, c]);
    assert After(q2, [c]) == After(q3, []) == q3;
    assert After(q1, [b, c]) == q3;
    StepInv(Init(2), a);
    StepInv(q1, b);
    StepInv(q2, c);
  }
}

/** The ring of commands, changed in place. */
module BoundedBuffer {
  import opened JobQueueSpec

  lemma Wrap(x: nat, n: nat)
    requires 0 < n && x < 2 * n
    ensures x % n == if x < n then x else x - n
  {
  }

  class Buffer {
    const size: nat
    const commands: array<string>
    var jobNumber: nat
    var head: nat
    var tail: nat
    ghost var phase: map<Tid, Phase>
    ghost var enqueued: seq<string>
    ghost var dequeued: seq<string>

    ghost predicate Ring()
      reads `jobNumber, `head, `tail
    {
      && 0 < size == commands.Length
      && jobNumber <= size && tail < size
      && head == (tail + jobNumber) % size
    }

    /** The queued jobs, oldest first: slots from tail on, wrapping at the end of the array. */
    ghost function Jobs(): (r: seq<string>)
      requires Ring()
      reads `jobNumber, `head, `tail, commands
      ensures |r| == jobNumber
    {
      if tail + jobNumber <= size then commands[tail..tail + jobNumber]
      else commands[tail..] + commands[..tail + jobNumber - size]
    }

    ghost function Abs(): State
      requires Ring()
      reads this, commands
    {
      State(size, Jobs(), phase, enqueued, dequeued)
    }

    ghost predicate Valid()
      reads this, commands
    {
      Ring() && Inv(Abs())
    }

    constructor (size: nat)
      requires size > 0
      ensures Valid() && Abs() == Init(size) && fresh(commands)
    {
      this.size := size;
      commands := new string[size](_ => "");
      jobNumber, head, tail := 0, 0, 0;
      phase, enqueued, dequeued := map[], [], [];
    }

    method Put(job: string)
      requires Ring() && jobNumber < size
      modifies `jobNumber, `head, commands
      ensures Ring() && Jobs() == old(Jobs()) + [job] && jobNumber == old(jobNumber) + 1
    {
      ghost var before := Jobs();
      Wrap(tail + jobNumber, size);
      Wrap(head + 1, size);
      commands[head] := job;
      head := (head + 1) % size;
      jobNumber := jobNumber + 1;
      Wrap(tail + jobNumber, size);
      assert Jobs() == before + [job];
    }

    method Take() returns (job: string)
      requires Ring() && jobNumber > 0
      modifies `jobNumber, `tail
      ensures Ring() && [job] + Jobs() == old(Jobs()) && jobNumber == old(jobNumber) - 1
    {
      ghost var before := Jobs();
      Wrap(tail + jobNumber, size);
      Wrap(tail + 1, size);
      job := commands[tail];
      tail := (tail + 1) % size;
      jobNumber := jobNumber - 1;
      Wrap(tail + jobNumber, size);
      assert [job] + Jobs() == before;
    }

    /** One pass of enqueueBuffer: the job goes in, or the thread goes to sleep on full holding it. */
    method EnqueueBuffer(ghost t: Tid, job: string) returns (done: bool)
      requires Valid() && Enabled(Abs(), Enqueue(t, job))
      modifies this, commands
      ensures Valid() && Abs() == Next(old(Abs()), Enqueue(t, job))
      ensures done <==> old(jobNumber) < size
    {
      StepInv(Abs(), Enqueue(t, job));
      if size == jobNumber {
        phase := phase[t := FullWait(job)];
        return false;
      }
      Put(job);
      enqueued := enqueued + [job];
      phase := phase - {t};
      if jobNumber > 0 {
        phase := BroadcastEmpty(phase);
      }
      return true;
    }

    /** One pass of dequeueBuffer: the oldest job comes out, or the thread goes to sleep on empty. */
    method DequeueBuffer(ghost t: Tid) returns (done: bool, job: string)
      requires Valid() && Enabled(Abs(), Dequeue(t))
      modifies this
      ensures Valid() && Abs() == Next(old(Abs()), Dequeue(t))
      ensures done <==> old(jobNumber) > 0
      ensures done ==> job == old(Jobs())[0]
    {
      StepInv(Abs(), Dequeue(t));
      if jobNumber == 0 {
        phase := phase[t := EmptyWait];
        return false, "";
      }
      job := Take();
      assert Jobs() == old(Jobs())[1..];
      dequeued := dequeued + [job];
      phase := phase - {t};
      if jobNumber == 0 {
        phase := BroadcastFull(phase);
      }
      return true, job;
    }
  }
}
