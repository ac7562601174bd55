/**
 * The manager/worker protocol of src/server.c. A client descriptor is a token that moves
 * between the manager's select set, the manager's hand, the job queue, a worker and the pipe.
 */
module ServerSpec {
  import opened Bytes
  import opened Commands

  const BUFFERSIZE: nat := 256

  /** Closing: the worker has closed the descriptor and is about to send -1. */
  datatype Worker = Waiting | Serving(fd: nat) | Closing

  /** A message on the pipe: a descriptor to select on again, or -1. */
  datatype Message = Rearm(fd: nat) | Gone

  /**
   * online are the client descriptors open in the process; readSet is managerReadSet without the
   * listening socket and the pipe; ready is what the manager has still to visit of the last select;
   * lost are clients whose request no branch of the worker answers.
   */
  datatype State = State(
    online: set<nat>, readSet: set<nat>, ready: set<nat>, hand: Option<nat>,
    queue: seq<nat>, workers: seq<Worker>, pipe: seq<Message>, lost: set<nat>,
    clientsOnline: int, fdNum: int, socketFd: nat, pipeFd: nat, blockNewClients: bool, exited: bool)

  datatype Step =
    | Accept(fd: nat) | Select(fds: set<nat>) | PipeMessage | TakeRequest(fd: nat) | EnqueueJob
    | DequeueJob(w: nat) | Serve(w: nat, received: Received, previous: int) | Notify(w: nat)
    | Hangup | Exit

  function Init(socketFd: nat, pipeFd: nat, workers: nat): State {
    State({}, {}, {}, None, [], seq(workers, _ => Waiting), [], {}, 0, socketFd, socketFd, pipeFd, false, false)
  }

  predicate Serves(s: State, w: nat) {
    w < |s.workers| && s.workers[w].Serving?
  }

  predicate Enabled(s: State, a: Step) {
    && !s.exited
    && match a
       case Accept(fd) => s.hand == None && s.socketFd <= s.fdNum && fd !in s.online && fd > s.pipeFd && fd > s.socketFd
       case Select(fds) => s.hand == None && fds <= s.readSet && forall fd :: fd in fds ==> fd <= s.fdNum
       case PipeMessage => s.hand == None && s.pipe != [] && s.pipeFd <= s.fdNum
       case TakeRequest(fd) => s.hand == None && fd in s.ready && fd <= s.fdNum
       case EnqueueJob => s.hand.Some? && |s.queue| < BUFFERSIZE
       case DequeueJob(w) => w < |s.workers| && s.workers[w].Waiting? && s.queue != []
       case Serve(w, _, _) => Serves(s, w)
       case Notify(w) => w < |s.workers| && s.workers[w].Closing?
       case Hangup => true
       case Exit => s.hand == None && s.blockNewClients && s.clientsOnline == 0
  }

  function Max(a: int, b: int): int { if a > b then a else b }

  function Next(s: State, a: Step): State
    requires Enabled(s, a)
  {
    match a
    case Accept(fd) =>
      if s.blockNewClients then s
      else s.(online := s.online + {fd}, readSet := s.readSet + {fd},
              clientsOnline := s.clientsOnline + 1, fdNum := Max(s.fdNum, fd))
    case Select(fds) => s.(ready := fds)
    case PipeMessage =>
      var rest := s.(pipe := s.pipe[1..]);
      (match s.pipe[0]
       case Gone => rest.(clientsOnline := s.clientsOnline - 1)
       case Rearm(fd) => rest.(readSet := s.readSet + {fd}, fdNum := Max(s.fdNum, fd)))
    case TakeRequest(fd) =>
      s.(ready := s.ready - {fd}, readSet := s.readSet - {fd}, hand := Some(fd),
         fdNum := if fd == s.fdNum then fd - 1 else s.fdNum)
    case EnqueueJob => s.(queue := s.queue + [s.hand.value], hand := None)
    case DequeueJob(w) => s.(queue := s.queue[1..], workers := s.workers[w := Serving(s.queue[0])])
    case Serve(w, r, previous) =>
      (match FateOf(r, previous)
       case Answered => s.(workers := s.workers[w := Waiting], pipe := s.pipe + [Rearm(s.workers[w].fd)])
       case Left => s.(workers := s.workers[w := Closing], online := s.online - {s.workers[w].fd})
       case Dropped => s.(workers := s.workers[w := Waiting], lost := s.lost + {s.workers[w].fd}))
    case Notify(w) => s.(workers := s.workers[w := Waiting], pipe := s.pipe + [Gone])
    case Hangup => s.(blockNewClients := true)
    case Exit => s.(exited := true)
  }

  // ----- counting the tokens -----

  function One(b: bool): nat { if b then 1 else 0 }

  function Queued(q: seq<nat>, fd: nat): nat {
    if q == [] then 0 else One(q[0] == fd) + Queued(q[1..], fd)
  }

  function Served(ws: seq<Worker>, fd: nat): nat {
    if ws == [] then 0 else One(ws[0] == Serving(fd)) + Served(ws[1..], fd)
  }

  function InPipe(p: seq<Message>, fd: nat): nat {
    if p == [] then 0 else One(p[0] == Rearm(fd)) + InPipe(p[1..], fd)
  }

  function Gones(p: seq<Message>): nat {
    if p == [] then 0 else One(p[0].Gone?) + Gones(p[1..])
  }

  function Closings(ws: seq<Worker>): nat {
    if ws == [] then 0 else One(ws[0].Closing?) + Closings(ws[1..])
  }

  /** In how many places a client's token is: select set, manager, job queue, workers, pipe. */
  function Places(s: State, fd: nat): nat {
    One(fd in s.readSet) + One(s.hand == Some(fd)) + Queued(s.queue, fd) + Served(s.workers, fd) + InPipe(s.pipe, fd)
  }

  /** Each online client is in one place, or lost; no other descriptor is anywhere. */
  ghost predicate TokenInv(s: State) {
    forall fd: nat :: Places(s, fd) + One(fd in s.lost) == One(fd in s.online)
  }

  ghost predicate CountInv(s: State) {
    s.clientsOnline == |s.online| + Closings(s.workers) + Gones(s.pipe)
  }

  /** What select is told to watch covers what the manager waits for. */
  ghost predicate RangeInv(s: State) {
    && s.ready <= s.readSet
    && (forall fd :: fd in s.readSet ==> fd <= s.fdNum)
    && (forall fd :: fd in s.online ==> fd > s.pipeFd && fd > s.socketFd)
    && s.socketFd <= s.fdNum
    && (s.fdNum < s.pipeFd ==> s.online == {} && s.pipe == [] && Closings(s.workers) == 0)
  }

  ghost predicate Inv(s: State) {
    TokenInv(s) && CountInv(s) && RangeInv(s)
  }

  lemma {:induction false} NoneServed(n: nat, fd: nat)
    ensures Served(seq(n, _ => Waiting), fd) == 0 && Closings(seq(n, _ => Waiting)) == 0
  {
    if n > 0 {
      NoneServed(n - 1, fd);
      assert seq(n, _ => Waiting)[1..] == seq(n - 1, _ => Waiting);
    }
  }

  lemma InitInv(socketFd: nat, pipeFd: nat, workers: nat)
    ensures Inv(Init(socketFd, pipeFd, workers))
  {
    forall fd: nat ensures Places(Init(socketFd, pipeFd, workers), fd) == 0 { NoneServed(workers, fd); }
    NoneServed(workers, 0);
  }

  lemma {:induction false} WorkerUpdate(ws: seq<Worker>, i: nat, w: Worker, fd: nat)
    requires i < |ws|
    ensures Served(ws[i := w], fd) == Served(ws, fd) - One(ws[i] == Serving(fd)) + One(w == Serving(fd))
    ensures Closings(ws[i := w]) == Closings(ws) - One(ws[i].Closing?) + One(w.Closing?)
  {
    if i > 0 {
      WorkerUpdate(ws[1..], i - 1, w, fd);
      assert ws[i := w][1..] == ws[1..][i - 1 := w];
    } else {
      assert ws[i := w][1..] == ws[1..];
    }
  }

  lemma {:induction false} PipeAppend(p: seq<Message>, m: Message, fd: nat)
    ensures InPipe(p + [m], fd) == InPipe(p, fd) + One(m == Rearm(fd))
    ensures Gones(p + [m]) == Gones(p) + One(m.Gone?)
  {
    if p == [] {
      assert p + [m] == [m] && [m][1..] == [];
    } else {
      PipeAppend(p[1..], m, fd);
      assert (p + [m])[1..] == p[1..] + [m];
    }
  }

  lemma {:induction false} QueueAppend(q: seq<nat>, x: nat, fd: nat)
    ensures Queued(q + [x], fd) == Queued(q, fd) + One(x == fd)
  {
    if q == [] {
      assert q + [x] == [x] && [x][1..] == [];
    } else {
      QueueAppend(q[1..], x, fd);
      assert (q + [x])[1..] == q[1..] + [x];
    }
  }

  // ----- every step keeps the invariant -----

  lemma AcceptStepInv(s: State, fd: nat)
    requires Inv(s) && Enabled(s, Accept(fd))
    ensures Inv(Next(s, Accept(fd)))
  {
    var s' := Next(s, Accept(fd));
    if !s.blockNewClients {
      assert Places(s, fd) == 0;
      assert |s.online + {fd}| == |s.online| + 1;
      forall x: nat ensures Places(s', x) + One(x in s'.lost) == One(x in s'.online) {
        assert Places(s, x) + One(x in s.lost) == One(x in s.online);
      }
    }
  }

  lemma TakeStepInv(s: State, fd: nat)
    requires Inv(s) && Enabled(s, TakeRequest(fd))
    ensures Inv(Next(s, TakeRequest(fd)))
  {
    var s' := Next(s, TakeRequest(fd));
    assert Places(s, fd) > 0 && fd in s.online;
    forall x: nat ensures Places(s', x) == Places(s, x) { }
  }

  lemma EnqueueStepInv(s: State)
    requires Inv(s) && Enabled(s, EnqueueJob)
    ensures Inv(Next(s, EnqueueJob))
  {
    forall x: nat ensures Places(Next(s, EnqueueJob), x) == Places(s, x) {
      QueueAppend(s.queue, s.hand.value, x);
    }
  }

  lemma PipeStepInv(s: State)
    requires Inv(s) && Enabled(s, PipeMessage)
    ensures Inv(Next(s, PipeMessage))
  {
    if s.pipe[0].Rearm? {
      var fd := s.pipe[0].fd;
      assert Places(s, fd) > 0 && fd in s.online && fd !in s.readSet;
    }
    forall x: nat ensures Places(Next(s, PipeMessage), x) == Places(s, x) { }
  }

  lemma DequeueStepInv(s: State, w: nat)
    requires Inv(s) && Enabled(s, DequeueJob(w))
    ensures Inv(Next(s, DequeueJob(w)))
  {
    WorkerUpdate(s.workers, w, Serving(s.queue[0]), 0);
    forall x: nat ensures Places(Next(s, DequeueJob(w)), x) == Places(s, x) {
      WorkerUpdate(s.workers, w, Serving(s.queue[0]), x);
    }
  }

  lemma {:induction false} ServedHas(ws: seq<Worker>, w: nat, fd: nat)
    requires w < |ws| && ws[w] == Serving(fd)
    ensures Served(ws, fd) >= 1
  {
    if w > 0 { ServedHas(ws[1..], w - 1, fd); }
  }

  /** The client a worker serves is online and nowhere else. */
  lemma ServedOnline(s: State, w: nat)
    requires TokenInv(s) && Serves(s, w)
    ensures s.workers[w].fd in s.online && s.workers[w].fd !in s.lost && s.workers[w].fd !in s.readSet
  {
    ServedHas(s.workers, w, s.workers[w].fd);
    assert Places(s, s.workers[w].fd) >= 1;
  }

  lemma AnswerStepInv(s: State, w: nat, r: Received, previous: int)
    requires Inv(s) && Enabled(s, Serve(w, r, previous)) && FateOf(r, previous).Answered?
    ensures Inv(Next(s, Serve(w, r, previous)))
  {
    ServedOnline(s, w);
    WorkerUpdate(s.workers, w, Waiting, 0);
    PipeAppend(s.pipe, Rearm(s.workers[w].fd), 0);
    forall x: nat ensures Places(Next(s, Serve(w, r, previous)), x) == Places(s, x) {
      WorkerUpdate(s.workers, w, Waiting, x);
      PipeAppend(s.pipe, Rearm(s.workers[w].fd), x);
    }
  }

  lemma CloseStepInv(s: State, w: nat, r: Received, previous: int)
    requires Inv(s) && Enabled(s, Serve(w, r, previous)) && FateOf(r, previous).Left?
    ensures Inv(Next(s, Serve(w, r, previous)))
  {
    var s', fd := Next(s, Serve(w, r, previous)), s.workers[w].fd;
    ServedOnline(s, w);
    WorkerUpdate(s.workers, w, Closing, 0);
    assert s.online == s'.online + {fd};
    forall x: nat ensures Places(s', x) + One(x in s'.lost) == One(x in s'.online) {
      WorkerUpdate(s.workers, w, Closing, x);
      assert Places(s, x) + One(x in s.lost) == One(x in s.online);
    }
  }

  lemma NotifyStepInv(s: State, w: nat)
    requires Inv(s) && Enabled(s, Notify(w))
    ensures Inv(Next(s, Notify(w)))
  {
    WorkerUpdate(s.workers, w, Waiting, 0);
    PipeAppend(s.pipe, Gone, 0);
    ClosingsPositive(s.workers, w);
    forall x: nat ensures Places(Next(s, Notify(w)), x) == Places(s, x) {
      WorkerUpdate(s.workers, w, Waiting, x);
      PipeAppend(s.pipe, Gone, x);
    }
  }

  lemma {:induction false} ClosingsPositive(ws: seq<Worker>, w: nat)
    requires w < |ws| && ws[w].Closing?
    ensures Closings(ws) >= 1
  {
    if w > 0 { ClosingsPositive(ws[1..], w - 1); }
  }

  lemma MalformedStepInv(s: State, w: nat, r: Received, previous: int)
    requires Inv(s) && Enabled(s, Serve(w, r, previous)) && FateOf(r, previous).Dropped?
    ensures Inv(Next(s, Serve(w, r, previous)))
  {
    var s' := Next(s, Serve(w, r, previous));
    ServedOnline(s, w);
    WorkerUpdate(s.workers, w, Waiting, 0);
    forall x: nat ensures Places(s', x) + One(x in s'.lost) == One(x in s'.online) {
      WorkerUpdate(s.workers, w, Waiting, x);
      assert Places(s, x) + One(x in s.lost) == One(x in s.online);
    }
  }

  lemma StepInv(s: State, a: Step)
    requires Inv(s) && Enabled(s, a)
    ensures Inv(Next(s, a))
  {
    match a
    case Accept(fd) => AcceptStepInv(s, fd);
    case TakeRequest(fd) => TakeStepInv(s, fd);
    case EnqueueJob => EnqueueStepInv(s);
    case PipeMessage => PipeStepInv(s);
    case DequeueJob(w) => DequeueStepInv(s, w);
    case Serve(w, r, previous) =>
      match FateOf(r, previous) {
        case Answered => AnswerStepInv(s, w, r, previous);
        case Left => CloseStepInv(s, w, r, previous);
        case Dropped => MalformedStepInv(s, w, r, previous);
      }
    case Notify(w) => NotifyStepInv(s, w);
    case Select(_) => assert forall x: nat :: Places(Next(s, a), x) == Places(s, x);
    case Hangup => assert forall x: nat :: Places(Next(s, a), x) == Places(s, x);
    case Exit => assert forall x: nat :: Places(Next(s, a), x) == Places(s, x);
  }

  // ----- whole runs -----

  predicate Valid(s: State, run: seq<Step>)
    decreases |run|
  {
    run == [] || (Enabled(s, run[0]) && Valid(Next(s, run[0]), run[1..]))
  }

  function After(s: State, run: seq<Step>): State
    requires Valid(s, run)
    decreases |run|
  {
    if run == [] then s else After(Next(s, run[0]), run[1..])
  }

  /** With nobody counted as online nobody is selected on. */
  lemma NobodyOnline(s: State)
    requires Inv(s) && s.clientsOnline == 0
    ensures s.readSet == {}
  {
    forall fd: nat ensures fd !in s.readSet {
      assert Places(s, fd) + One(fd in s.lost) == One(fd in s.online);
    }
  }

  /** The step reads a request that no branch of the worker serves. */
  predicate ReadsMalformed(a: Step) {
    a.Serve? && Malformed(a.received, a.previous)
  }

  predicate SawMalformed(run: seq<Step>) {
    exists i :: 0 <= i < |run| && ReadsMalformed(run[i])
  }

  lemma {:induction false} RunInv(s: State, run: seq<Step>)
    requires Inv(s) && Valid(s, run)
    ensures Inv(After(s, run))
    decreases |run|
  {
    if run != [] {
      StepInv(s, run[0]);
      RunInv(Next(s, run[0]), run[1..]);
    }
  }

  lemma StepLost(s: State, a: Step)
    requires Inv(s) && Enabled(s, a)
    ensures s.lost <= Next(s, a).lost && (Next(s, a).lost == s.lost <==> !ReadsMalformed(a))
  {
    if a.Serve? { DroppedIffMalformed(a.received, a.previous); }
    if ReadsMalformed(a) {
      ServedOnline(s, a.w);
      assert s.workers[a.w].fd in Next(s, a).lost;
    }
  }

  lemma SawMalformedCons(run: seq<Step>)
    requires run != []
    ensures SawMalformed(run) <==> ReadsMalformed(run[0]) || SawMalformed(run[1..])
  {
    assert forall i :: 0 < i < |run| ==> run[i] == run[1..][i - 1];
    assert forall i :: 0 <= i < |run[1..]| ==> run[1..][i] == run[i + 1];
  }

  lemma {:induction false} LostIffMalformed(s: State, run: seq<Step>)
    requires Inv(s) && Valid(s, run)
    ensures s.lost <= After(s, run).lost
    ensures After(s, run).lost == s.lost <==> !SawMalformed(run)
    decreases |run|
  {
    if run != [] {
      var a := run[0];
      StepInv(s, a);
      StepLost(s, a);
      LostIffMalformed(Next(s, a), run[1..]);
      SawMalformedCons(run);
    }
  }

  /**
   * Conservation: in every run each online client is in exactly one place (select set, manager,
   * job queue, one worker, or pipe), exactly when no request in the run was malformed.
   */
  lemma TokensConserved(socketFd: nat, pipeFd: nat, workers: nat, run: seq<Step>)
    requires Valid(Init(socketFd, pipeFd, workers), run)
    ensures var s := After(Init(socketFd, pipeFd, workers), run);
      && ((forall fd: nat :: Places(s, fd) == One(fd in s.online)) <==> !SawMalformed(run))
      && s.clientsOnline == |s.online| + Closings(s.workers) + Gones(s.pipe)
  {
    var s0 := Init(socketFd, pipeFd, workers);
    InitInv(socketFd, pipeFd, workers);
    RunInv(s0, run);
    LostIffMalformed(s0, run);
    var s := After(s0, run);
    if s.lost != {} {
      var fd :| fd in s.lost;
      assert Places(s, fd) == 0 && fd in s.online;
    }
  }

  lemma {:induction false} ServedTwice(ws: seq<Worker>, w: nat, v: nat, fd: nat)
    requires w < v < |ws| && ws[w] == Serving(fd) && ws[v] == Serving(fd)
    ensures Served(ws, fd) >= 2
  {
    if w == 0 { ServedHas(ws[1..], v - 1, fd); } else { ServedTwice(ws[1..], w - 1, v - 1, fd); }
  }

  /** No two workers ever serve the same client. */
  lemma OneWorkerPerClient(s: State, w: nat, v: nat)
    requires Inv(s) && w < v < |s.workers| && s.workers[w].Serving? && s.workers[v].Serving?
    ensures s.workers[w].fd != s.workers[v].fd
  {
    var fd := s.workers[w].fd;
    assert Places(s, fd) + One(fd in s.lost) == One(fd in s.online);
    if s.workers[v].fd == fd { ServedTwice(s.workers, w, v, fd); }
  }

  /** A queue whose entries are in the set and counted once each is no longer than the set. */
  lemma {:induction false} QueueFits(q: seq<nat>, clients: set<nat>)
    requires forall fd: nat :: Queued(q, fd) <= One(fd in clients)
    ensures |q| <= |clients|
  {
    if q != [] {
      assert Queued(q, q[0]) >= 1;
      forall fd: nat ensures Queued(q[1..], fd) <= One(fd in clients - {q[0]}) {
        assert Queued(q, fd) <= One(fd in clients);
      }
      QueueFits(q[1..], clients - {q[0]});
      assert clients == clients - {q[0]} + {q[0]};
    }
  }

  /** With at most 256 clients the manager never blocks on a full job queue. */
  lemma ManagerNeverBlocks(s: State)
    requires Inv(s) && !s.exited && s.hand.Some? && |s.online| <= BUFFERSIZE
    ensures Enabled(s, EnqueueJob)
  {
    var h := s.hand.value;
    assert Places(s, h) >= 1;
    forall fd: nat ensures Queued(s.queue, fd) <= One(fd in s.online - {h}) {
      assert Places(s, fd) <= One(fd in s.online);
    }
    QueueFits(s.queue, s.online - {h});
    assert s.online == s.online - {h} + {h};
  }

  lemma {:induction false} WorkersShow(ws: seq<Worker>)
    requires Closings(ws) == 0 && forall fd: nat :: Served(ws, fd) == 0
    ensures forall w :: 0 <= w < |ws| ==> ws[w].Waiting?
  {
    if ws != [] {
      assert ws[0].Serving? ==> Served(ws, ws[0].fd) >= 1;
      forall fd: nat ensures Served(ws[1..], fd) == 0 { assert Served(ws, fd) == 0; }
      WorkersShow(ws[1..]);
      assert forall w :: 0 < w < |ws| ==> ws[1..][w - 1] == ws[w];
    }
  }

  lemma HeadsPlaced(s: State)
    ensures forall fd :: fd in s.readSet ==> Places(s, fd) > 0
    ensures s.queue != [] ==> Places(s, s.queue[0]) > 0
    ensures s.pipe != [] ==> s.pipe[0].Gone? || Places(s, s.pipe[0].fd) > 0
  {
  }

  /** A hang-up lets the server stop only when no request is queued, being served or awaiting re-arm. */
  lemma ExitDropsNothing(s: State)
    requires Inv(s) && Enabled(s, Exit)
    ensures s.online == {} && s.readSet == {} && s.queue == [] && s.hand == None && s.pipe == []
    ensures forall w :: 0 <= w < |s.workers| ==> s.workers[w].Waiting?
  {
    HeadsPlaced(s);
    assert |s.online| == 0;
    forall fd: nat ensures Places(s, fd) == 0 {
      assert Places(s, fd) + One(fd in s.lost) == One(fd in s.online);
    }
    assert forall fd: nat :: Served(s.workers, fd) == 0 by {
      forall fd: nat ensures Served(s.workers, fd) == 0 { assert Places(s, fd) == 0; }
    }
    WorkersShow(s.workers);
  }

  /** A client whose request was malformed keeps the server from ever stopping after a hang-up. */
  lemma LostClientPreventsExit(s: State, run: seq<Step>)
    requires Inv(s) && s.lost != {} && Valid(s, run)
    ensures After(s, run).clientsOnline >= 1 && !Enabled(After(s, run), Exit)
  {
    RunInv(s, run);
    LostIffMalformed(s, run);
    var e := After(s, run);
    var fd :| fd in s.lost;
    assert Places(e, fd) + One(fd in e.lost) == One(fd in e.online);
    assert fd in e.online;
  }

  /** In every run select covers every descriptor the manager waits for, and the pipe whenever it has a message. */
  lemma SelectSeesAll(socketFd: nat, pipeFd: nat, workers: nat, run: seq<Step>)
    requires Valid(Init(socketFd, pipeFd, workers), run)
    ensures var s := After(Init(socketFd, pipeFd, workers), run);
      && s.socketFd <= s.fdNum && (forall fd :: fd in s.readSet ==> fd <= s.fdNum)
      && (s.pipe != [] ==> s.pipeFd <= s.fdNum)
  {
    InitInv(socketFd, pipeFd, workers);
    RunInv(Init(socketFd, pipeFd, workers), run);
  }

  // ----- every request comes back -----

  function Held(s: State): nat { if s.hand.Some? then 1 else 0 }

  function Effort(ws: seq<Worker>): nat {
    if ws == [] then 0
    else Cost(ws[0]) + Effort(ws[1..])
  }

  function Cost(w: Worker): nat {
    match w case Waiting => 0 case Serving(_) => 3 case Closing => 2
  }

  /** How far the requests in progress are, together, from being answered and re-armed. */
  function Distance(s: State): nat {
    5 * Held(s) + 4 * |s.queue| + Effort(s.workers) + |s.pipe|
  }

  predicate Internal(a: Step) {
    a.EnqueueJob? || a.DequeueJob? || a.Serve? || a.Notify? || a.PipeMessage?
  }

  lemma {:induction false} EffortUpdate(ws: seq<Worker>, i: nat, w: Worker)
    requires i < |ws|
    ensures Effort(ws[i := w]) == Effort(ws) - Cost(ws[i]) + Cost(w)
  {
    if i > 0 {
      EffortUpdate(ws[1..], i - 1, w);
      assert ws[i := w][1..] == ws[1..][i - 1 := w];
    } else {
      assert ws[i := w][1..] == ws[1..];
    }
  }

  /** Every step of work in progress brings it strictly closer to done, so it takes at most Distance steps. */
  lemma WorkAdvances(s: State, a: Step)
    requires Enabled(s, a) && Internal(a)
    ensures Distance(Next(s, a)) < Distance(s)
  {
    if !a.EnqueueJob? && !a.PipeMessage? {
      EffortUpdate(s.workers, a.w, Next(s, a).workers[a.w]);
    }
  }

  /** With a worker and at most 256 clients, work in progress can always go on. */
  lemma WorkNeverStuck(s: State)
    requires Inv(s) && !s.exited && |s.workers| > 0 && |s.online| <= BUFFERSIZE && Distance(s) > 0
    ensures exists a :: Internal(a) && Enabled(s, a)
  {
    if s.hand.Some? {
      ManagerNeverBlocks(s);
    } else if s.pipe != [] {
      assert Enabled(s, PipeMessage);
    } else if s.workers[0].Serving? {
      assert Enabled(s, Serve(0, Nothing, 0));
    } else if s.workers[0].Closing? {
      assert Enabled(s, Notify(0));
    } else if s.queue != [] {
      assert Enabled(s, DequeueJob(0));
    } else {
      BusyWorker(s.workers);
      var w :| 0 <= w < |s.workers| && !s.workers[w].Waiting?;
      assert Enabled(s, if s.workers[w].Serving? then Serve(w, Nothing, 0) else Notify(w));
    }
  }

  lemma {:induction false} BusyWorker(ws: seq<Worker>)
    requires Effort(ws) > 0
    ensures exists w :: 0 <= w < |ws| && !ws[w].Waiting?
  {
    if ws[0].Waiting? {
      BusyWorker(ws[1..]);
      var w :| 0 <= w < |ws[1..]| && !ws[1..][w].Waiting?;
      assert !ws[w + 1].Waiting?;
    }
  }

  lemma OneStepCloser(s: State) returns (a: Step)
    requires Inv(s) && !s.exited && |s.workers| > 0 && |s.online| <= BUFFERSIZE && Distance(s) > 0
    ensures Internal(a) && Enabled(s, a)
    ensures var s' := Next(s, a);
      Inv(s') && Distance(s') < Distance(s) && !s'.exited && |s'.workers| > 0 && |s'.online| <= BUFFERSIZE
  {
    WorkNeverStuck(s);
    a :| Internal(a) && Enabled(s, a);
    StepInv(s, a);
    WorkAdvances(s, a);
    FewerOnline(s, a);
  }

  ghost predicate AllInternal(run: seq<Step>) {
    forall i :: 0 <= i < |run| ==> Internal(run[i])
  }

  lemma Prepend(s: State, a: Step, more: seq<Step>)
    requires Enabled(s, a) && Internal(a) && Valid(Next(s, a), more) && AllInternal(more)
    ensures Valid(s, [a] + more) && AllInternal([a] + more) && After(s, [a] + more) == After(Next(s, a), more)
  {
    assert ([a] + more)[1..] == more;
  }

  /** Nothing is in progress: every client is selected on, or was lost to a malformed request. */
  ghost predicate Quiet(s: State) {
    Inv(s) && Distance(s) == 0 && s.readSet + s.lost == s.online
  }

  lemma DoneIsQuiet(s: State)
    requires Inv(s) && Distance(s) == 0
    ensures Quiet(s)
  {
    forall fd: nat ensures fd in s.readSet + s.lost <==> fd in s.online {
      NothingServed(s.workers, fd);
      assert Places(s, fd) + One(fd in s.lost) == One(fd in s.online);
    }
  }

  /** From any state with at most 256 clients everything taken up can be answered and every surviving client re-armed. */
  lemma {:induction false} RequestsComeBack(s: State) returns (run: seq<Step>)
    requires Inv(s) && !s.exited && |s.workers| > 0 && |s.online| <= BUFFERSIZE
    ensures |run| <= Distance(s) && Valid(s, run) && AllInternal(run) && Quiet(After(s, run))
    decreases Distance(s)
  {
    if Distance(s) == 0 {
      DoneIsQuiet(s);
      run := [];
    } else {
      var a := OneStepCloser(s);
      var more := RequestsComeBack(Next(s, a));
      Prepend(s, a, more);
      run := [a] + more;
    }
  }

  lemma FewerOnline(s: State, a: Step)
    requires Enabled(s, a) && Internal(a)
    ensures var s' := Next(s, a); |s'.online| <= |s.online| && |s'.workers| == |s.workers| && !s'.exited
  {
    var s' := Next(s, a);
    Smaller(s'.online, s.online);
  }

  lemma {:induction false} Smaller(a: set<nat>, b: set<nat>)
    requires a <= b
    ensures |a| <= |b|
  {
    if a != {} {
      var x :| x in a;
      Smaller(a - {x}, b - {x});
    }
  }

  lemma {:induction false} NothingServed(ws: seq<Worker>, fd: nat)
    requires Effort(ws) == 0
    ensures Served(ws, fd) == 0
  {
    if ws != [] { NothingServed(ws[1..], fd); }
  }

  // ----- each field, told by the steps that change it -----

  /** The step ends a client's connection: it has hung up, or it sent CLOSECONN. */
  predicate Leaves(s: State, a: Step, fd: nat) {
    a.Serve? && Serves(s, a.w) && s.workers[a.w].fd == fd && FateOf(a.received, a.previous).Left?
  }

  /** A client is online from the accept, unless a hang-up came before it, until its worker closes the connection. */
  lemma OnlineStep(s: State, a: Step, fd: nat)
    requires Enabled(s, a)
    ensures fd in Next(s, a).online <==> (fd in s.online && !Leaves(s, a, fd)) || (a == Accept(fd) && !s.blockNewClients)
  {
  }

  /** A client is selected on from its accept, or from its message on the pipe, until its request is taken. */
  lemma WatchedStep(s: State, a: Step, fd: nat)
    requires Enabled(s, a)
    ensures fd in Next(s, a).readSet <==>
      || (fd in s.readSet && a != TakeRequest(fd))
      || (a == Accept(fd) && !s.blockNewClients)
      || (a.PipeMessage? && s.pipe[0] == Rearm(fd))
  {
  }

  /** A descriptor is ready from the select that says so until it is visited or the next select. */
  lemma ReadyStep(s: State, a: Step, fd: nat)
    requires Enabled(s, a)
    ensures fd in Next(s, a).ready <==> if a.Select? then fd in a.fds else fd in s.ready && a != TakeRequest(fd)
  {
  }

  /** The manager has a request in hand from taking it until it is in the job queue. */
  lemma HandStep(s: State, a: Step)
    requires Enabled(s, a)
    ensures Next(s, a).hand == if a.TakeRequest? then Some(a.fd) else if a.EnqueueJob? then None else s.hand
  {
  }

  /** The count goes up with each client let in, and down only with a -1 read from the pipe. */
  lemma CountStep(s: State, a: Step)
    requires Enabled(s, a)
    ensures Next(s, a).clientsOnline > s.clientsOnline <==> a.Accept? && !s.blockNewClients
    ensures Next(s, a).clientsOnline < s.clientsOnline <==> a.PipeMessage? && s.pipe[0] == Gone
    ensures -1 <= Next(s, a).clientsOnline - s.clientsOnline <= 1
  {
  }

  /** fd_num goes up exactly to a larger descriptor accepted or brought back, and down exactly by one, with its own request. */
  lemma RangeStep(s: State, a: Step)
    requires Enabled(s, a)
    ensures Next(s, a).fdNum > s.fdNum <==>
      || (a.Accept? && !s.blockNewClients && a.fd > s.fdNum)
      || (a.PipeMessage? && s.pipe[0].Rearm? && s.pipe[0].fd > s.fdNum)
    ensures Next(s, a).fdNum > s.fdNum ==> Next(s, a).fdNum == if a.Accept? then a.fd else s.pipe[0].fd
    ensures Next(s, a).fdNum < s.fdNum <==> a.TakeRequest? && a.fd == s.fdNum
    ensures Next(s, a).fdNum >= s.fdNum - 1
  {
  }

  /** A worker serves the client at the head of the job queue, closes only for one that leaves, and is then free again. */
  lemma WorkerStep(s: State, a: Step, w: nat)
    requires Enabled(s, a) && w < |s.workers|
    ensures |Next(s, a).workers| == |s.workers|
    ensures var before, after := s.workers[w], Next(s, a).workers[w];
      && (after != before ==> (a.DequeueJob? || a.Serve? || a.Notify?) && a.w == w)
      && (a.DequeueJob? && a.w == w ==> after == Serving(s.queue[0]))
      && (a.Serve? && a.w == w ==> after == if Leaves(s, a, before.fd) then Closing else Waiting)
      && (a.Notify? && a.w == w ==> after == Waiting)
  {
  }

  /**
   * With nothing in hand the manager can let in any new client, be told of any of the clients it selects on,
   * read the pipe whenever it has a message, and take any ready request: what is watched or pending is always
   * in range. With a request in hand it waits exactly while 256 jobs are queued. Workers wait for a job alone.
   */
  lemma ManagerMay(s: State, fd: nat, fds: set<nat>, received: Received, previous: int)
    requires Inv(s) && !s.exited
    ensures s.hand == None ==>
      && (Enabled(s, Accept(fd)) <==> fd !in s.online && fd > s.pipeFd && fd > s.socketFd)
      && (Enabled(s, Select(fds)) <==> fds <= s.readSet)
      && (Enabled(s, PipeMessage) <==> s.pipe != [])
      && (Enabled(s, TakeRequest(fd)) <==> fd in s.ready)
    ensures s.hand != None ==> (Enabled(s, EnqueueJob) <==> |s.queue| < 256)
    ensures forall w :: 0 <= w < |s.workers| ==>
      && (Enabled(s, DequeueJob(w)) <==> s.workers[w] == Waiting && s.queue != [])
      && (Enabled(s, Serve(w, received, previous)) <==> s.workers[w].Serving?)
      && (Enabled(s, Notify(w)) <==> s.workers[w] == Closing)
  {
    HeadsPlaced(s);
  }

  // ----- first in, first out -----

  /** The descriptors the manager queues along a run. */
  function Queues(s: State, run: seq<Step>): seq<nat>
    requires Valid(s, run)
    decreases |run|
  {
    if run == [] then [] else QueuesNow(s, run[0]) + Queues(Next(s, run[0]), run[1..])
  }

  /** The descriptors the workers start to serve. */
  function Starts(s: State, run: seq<Step>): seq<nat>
    requires Valid(s, run)
    decreases |run|
  {
    if run == [] then [] else StartsNow(s, run[0]) + Starts(Next(s, run[0]), run[1..])
  }

  /** The messages the workers send: the descriptor of each request answered, -1 for each connection closed. */
  function Sends(s: State, run: seq<Step>): seq<Message>
    requires Valid(s, run)
    decreases |run|
  {
    if run == [] then [] else SendsNow(s, run[0]) + Sends(Next(s, run[0]), run[1..])
  }

  /** The messages the manager acts on: a client selected on again, or one less counted. */
  function Receives(s: State, run: seq<Step>): seq<Message>
    requires Valid(s, run)
    decreases |run|
  {
    if run == [] then [] else ReceivesNow(s, run[0]) + Receives(Next(s, run[0]), run[1..])
  }

  lemma Shift<T>(a: seq<T>, b: seq<T>, c: seq<T>)
    ensures (a + b) + c == a + (b + c)
  {
  }

  function QueuesNow(s: State, a: Step): seq<nat>
    requires Enabled(s, a)
  {
    if a.EnqueueJob? then [s.hand.value] else []
  }

  function StartsNow(s: State, a: Step): seq<nat>
    requires Enabled(s, a)
  {
    var s' := Next(s, a);
    if a.DequeueJob? && a.w < |s'.workers| && s'.workers[a.w].Serving? then [s'.workers[a.w].fd] else []
  }

  function SendsNow(s: State, a: Step): seq<Message>
    requires Enabled(s, a)
  {
    if a.Serve? && FateOf(a.received, a.previous).Answered? then [Rearm(s.workers[a.w].fd)]
    else if a.Notify? then [Gone] else []
  }

  function ReceivesNow(s: State, a: Step): seq<Message>
    requires Enabled(s, a)
  {
    if a.PipeMessage? then [s.pipe[0]] else []
  }

  lemma QueueMoves(s: State, a: Step)
    requires Enabled(s, a)
    ensures s.queue + QueuesNow(s, a) == StartsNow(s, a) + Next(s, a).queue
  {
  }

  lemma PipeMoves(s: State, a: Step)
    requires Enabled(s, a)
    ensures s.pipe + SendsNow(s, a) == ReceivesNow(s, a) + Next(s, a).pipe
  {
  }

  /** Requests are served in the order in which the manager queued them. */
  lemma {:induction false} RequestsInOrder(s: State, run: seq<Step>)
    requires Valid(s, run)
    ensures s.queue + Queues(s, run) == Starts(s, run) + After(s, run).queue
    decreases |run|
  {
    if run == [] {
      assert s.queue + [] == s.queue && [] + s.queue == s.queue;
    } else {
      var a, s' := run[0], Next(s, run[0]);
      RequestsInOrder(s', run[1..]);
      QueueMoves(s, a);
      hide Next, Enabled, QueuesNow, StartsNow;
      Shift(s.queue, QueuesNow(s, a), Queues(s', run[1..]));
      Shift(StartsNow(s, a), s'.queue, Queues(s', run[1..]));
      Shift(StartsNow(s, a), Starts(s', run[1..]), After(s', run[1..]).queue);
    }
  }

  /** Messages are acted on in the order in which the workers sent them. */
  lemma {:induction false} MessagesInOrder(s: State, run: seq<Step>)
    requires Valid(s, run)
    ensures s.pipe + Sends(s, run) == Receives(s, run) + After(s, run).pipe
    decreases |run|
  {
    if run == [] {
      assert s.pipe + [] == s.pipe && [] + s.pipe == s.pipe;
    } else {
      var a, s' := run[0], Next(s, run[0]);
      MessagesInOrder(s', run[1..]);
      PipeMoves(s, a);
      hide Next, Enabled, SendsNow, ReceivesNow;
      Shift(s.pipe, SendsNow(s, a), Sends(s', run[1..]));
      Shift(ReceivesNow(s, a), s'.pipe, Sends(s', run[1..]));
      Shift(ReceivesNow(s, a), Receives(s', run[1..]), After(s', run[1..]).pipe);
    }
  }

  // ----- hanging up -----

  ghost predicate HangsUp(run: seq<Step>) {
    exists i :: 0 <= i < |run| && run[i].Hangup?
  }

  ghost predicate Exits(run: seq<Step>) {
    exists i :: 0 <= i < |run| && run[i].Exit?
  }

  lemma SignalsCons(run: seq<Step>)
    requires run != []
    ensures HangsUp(run) <==> run[0].Hangup? || HangsUp(run[1..])
    ensures Exits(run) <==> run[0].Exit? || Exits(run[1..])
  {
    assert forall i :: 0 < i < |run| ==> run[i] == run[1..][i - 1];
    assert forall i :: 0 <= i < |run[1..]| ==> run[1..][i] == run[i + 1];
  }

  /** New clients are turned away exactly after a hang-up, and the server has stopped exactly after its exit. */
  lemma {:induction false} SignalsTold(s: State, run: seq<Step>)
    requires Valid(s, run)
    ensures After(s, run).blockNewClients <==> s.blockNewClients || HangsUp(run)
    ensures After(s, run).exited <==> s.exited || Exits(run)
    decreases |run|
  {
    if run != [] {
      SignalsTold(Next(s, run[0]), run[1..]);
      SignalsCons(run);
    }
  }

  /** Nothing is queued, served, held or under way, nobody is selected on, and nobody is connected. */
  ghost predicate AtRest(s: State) {
    && s.online == {} && s.readSet == {} && s.queue == [] && s.hand == None && s.pipe == []
    && s.clientsOnline == 0 && forall w :: 0 <= w < |s.workers| ==> s.workers[w].Waiting?
  }

  lemma {:induction false} RestsWhenStopped(s: State, run: seq<Step>)
    requires Inv(s) && Valid(s, run) && (s.exited ==> s.blockNewClients && AtRest(s))
    ensures After(s, run).exited ==> After(s, run).blockNewClients && AtRest(After(s, run))
    decreases |run|
  {
    if run != [] {
      StepInv(s, run[0]);
      if run[0].Exit? { ExitDropsNothing(s); }
      RestsWhenStopped(Next(s, run[0]), run[1..]);
    }
  }

  /**
   * In every run from the start the server has stopped exactly if the run contains its exit, turns clients
   * away exactly if it contains a hang-up, and once stopped has had a hang-up and left nothing undone.
   */
  lemma StopsOnlyAtRest(socketFd: nat, pipeFd: nat, workers: nat, run: seq<Step>)
    requires Valid(Init(socketFd, pipeFd, workers), run)
    ensures var s := After(Init(socketFd, pipeFd, workers), run);
      && (s.exited <==> Exits(run)) && (s.blockNewClients <==> HangsUp(run))
      && (s.exited ==> HangsUp(run) && AtRest(s))
  {
    var s0 := Init(socketFd, pipeFd, workers);
    InitInv(socketFd, pipeFd, workers);
    SignalsTold(s0, run);
    RestsWhenStopped(s0, run);
  }

  /** After a hang-up nobody joins: whoever is online was online at the hang-up. */
  lemma {:induction false} NobodyJoins(s: State, run: seq<Step>)
    requires s.blockNewClients && Valid(s, run)
    ensures After(s, run).online <= s.online
    decreases |run|
  {
    if run != [] {
      forall fd | fd in Next(s, run[0]).online ensures fd in s.online { OnlineStep(s, run[0], fd); }
      NobodyJoins(Next(s, run[0]), run[1..]);
    }
  }

  /** A server that has not stopped can always take a hang-up, and stop once one came and its count is down to zero. */
  lemma CanStop(s: State)
    requires !s.exited
    ensures Enabled(s, Hangup)
    ensures Enabled(s, Exit) <==> s.blockNewClients && s.clientsOnline == 0 && s.hand == None
  {
  }
}
