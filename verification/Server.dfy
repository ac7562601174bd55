/**
 * The server's shared state, changed in place by the manager loop and by the workers, with the
 * ring buffer of decimal texts as its job queue.
 */
module Server {
  import opened Bytes
  import opened Commands
  import opened ServerSpec
  import Q = JobQueueSpec
  import BB = BoundedBuffer

  /** The manager's number among the threads of the job queue; worker w has number w + 1. */
  const MANAGER: nat := 0

  function Numbers(jobs: seq<string>): (r: seq<nat>)
    ensures |r| == |jobs| && forall i :: 0 <= i < |r| ==> r[i] == ReadDigits(jobs[i], 0)
  {
    seq(|jobs|, i requires 0 <= i < |jobs| => ReadDigits(jobs[i], 0))
  }

  lemma NumbersAppend(jobs: seq<string>, fd: nat)
    ensures Numbers(jobs + [Decimal(fd)]) == Numbers(jobs) + [fd]
  {
    DecimalRoundTrip(fd);
  }

  lemma NumbersTail(jobs: seq<string>)
    requires jobs != []
    ensures Numbers(jobs)[0] == ReadDigits(jobs[0], 0) && Numbers(jobs[1..]) == Numbers(jobs)[1..]
  {
  }

  // ----- one pass of the manager over what select found ready -----

  /** select's answer: these clients, and perhaps the listening socket and the pipe. */
  datatype Selected = Selected(clients: set<nat>, socket: bool, pipe: bool)

  predicate IsSet(r: Selected, s: State, fd: nat) {
    fd in r.clients || (r.socket && fd == s.socketFd) || (r.pipe && fd == s.pipeFd)
  }

  /** The pass has come to descriptor i: exactly the ready ones before it were visited, each once, and the rest wait. */
  ghost predicate PassedTo(s: State, r: Selected, i: nat, visited: seq<nat>) {
    && (forall k, m :: 0 <= k < m < |visited| ==> visited[k] < visited[m])
    && (forall fd: nat :: fd in visited <==> fd < i && IsSet(r, s, fd))
    && (forall fd: nat :: fd in s.ready <==> i <= fd && fd in r.clients)
    && s.hand == None && !s.exited
  }

  /** The descriptor the next message on the pipe brings back, if any. */
  function Carried(pipe: seq<Message>): nat {
    if pipe != [] && pipe[0].Rearm? then pipe[0].fd else 0
  }

  lemma RangeOf(s: State)
    requires Inv(s)
    ensures s.socketFd <= s.fdNum && (s.pipe != [] ==> s.pipeFd <= s.fdNum)
    ensures forall fd :: fd in s.readSet ==> fd > s.pipeFd && fd > s.socketFd
  {
    forall fd | fd in s.readSet ensures fd in s.online {
      assert Places(s, fd) + One(fd in s.lost) == One(fd in s.online);
    }
  }

  lemma Visit(s: State, s': State, r: Selected, i: nat, visited: seq<nat>)
    requires PassedTo(s, r, i, visited) && IsSet(r, s, i)
    requires s'.socketFd == s.socketFd && s'.pipeFd == s.pipeFd && s'.ready == s.ready - {i}
    requires s'.hand == None && !s'.exited
    ensures PassedTo(s', r, i + 1, visited + [i])
  {
    forall k | 0 <= k < |visited| ensures visited[k] < i { assert visited[k] in visited; }
    forall fd: nat ensures fd in visited + [i] <==> fd < i + 1 && IsSet(r, s', fd) {
      assert fd in visited + [i] <==> fd in visited || fd == i;
    }
  }

  lemma StartPass(s: State, r: Selected)
    requires s.ready == r.clients && s.hand == None && !s.exited
    ensures PassedTo(s, r, 0, [])
  {
  }

  lemma OneMore(online: set<nat>, clients: set<nat>, fd: nat)
    requires online <= clients + {fd} && |clients| < BUFFERSIZE
    ensures |online| <= BUFFERSIZE
  {
    Smaller(online, clients + {fd});
  }

  lemma PassBy(s: State, r: Selected, i: nat, visited: seq<nat>)
    requires PassedTo(s, r, i, visited) && !IsSet(r, s, i)
    ensures PassedTo(s, r, i + 1, visited)
  {
  }

  /** Past the last descriptor select watches, nothing ready is left over, though that end moved during the pass. */
  lemma PassComplete(s: State, r: Selected, i: nat, visited: seq<nat>)
    requires Inv(s) && PassedTo(s, r, i, visited) && i > s.fdNum
    requires r.pipe && i <= s.pipeFd ==> s.pipe != []
    ensures forall fd: nat :: fd in visited <==> IsSet(r, s, fd)
  {
    assert forall fd :: fd in s.ready ==> fd <= s.fdNum;
  }

  /** When the last client left after a hang-up, no client is left over. */
  lemma PassLeft(s: State, r: Selected, i: nat, visited: seq<nat>)
    requires Inv(s) && PassedTo(s, r, i, visited) && s.clientsOnline == 0
    ensures forall fd :: fd in r.clients ==> fd in visited
  {
    NobodyOnline(s);
    assert s.ready == {};
    forall fd | fd in r.clients ensures fd in visited { assert fd !in s.ready; }
  }

  lemma AcceptIs(s: State, fd: nat)
    requires Enabled(s, Accept(fd))
    ensures Next(s, Accept(fd)) ==
      if s.blockNewClients then s
      else s.(online := s.online + {fd}, readSet := s.readSet + {fd}, clientsOnline := s.clientsOnline + 1, fdNum := Max(s.fdNum, fd))
  {
  }

  lemma EnqueueIs(s: State)
    requires Enabled(s, Step.EnqueueJob)
    ensures s.hand.Some? && |s.queue| < BUFFERSIZE
    ensures Next(s, Step.EnqueueJob) == s.(hand := None, queue := s.queue + [s.hand.value])
  {
  }

  lemma ServeIs(s: State, w: nat, r: Received, previous: int)
    requires Enabled(s, Serve(w, r, previous))
    ensures w < |s.workers| && s.workers[w].Serving?
    ensures var fd := s.workers[w].fd;
      Next(s, Serve(w, r, previous)) ==
        match FateOf(r, previous)
        case Answered => s.(workers := s.workers[w := Waiting], pipe := s.pipe + [Rearm(fd)])
        case Left => s.(workers := s.workers[w := Closing], online := s.online - {fd})
        case Dropped => s.(workers := s.workers[w := Waiting], lost := s.lost + {fd})
  {
  }

  /** The manager is not among those that wait, and those that do wait for a job. */
  ghost predicate Consumers(phase: map<Q.Tid, Q.Phase>) {
    MANAGER !in phase && forall t :: t in phase ==> phase[t].EmptyWait? || phase[t].EmptyWoken?
  }

  lemma ConsumersStay(q: Q.State, a: Q.Step)
    requires Consumers(q.phase) && Q.Enabled(q, a)
    requires match a case Enqueue(t, _) => t == MANAGER && |q.jobs| < q.size case Dequeue(t) => t != MANAGER case _ => false
    ensures Consumers(Q.Next(q, a).phase)
  {
  }

  /** A step a worker may take beside the manager. */
  datatype Move = Dequeues(w: nat) | Serves(w: nat, received: Received, previous: int) | Notifies(w: nat)

  /** What workers leave as it is, and how they change the pipe and who is online. */
  ghost predicate Beside(s: State, s': State) {
    && s.pipe <= s'.pipe && s'.online <= s.online
    && s'.readSet == s.readSet && s'.ready == s.ready && s'.hand == s.hand && s'.exited == s.exited
    && s'.clientsOnline == s.clientsOnline && s'.fdNum == s.fdNum
    && s'.socketFd == s.socketFd && s'.pipeFd == s.pipeFd && s'.blockNewClients == s.blockNewClients
  }

  lemma BesideItself(s: State)
    ensures Beside(s, s)
  {
  }

  lemma BesideNext(s: State, a: Step)
    requires Enabled(s, a) && (a.DequeueJob? || a.Serve? || a.Notify?)
    ensures Beside(s, Next(s, a))
  {
  }

  lemma StillPassed(s: State, s': State, r: Selected, i: nat, visited: seq<nat>)
    requires PassedTo(s, r, i, visited) && Beside(s, s')
    ensures PassedTo(s', r, i, visited)
  {
    assert forall fd: nat :: IsSet(r, s', fd) <==> IsSet(r, s, fd);
  }

  class Shared {
    const socketFd: nat
    const pipeFd: nat
    const jobQueue: BB.Buffer
    var managerReadSet: set<nat>
    var setCopy: set<nat>
    var fd_num: int
    var clientsOnline: int
    var blockNewClients: bool
    var exited: bool
    var hand: Option<nat>
    var workers: seq<Worker>
    var pipe: seq<Message>
    ghost var online: set<nat>
    ghost var lost: set<nat>

    ghost function Abs(): State
      requires jobQueue.Ring()
      reads this, jobQueue, jobQueue.commands
    {
      State(online, managerReadSet, setCopy, hand, Numbers(jobQueue.Jobs()), workers, pipe, lost,
            clientsOnline, fd_num, socketFd, pipeFd, blockNewClients, exited)
    }

    ghost predicate Valid()
      reads this, jobQueue, jobQueue.commands
    {
      jobQueue.Ring() && jobQueue.Valid() && jobQueue.size == BUFFERSIZE && Inv(Abs())
    }

    /** Nobody waits at the ring but workers for a job. */
    ghost predicate OnlyWorkersWait()
      reads this, jobQueue
    {
      Consumers(jobQueue.phase)
    }

    constructor (socketFd: nat, pipeFd: nat, workerNumber: nat)
      ensures Valid() && Abs() == Init(socketFd, pipeFd, workerNumber) && fresh(jobQueue) && fresh(jobQueue.commands)
    {
      this.socketFd, this.pipeFd := socketFd, pipeFd;
      managerReadSet, setCopy, fd_num, clientsOnline := {}, {}, socketFd, 0;
      blockNewClients, exited, hand := false, false, None;
      jobQueue := new BB.Buffer(BUFFERSIZE);
      workers, pipe := seq(workerNumber, _ => Waiting), [];
      online, lost := {}, {};
      new;
      InitInv(socketFd, pipeFd, workerNumber);
      assert jobQueue.Jobs() == jobQueue.Abs().jobs == [];
    }

    // ----- the manager -----

    /** A select that found these clients ready. */
    method Select(ready: set<nat>)
      requires Valid() && Enabled(Abs(), Step.Select(ready))
      modifies this`setCopy
      ensures Valid() && Abs() == Next(old(Abs()), Step.Select(ready))
    {
      StepInv(Abs(), Step.Select(ready));
      hide Inv;
      setCopy := ready;
    }

    /** A ready listening socket: a new client, turned away once a hang-up came. */
    method AcceptClient(fd_client: nat)
      requires Valid() && Enabled(Abs(), Accept(fd_client))
      modifies `online, `managerReadSet, `clientsOnline, `fd_num
      ensures Valid() && Abs() == Next(old(Abs()), Accept(fd_client))
    {
      hide Inv, BB.Buffer.Valid, BB.Buffer.Jobs, Numbers;
      AcceptIs(Abs(), fd_client);
      hide Next;
      StepInv(Abs(), Accept(fd_client));
      AcceptUnlessBlocked(fd_client);
    }

    method AcceptUnlessBlocked(fd_client: nat)
      requires jobQueue.Ring() && Enabled(Abs(), Accept(fd_client))
      modifies `online, `managerReadSet, `clientsOnline, `fd_num
      ensures Abs() == Next(old(Abs()), Accept(fd_client))
    {
      AcceptIs(Abs(), fd_client);
      hide BB.Buffer.Jobs, Numbers, Next, Enabled;
      if !blockNewClients {
        AddClient(fd_client);
      }
    }

    method AddClient(fd_client: nat)
      requires jobQueue.Ring()
      modifies `online, `managerReadSet, `clientsOnline, `fd_num
      ensures Abs() == old(Abs()).(online := old(online) + {fd_client}, readSet := old(managerReadSet) + {fd_client},
                                   clientsOnline := old(clientsOnline) + 1, fdNum := Max(old(fd_num), fd_client))
    {
      hide BB.Buffer.Jobs, Numbers;
      online := online + {fd_client};
      managerReadSet := managerReadSet + {fd_client};
      clientsOnline := clientsOnline + 1;
      if fd_client > fd_num {
        fd_num := fd_client;
      }
    }

    method Rearmed(fd: nat)
      requires jobQueue.Ring()
      modifies `managerReadSet, `fd_num
      ensures Abs() == old(Abs()).(readSet := old(managerReadSet) + {fd}, fdNum := Max(old(fd_num), fd))
    {
      hide BB.Buffer.Jobs, Numbers;
      managerReadSet := managerReadSet + {fd};
      if fd > fd_num {
        fd_num := fd;
      }
    }

    /** A ready pipe: a client has left, or one is to be selected on again. */
    method HandlePipe() returns (gone: bool)
      requires Valid() && Enabled(Abs(), PipeMessage)
      modifies `pipe, `clientsOnline, `managerReadSet, `fd_num
      ensures Valid() && Abs() == Next(old(Abs()), PipeMessage) && gone == old(pipe)[0].Gone?
    {
      StepInv(Abs(), PipeMessage);
      hide Inv, BB.Buffer.Valid, BB.Buffer.Jobs, Numbers, Next;
      gone := ReadPipe();
    }

    method ReadPipe() returns (gone: bool)
      requires jobQueue.Ring() && Enabled(Abs(), PipeMessage)
      modifies `pipe, `clientsOnline, `managerReadSet, `fd_num
      ensures Abs() == Next(old(Abs()), PipeMessage) && gone == old(pipe)[0].Gone?
    {
      hide BB.Buffer.Jobs, Numbers;
      var message := pipe[0];
      pipe := pipe[1..];
      gone := message.Gone?;
      if gone {
        clientsOnline := clientsOnline - 1;
      } else {
        Rearmed(message.fd);
      }
    }

    /** A ready client: off the select set and into the manager's hand. */
    method TakeRequest(i: nat)
      requires Valid() && Enabled(Abs(), Step.TakeRequest(i))
      modifies `setCopy, `managerReadSet, `fd_num, `hand
      ensures Valid() && Abs() == Next(old(Abs()), Step.TakeRequest(i))
    {
      StepInv(Abs(), Step.TakeRequest(i));
      hide Inv, BB.Buffer.Valid, BB.Buffer.Jobs, Numbers, Next;
      PickUp(i);
    }

    method PickUp(i: nat)
      requires jobQueue.Ring() && Enabled(Abs(), Step.TakeRequest(i))
      modifies `setCopy, `managerReadSet, `fd_num, `hand
      ensures Abs() == Next(old(Abs()), Step.TakeRequest(i))
    {
      hide BB.Buffer.Jobs, Numbers;
      setCopy := setCopy - {i};
      managerReadSet := managerReadSet - {i};
      if i == fd_num {
        fd_num := fd_num - 1;
      }
      hand := Some(i);
    }

    /** The descriptor goes onto the ring in decimal. */
    method EnqueueJob()
      requires Valid() && Enabled(Abs(), Step.EnqueueJob)
      requires Q.Enabled(jobQueue.Abs(), Q.Enqueue(MANAGER, Decimal(hand.value)))
      modifies `hand, jobQueue, jobQueue.commands
      ensures Valid() && Abs() == Next(old(Abs()), Step.EnqueueJob)
      ensures old(OnlyWorkersWait()) ==> OnlyWorkersWait()
    {
      hide Inv, Next, Enabled, Numbers, Consumers;
      StepInv(Abs(), Step.EnqueueJob);
      EnqueueIs(Abs());
      if OnlyWorkersWait() { ConsumersStay(jobQueue.Abs(), Q.Enqueue(MANAGER, Decimal(hand.value))); }
      NumbersAppend(jobQueue.Jobs(), hand.value);
      var done := jobQueue.EnqueueBuffer(MANAGER, Decimal(hand.value));
      assert jobQueue.Jobs() == jobQueue.Abs().jobs;
      hand := None;
    }

    /** A ready client's turn in the pass: with at most 256 clients online the ring has room. */
    method PassRequest(i: nat)
      requires Valid() && Enabled(Abs(), Step.TakeRequest(i)) && |online| <= BUFFERSIZE && OnlyWorkersWait()
      modifies `setCopy, `managerReadSet, `fd_num, `hand, jobQueue, jobQueue.commands
      ensures Valid() && OnlyWorkersWait()
      ensures Enabled(Next(old(Abs()), Step.TakeRequest(i)), Step.EnqueueJob)
      ensures Abs() == Next(Next(old(Abs()), Step.TakeRequest(i)), Step.EnqueueJob)
    {
      TakeRequest(i);
      ManagerNeverBlocks(Abs());
      hide Inv, Next;
      EnqueueJob();
    }

    /** The pass at the listening socket. */
    method PassSocket(r: Selected, i: nat, fd_client: nat, ghost visited: seq<nat>)
      requires Valid() && PassedTo(Abs(), r, i, visited) && IsSet(r, Abs(), i)
      requires Enabled(Abs(), Accept(fd_client)) && i !in r.clients
      modifies `online, `managerReadSet, `clientsOnline, `fd_num
      ensures Valid() && PassedTo(Abs(), r, i + 1, visited + [i])
      ensures fd_num <= Max(old(fd_num), fd_client) && online <= old(online) + {fd_client}
    {
      AcceptIs(Abs(), fd_client);
      AcceptClient(fd_client);
      hide Inv, Numbers, BB.Buffer.Jobs, Next, Enabled;
      Visit(old(Abs()), Abs(), r, i, visited);
    }

    /** The pass at the pipe. */
    method PassPipe(r: Selected, i: nat, ghost visited: seq<nat>) returns (left: bool)
      requires Valid() && PassedTo(Abs(), r, i, visited) && IsSet(r, Abs(), i)
      requires Enabled(Abs(), PipeMessage) && i !in r.clients
      modifies `pipe, `clientsOnline, `managerReadSet, `fd_num
      ensures Valid() && PassedTo(Abs(), r, i + 1, visited + [i])
      ensures fd_num <= Max(old(fd_num), if old(pipe)[0].Rearm? then old(pipe)[0].fd else 0)
      ensures left ==> blockNewClients && clientsOnline == 0
    {
      RangeOf(Abs());
      var gone := HandlePipe();
      left := gone && clientsOnline == 0 && blockNewClients;
      hide Inv, Numbers, BB.Buffer.Jobs, Enabled;
      Visit(old(Abs()), Abs(), r, i, visited);
    }

    /** The pass at a client. */
    method PassClient(r: Selected, i: nat, ghost visited: seq<nat>)
      requires Valid() && PassedTo(Abs(), r, i, visited) && i in r.clients && i <= fd_num
      requires |online| <= BUFFERSIZE && OnlyWorkersWait()
      modifies `setCopy, `managerReadSet, `fd_num, `hand, jobQueue, jobQueue.commands
      ensures Valid() && PassedTo(Abs(), r, i + 1, visited + [i]) && OnlyWorkersWait()
      ensures fd_num <= old(fd_num)
    {
      assert i in Abs().ready;
      PassRequest(i);
      hide Inv, Numbers, BB.Buffer.Jobs, Enabled;
      Visit(old(Abs()), Abs(), r, i, visited);
    }

    /** Descriptor i's turn in the pass. */
    method PassAt(r: Selected, fd_client: nat, i: nat, ghost visited: seq<nat>) returns (left: bool)
      requires Valid() && PassedTo(Abs(), r, i, visited) && i <= fd_num && socketFd != pipeFd
      requires |online| <= BUFFERSIZE && OnlyWorkersWait()
      requires forall fd :: fd in r.clients ==> fd != socketFd && fd != pipeFd
      requires r.socket && i == socketFd ==> fd_client !in online && fd_client > pipeFd && fd_client > socketFd
      requires r.pipe && i == pipeFd ==> pipe != []
      modifies `setCopy, `managerReadSet, `fd_num, `hand, `online, `clientsOnline, `pipe, jobQueue, jobQueue.commands
      ensures Valid() && OnlyWorkersWait()
      ensures PassedTo(Abs(), r, i + 1, if IsSet(r, Abs(), i) then visited + [i] else visited)
      ensures fd_num <=
        old(fd_num) + (if i == socketFd then fd_client else 0) + (if i == pipeFd && r.pipe then Carried(old(pipe)) else 0)
      ensures i != pipeFd ==> pipe == old(pipe)
      ensures if i == socketFd then online <= old(online) + {fd_client} else online == old(online)
      ensures left ==> blockNewClients && clientsOnline == 0 && IsSet(r, Abs(), i)
    {
      left := false;
      RangeOf(Abs());
      if i == socketFd && r.socket {
        PassSocket(r, i, fd_client, visited);
      } else if i == pipeFd && r.pipe {
        left := PassPipe(r, i, visited);
      } else if i in r.clients {
        PassClient(r, i, visited);
      } else {
        PassBy(Abs(), r, i, visited);
      }
    }

    /** How far fd_num can have grown by the time the pass comes to descriptor i. */
    ghost function Limit(i: int, last: int, fd_client: nat, messages: seq<Message>): int {
      last + (if i <= socketFd then 0 else fd_client) + (if i <= pipeFd then 0 else Carried(messages))
    }

    /** The pass has come to i, having started with these clients online, this pipe and this fd_num. */
    ghost predicate Passing(r: Selected, fd_client: nat, i: nat, visited: seq<nat>,
                            clients: set<nat>, messages: seq<Message>, last: int)
      reads this, jobQueue, jobQueue.commands
    {
      && Valid() && PassedTo(Abs(), r, i, visited) && OnlyWorkersWait() && socketFd != pipeFd
      && |clients| < BUFFERSIZE && (forall fd :: fd in r.clients ==> fd != socketFd && fd != pipeFd)
      && (r.socket ==> fd_client !in clients && fd_client > pipeFd && fd_client > socketFd)
      && (r.pipe ==> messages != [])
      && (i <= pipeFd ==> messages <= pipe)
      && (if i <= socketFd then online <= clients else online <= clients + {fd_client})
      && fd_num <= Limit(i, last, fd_client, messages)
    }

    /** The workers go on beside the pass. */
    method WorkersGoOn(moves: seq<Move>, r: Selected, fd_client: nat, i: nat, ghost visited: seq<nat>,
                       ghost clients: set<nat>, ghost messages: seq<Message>, ghost last: int)
      requires Passing(r, fd_client, i, visited, clients, messages, last)
      modifies `workers, `pipe, `online, `lost, jobQueue
      ensures Passing(r, fd_client, i, visited, clients, messages, last)
    {
      ghost var before := Abs();
      WorkersMove(moves);
      StillPassed(before, Abs(), r, i, visited);
    }

    /** Descriptor i's turn, after whatever the workers did since the turn before. */
    method PassNext(moves: seq<Move>, r: Selected, fd_client: nat, i: nat, ghost visited: seq<nat>,
                    ghost clients: set<nat>, ghost messages: seq<Message>, ghost last: int)
      returns (left: bool, ghost visited': seq<nat>)
      requires Passing(r, fd_client, i, visited, clients, messages, last) && i <= fd_num
      modifies `setCopy, `managerReadSet, `fd_num, `hand, `online, `clientsOnline, `pipe, `workers, `lost
      modifies jobQueue, jobQueue.commands
      ensures Passing(r, fd_client, i + 1, visited', clients, messages, last)
      ensures left ==> blockNewClients && clientsOnline == 0
    {
      hide Inv, Numbers, BB.Buffer.Jobs, BB.Buffer.Valid, Enabled, PassedTo;
      WorkersGoOn(moves, r, fd_client, i, visited, clients, messages, last);
      OneMore(online, clients, fd_client);
      left := PassAt(r, fd_client, i, visited);
      visited' := if IsSet(r, Abs(), i) then visited + [i] else visited;
    }

    /** What the pass leaves behind: the visited descriptors, in order. */
    lemma PassResult(r: Selected, fd_client: nat, i: nat, visited: seq<nat>,
                     clients: set<nat>, messages: seq<Message>, last: int, left: bool)
      requires Passing(r, fd_client, i, visited, clients, messages, last)
      requires if left then clientsOnline == 0 else i > fd_num
      ensures Valid() && hand == None && OnlyWorkersWait()
      ensures forall k, m :: 0 <= k < m < |visited| ==> visited[k] < visited[m]
      ensures forall fd :: fd in visited ==> IsSet(r, Abs(), fd)
      ensures forall fd :: fd in r.clients ==> fd in visited
      ensures !left ==> forall fd: nat :: IsSet(r, Abs(), fd) ==> fd in visited
    {
      if left { PassLeft(Abs(), r, i, visited); } else { PassComplete(Abs(), r, i, visited); }
    }

    /** The loop of the pass, up to wherever fd_num has moved. */
    method VisitAll(beside: nat -> seq<Move>, r: Selected, fd_client: nat,
                    ghost clients: set<nat>, ghost messages: seq<Message>, ghost last: int)
      returns (ghost visited: seq<nat>, left: bool, ghost end: nat)
      requires Passing(r, fd_client, 0, [], clients, messages, last)
      modifies `setCopy, `managerReadSet, `fd_num, `hand, `online, `clientsOnline, `pipe, `workers, `lost
      modifies jobQueue, jobQueue.commands
      ensures Passing(r, fd_client, end, visited, clients, messages, last)
      ensures if left then blockNewClients && clientsOnline == 0 else end > fd_num
    {
      hide Valid, PassedTo, IsSet, Carried, Enabled, Next;
      visited, left := [], false;
      var i := 0;
      while i < fd_num + 1 && !left
        invariant 0 <= i && Passing(r, fd_client, i, visited, clients, messages, last)
        invariant left ==> blockNewClients && clientsOnline == 0
        decreases last + fd_client + Carried(messages) + 1 - i
      {
        left, visited := PassNext(beside(i), r, fd_client, i, visited, clients, messages, last);
        i := i + 1;
      }
      end := i;
    }

    /**
     * The loop over the descriptors up to fd_num, on the copy of the set that select filled in, while
     * fd_num itself shrinks and grows and the workers go on beside it, as many of their steps before each
     * descriptor's turn as beside says: every ready descriptor is visited, once and in order. The pass
     * ends early only when the last client has left after a hang-up, and then no client is left over.
     */
    method ManagerPass(beside: nat -> seq<Move>, r: Selected, fd_client: nat) returns (ghost visited: seq<nat>, left: bool)
      requires Valid() && Enabled(Abs(), Step.Select(r.clients)) && socketFd != pipeFd
      requires |online| < BUFFERSIZE && OnlyWorkersWait()
      requires r.socket ==> Enabled(Abs(), Accept(fd_client))
      requires r.pipe ==> pipe != []
      modifies `setCopy, `managerReadSet, `fd_num, `hand, `online, `clientsOnline, `pipe, `workers, `lost
      modifies jobQueue, jobQueue.commands
      ensures Valid() && hand == None && OnlyWorkersWait()
      ensures forall k, m :: 0 <= k < m < |visited| ==> visited[k] < visited[m]
      ensures forall fd :: fd in visited ==> IsSet(r, Abs(), fd)
      ensures forall fd :: fd in r.clients ==> fd in visited
      ensures if left then blockNewClients && clientsOnline == 0 else forall fd: nat :: IsSet(r, Abs(), fd) ==> fd in visited
    {
      ghost var last, clients, messages := fd_num, online, pipe;
      RangeOf(Abs());
      Select(r.clients);
      StartPass(Abs(), r);
      hide Inv, Numbers, BB.Buffer.Jobs, BB.Buffer.Valid, Next, PassedTo, IsSet;
      ghost var end;
      visited, left, end := VisitAll(beside, r, fd_client, clients, messages, last);
      PassResult(r, fd_client, end, visited, clients, messages, last, left);
    }

    // ----- the workers -----

    /** One pass of the worker's dequeue: a descriptor read back from the ring, or sleep while it is empty. */
    method WorkerDequeue(w: nat) returns (done: bool, fd_client: nat)
      requires Valid() && !exited && w < |workers| && workers[w].Waiting?
      requires Q.Enabled(jobQueue.Abs(), Q.Dequeue(w + 1))
      modifies `workers, jobQueue
      ensures Valid() && (done <==> old(Abs()).queue != [])
      ensures Abs() == if done then Next(old(Abs()), DequeueJob(w)) else old(Abs())
      ensures done ==> workers[w] == Serving(fd_client)
      ensures old(OnlyWorkersWait()) ==> OnlyWorkersWait()
    {
      hide Inv, Consumers;
      if jobQueue.jobNumber > 0 { StepInv(Abs(), DequeueJob(w)); NumbersTail(jobQueue.Jobs()); }
      if OnlyWorkersWait() { ConsumersStay(jobQueue.Abs(), Q.Dequeue(w + 1)); }
      var job;
      done, job := jobQueue.DequeueBuffer(w + 1);
      assert jobQueue.Jobs() == jobQueue.Abs().jobs;
      fd_client := ReadDigits(job, 0);
      if done {
        workers := workers[w := Serving(fd_client)];
      }
    }

    /** Any request but CLOSECONN: once answered, the descriptor goes back through the pipe. */
    method WorkerAnswer(w: nat, received: Received, previous: int)
      requires Valid() && Enabled(Abs(), Serve(w, received, previous)) && FateOf(received, previous).Answered?
      modifies `workers, `pipe
      ensures Valid() && Abs() == Next(old(Abs()), Serve(w, received, previous))
    {
      StepInv(Abs(), Serve(w, received, previous));
      ServeIs(Abs(), w, received, previous);
      hide Inv, FateOf, Next, Enabled, BB.Buffer.Valid, BB.Buffer.Jobs, Numbers;
      pipe := pipe + [Rearm(workers[w].fd)];
      workers := workers[w := Waiting];
    }

    /** CLOSECONN, or a failed read: close the descriptor, then send -1. */
    method WorkerClose(w: nat, received: Received, previous: int)
      requires Valid() && Enabled(Abs(), Serve(w, received, previous)) && FateOf(received, previous).Left?
      modifies `workers, `online
      ensures Valid() && Abs() == Next(old(Abs()), Serve(w, received, previous))
    {
      hide Inv, FateOf, Next, Enabled, BB.Buffer.Valid, BB.Buffer.Jobs, Numbers;
      StepInv(Abs(), Serve(w, received, previous));
      ServeIs(Abs(), w, received, previous);
      online := online - {workers[w].fd};
      workers := workers[w := Closing];
    }

    /** A text no branch serves: the worker goes on to its next job, and nobody selects on the client again. */
    method WorkerDrop(w: nat, received: Received, previous: int)
      requires Valid() && Enabled(Abs(), Serve(w, received, previous)) && FateOf(received, previous).Dropped?
      modifies `workers, `lost
      ensures Valid() && Abs() == Next(old(Abs()), Serve(w, received, previous))
    {
      hide Inv, FateOf, Next, Enabled, BB.Buffer.Valid, BB.Buffer.Jobs, Numbers;
      StepInv(Abs(), Serve(w, received, previous));
      ServeIs(Abs(), w, received, previous);
      lost := lost + {workers[w].fd};
      workers := workers[w := Waiting];
    }

    method WorkerServe(w: nat, received: Received, previous: int)
      requires Valid() && Enabled(Abs(), Serve(w, received, previous))
      modifies `workers, `pipe, `online, `lost
      ensures Valid() && Abs() == Next(old(Abs()), Serve(w, received, previous))
    {
      hide Inv, Valid, Enabled, Next;
      match FateOf(received, previous) {
        case Answered => WorkerAnswer(w, received, previous);
        case Left => WorkerClose(w, received, previous);
        case Dropped => WorkerDrop(w, received, previous);
      }
    }

    method WorkerNotify(w: nat)
      requires Valid() && Enabled(Abs(), Notify(w))
      modifies `pipe, `workers
      ensures Valid() && Abs() == Next(old(Abs()), Notify(w))
    {
      StepInv(Abs(), Notify(w));
      hide Inv, BB.Buffer.Valid, BB.Buffer.Jobs, Numbers;
      pipe := pipe + [Gone];
      workers := workers[w := Waiting];
    }

    // ----- the workers beside the manager -----

    /** One step of a worker, if it is due. A worker that finds the ring empty goes on waiting. */
    method WorkerMove(m: Move)
      requires Valid() && OnlyWorkersWait() && !exited
      modifies `workers, `pipe, `online, `lost, jobQueue
      ensures Valid() && OnlyWorkersWait() && Beside(old(Abs()), Abs())
    {
      BesideItself(Abs());
      if m.w < |workers| {
        match m
        case Dequeues(w) =>
          if workers[w].Waiting? && jobQueue.jobNumber > 0 {
            WakesForJob(w);
            BesideNext(Abs(), DequeueJob(w));
            var done, fd_client := WorkerDequeue(w);
          }
        case Serves(w, received, previous) =>
          if workers[w].Serving? {
            BesideNext(Abs(), Serve(w, received, previous));
            WorkerServe(w, received, previous);
          }
        case Notifies(w) =>
          if workers[w].Closing? {
            BesideNext(Abs(), Notify(w));
            WorkerNotify(w);
          }
      }
    }

    /** A worker that waits while there is a job has been woken. */
    lemma WakesForJob(w: nat)
      requires Valid() && OnlyWorkersWait() && jobQueue.jobNumber > 0
      ensures Q.Enabled(jobQueue.Abs(), Q.Dequeue(w + 1)) && Abs().queue != []
    {
    }

    method WorkersMove(moves: seq<Move>)
      requires Valid() && OnlyWorkersWait() && !exited
      modifies `workers, `pipe, `online, `lost, jobQueue
      ensures Valid() && OnlyWorkersWait() && Beside(old(Abs()), Abs())
    {
      hide Inv, BB.Buffer.Valid, Numbers, BB.Buffer.Jobs, OnlyWorkersWait;
      var i := 0;
      BesideItself(Abs());
      while i < |moves|
        invariant 0 <= i <= |moves| && Valid() && OnlyWorkersWait() && Beside(old(Abs()), Abs())
      {
        WorkerMove(moves[i]);
        i := i + 1;
      }
    }
  }
}
