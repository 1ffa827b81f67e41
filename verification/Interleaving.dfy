/** The server's classes under every interleaving: between any two steps of the loop, the acceptor and the workers may
    queue requests. What the classes hold is at each moment the state of the corresponding run. */
module Interleaving {
  import opened Text
  import opened Connections
  import opened Indexes
  import opened Tasks
  import opened Handlers
  import opened Reactor
  import opened Registry
  import opened Server

  /** The server with what its loop has in hand. */
  class Machine {
    const server: EpollServer
    const registry: EpollRegistry
    var batch: seq<Request>
    var events: seq<Report>
    var current: Option<Dispatch>
    ghost var seen: set<int>

    ghost function State(): Loop
      reads this, server, registry
    {
      Loop(registry.infos, registry.masks, batch, registry.cmdQ, events, current, seen, server.tasks)
    }

    ghost predicate Valid()
      reads this, server, registry
    {
      server.registry == registry && registry.Valid() && Inv(State())
    }

    constructor ()
      ensures Valid() && State() == START && fresh(server) && fresh(registry)
    {
      var r := new EpollRegistry();
      var s := new EpollServer(r);
      registry, server := r, s;
      batch, events, current, seen := [], [], None, {};
    }

    // -------------------------------------------------------------- producers

    method Accept(fd: int, interest: Mask)
      requires Valid() && Possible(State(), Step.Accept(fd, interest))
      modifies this, registry`cmdQ
      ensures Valid() && State() == Next(old(State()), Step.Accept(fd, interest))
    {
      StepKeepsInv(State(), Step.Accept(fd, interest));
      registry.Push(RegisterFd(fd, interest));
      seen := seen + {fd};
    }

    method Ask(req: Request)
      requires Valid() && Possible(State(), Step.Ask(req))
      modifies registry`cmdQ
      ensures Valid() && State() == Next(old(State()), Step.Ask(req))
    {
      StepKeepsInv(State(), Step.Ask(req));
      registry.Push(req);
    }

    // -------------------------------------------------------------- the loop

    method Wait(reports: seq<Report>)
      requires Valid() && Possible(State(), Step.Wait(reports))
      modifies this, registry`cmdQ
      ensures Valid() && State() == Next(old(State()), Step.Wait(reports))
    {
      StepKeepsInv(State(), Step.Wait(reports));
      batch := registry.TakeQueue();
      events := reports;
    }

    method HandleOne(k: Kernel)
      requires Valid() && Possible(State(), Step.HandleOne(k))
      modifies this, registry
      ensures Valid() && State() == Next(old(State()), Step.HandleOne(k))
    {
      StepKeepsInv(State(), Step.HandleOne(k));
      registry.HandleRequest(batch[0], k);
      batch := batch[1..];
    }

    method Begin()
      requires Valid() && Possible(State(), Step.Begin)
      modifies this
      ensures Valid() && State() == Next(old(State()), Step.Begin)
    {
      StepKeepsInv(State(), Step.Begin);
      var r := events[0];
      events := events[1..];
      var first := if Trouble in r.bits then Failing else Receiving;
      current := if r.fd in registry.infos then Some(Dispatch(r.fd, r.bits, first)) else None;
    }

    method ClientError()
      requires Valid() && Possible(State(), Step.ClientError)
      modifies this, registry`infos, registry`cmdQ
      ensures Valid() && State() == Next(old(State()), Step.ClientError)
    {
      StepKeepsInv(State(), Step.ClientError);
      HandlersMayRun(State());
      UpdatedSame(registry.masks, current.value.fd);
      server.HandleClientError(current.value.fd);
      current := None;
    }

    method Recv(e: Env)
      requires Valid() && Possible(State(), Step.Recv(e))
      modifies this, registry`infos, registry`masks, registry`cmdQ
      ensures Valid() && State() == Next(old(State()), Step.Recv(e))
    {
      StepKeepsInv(State(), Step.Recv(e));
      HandlersMayRun(State());
      var d := current.value;
      var keepAlive := true;
      if IsRead(d.bits) {
        keepAlive := server.HandleRecv(d.fd, d.bits, e);
      }
      current := if keepAlive then Some(d.(stage := Sending)) else None;
    }

    method Send(e: Env)
      requires Valid() && Possible(State(), Step.Send(e))
      modifies this, registry`infos, registry`masks, registry`cmdQ
      ensures Valid() && State() == Next(old(State()), Step.Send(e))
    {
      StepKeepsInv(State(), Step.Send(e));
      HandlersMayRun(State());
      var d := current.value;
      if Out in d.bits {
        server.HandleSend(d.fd, e);
      }
      current := if IsRead(d.bits) then Some(d.(stage := Executing)) else None;
    }

    method Execute(accepting: bool)
      requires Valid() && Possible(State(), Step.Execute(accepting))
      modifies this, server, registry`infos, registry`cmdQ
      ensures Valid() && State() == Next(old(State()), Step.Execute(accepting))
    {
      StepKeepsInv(State(), Step.Execute(accepting));
      HandlersMayRun(State());
      var fd := current.value.fd;
      server.running := accepting;
      ghost var line: Option<string>;
      var more: bool;
      more, line := server.HandleExecute(fd);
      if !more { current := None; }
    }

    method Perform(step: Step)
      requires Valid() && Possible(State(), step)
      modifies this, server, registry
      ensures Valid() && State() == Next(old(State()), step)
    {
      match step
      case Accept(fd, interest) => Accept(fd, interest);
      case Ask(req) => Ask(req);
      case Wait(reports) => Wait(reports);
      case HandleOne(k) => HandleOne(k);
      case Begin => Begin();
      case ClientError => ClientError();
      case Recv(e) => Recv(e);
      case Send(e) => Send(e);
      case Execute(accepting) => Execute(accepting);
    }
  }

  /** The classes follow every run, whoever queues requests in between. So after any interleaving the table, the
      kernel's masks, the queue and the executor's tasks are those of the run, both indexes and the client count agree
      with the table, every live connection with something to write is watched for it, and a closed connection has
      exactly one removal waiting. */
  method RunMachine(steps: seq<Step>, ghost states: seq<Loop>)
    returns (t: Table, masks: map<int, Mask>, waiting: seq<Request>, tasks: seq<Task>,
             rooms: Index<int>, users: Index<string>, count: nat)
    requires Run(states, steps) && states[0] == START
    ensures var s := states[|steps|];
      t == s.infos && masks == s.masks && waiting == s.batch + s.queue && tasks == s.tasks
    ensures forall r, fd :: Indexed(rooms, r, fd) <==> fd in t && r in t[fd].joined
    ensures forall u, fd :: Indexed(users, u, fd) <==> fd in t && t[fd].userId == u && u != ""
    ensures count == |t| && masks.Keys == t.Keys
    ensures forall fd :: fd in t ==> Watched(t[fd], masks[fd])
    ensures forall fd :: fd in t ==> multiset(waiting)[UnregisterFd(fd)] == if t[fd].closed then 1 else 0
  {
    var m := new Machine();
    for i := 0 to |steps|
      invariant fresh(m) && fresh(m.server) && fresh(m.registry)
      invariant m.Valid() && m.State() == states[i]
    {
      assert Moves(states[i], steps[i], states[i + 1]);
      m.Perform(steps[i]);
    }
    t, masks, waiting, tasks := m.registry.infos, m.registry.masks, m.batch + m.registry.cmdQ, m.server.tasks;
    rooms, users, count := m.registry.roomOnline, m.registry.userOnline, m.registry.clientCount;
    IndexesSay(t, rooms, users);
  }
}
