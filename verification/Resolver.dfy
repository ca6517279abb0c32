/** include/ioxx/detail/adns.hpp: the asynchronous resolver's bookkeeping. */
module Resolver {
  import opened Multimap
  import opened Sockets
  import opened Timers
  import opened TimerTheorems
  import opened TimerSteps
  import PollModel
  import opened PollDispatch
  import opened Schedule
  import opened AdnsLibrary
  import opened Queries
  import opened ClientCode
  import opened Turns
  import opened Deadlines
  import opened Merge

  /** ADNS_POLLFDS_RECOMMENDED */
  const POLLFDS_RECOMMENDED := 2

  /** The registered sockets are the live sockets with a descriptor of ADNS's. */
  ghost predicate Registered(registered: seq<nat>, t: Table, own: iset<nat>) {
    && StrictlyAscending(registered)
    && OwnPart(t, own).Keys == Elements(registered)
    && (forall fd :: fd in OwnPart(t, own) ==> OwnPart(t, own)[fd].handler == ProcessFd(fd))
  }

  /** How a round of the loop in deliver_responses ends. */
  datatype Ending = Again | Finished | Thrown

  class Resolver {
    const lib: Adns
    const sched: Schedule
    const disp: PollDispatch
    var queries: map<nat, Task>
    var registered: seq<nat>            // descriptors of the sockets ADNS polls, ascending
    var pfds: seq<Pollfd>
    ghost var ledger: Ledger<Task>

    /** What clients have no access to. */
    ghost function Mine(): Private {
      Private(TIMEOUT, lib.own)
    }

    /** ADNS and the query table agree on what is outstanding. */
    ghost predicate LedgerOk()
      reads this`queries, this`ledger, lib
    {
      lib.Valid() && lib.outstanding == queries.Keys && Entries(queries, ledger) && TicketsAvoid(ledger.tickets, Mine())
    }

    ghost predicate SocketsOk()
      reads this`registered, disp, disp.demux
    {
      disp.Valid() && Registered(registered, disp.sockets, lib.own)
    }

    ghost predicate SchedOk()
      reads sched
    {
      sched.Valid() && AllAvoid(sched.queue, Mine())
    }

    ghost predicate Valid()
      reads this, lib, sched, disp, disp.demux
    {
      LedgerOk() && SocketsOk() && SchedOk() && |pfds| >= 1
    }

    ghost function Own(): Table
      reads disp`sockets
    {
      OwnPart(disp.sockets, lib.own)
    }

    ghost function Clients(): Table
      reads disp`sockets
    {
      ClientPart(disp.sockets, lib.own)
    }

    ghost function View(): World
      reads this`ledger, sched, disp`sockets
    {
      World(sched.Model(), Clients(), Callbacks(ledger.tickets))
    }

    ghost function Snap(): Snapshot
      reads this`ledger, sched, disp`sockets, lib`processed
    {
      Snapshot(View(), Own(), ledger, lib.processed)
    }

    /** The work left in jobs and callbacks. */
    ghost function Labour(): nat
      reads this`queries, sched`queue
    {
      Work(sched.queue) + CallbackWork(queries)
    }

    /** What client code cannot change at all. */
    ghost function Fixed(): (int, int, (nat, seq<Delivery>, set<Delivery>))
      reads sched`now, lib`asked, disp.demux
    {
      (sched.now, lib.asked, disp.demux.Drain())
    }

    constructor (lib: Adns, sched: Schedule, disp: PollDispatch)
      requires lib.Valid() && lib.outstanding == {}
      requires sched.Valid() && AllAvoid(sched.queue, Private(TIMEOUT, lib.own))
      requires disp.Valid() && OwnPart(disp.sockets, lib.own) == map[]
      ensures this.lib == lib && this.sched == sched && this.disp == disp
      ensures Valid() && queries == map[]
    {
      this.lib, this.sched, this.disp := lib, sched, disp;
      queries, registered := map[], [];
      pfds := seq(POLLFDS_RECOMMENDED, _ => Pair(0, {}));
      ledger := Ledger([], map[], []);
    }

    // Client code

    /** submit, and query_ptr for an address; false if ADNS refuses, which throws. */
    method Submit(callback: Task) returns (ok: bool, ghost qid: nat)
      requires LedgerOk() && Avoids(callback, Mine())
      modifies this`queries, this`ledger, lib
      ensures LedgerOk() && lib.asked == old(lib.asked) && lib.processed == old(lib.processed)
      ensures lib.overdue == old(lib.overdue) && lib.interrupts == old(lib.interrupts)
      ensures !ok ==> queries == old(queries) && ledger == old(ledger)
      ensures ok ==> qid !in old(queries) && queries == old(queries)[qid := callback]
      ensures ok ==> ledger == Submitted(old(ledger), qid, callback)
      ensures ok ==> Callbacks(ledger.tickets) == Callbacks(old(ledger.tickets)) + [callback]
      ensures CallbackWork(queries) <= old(CallbackWork(queries)) + Size(callback)
    {
      hide Entries, Avoids;
      var rc, id := lib.Submit();
      if rc != 0 {
        return false, id;
      }
      SubmittedEntries(queries, ledger, id, callback);
      CallbackWorkAdd(queries, id, callback);
      CallbacksSnoc(ledger.tickets, Ticket(id, callback));
      ledger := Submitted(ledger, id, callback);
      queries := queries[id := callback];
      return true, id;
    }

    method PerformOnSocket(op: Op)
      requires SocketsOk() && op.fd !in lib.own
      modifies disp, disp.demux
      ensures SocketsOk() && Own() == old(Own()) && Clients() == Apply(old(Clients()), op)
      ensures Effect(old(Clients()), op, Clients())
      ensures disp.demux.Drain() == old(disp.demux.Drain())
    {
      hide Effect;
      ApplyEffect(Clients(), op);
      ClientOp(disp.sockets, op, lib.own);
      disp.Perform(op);
      assert forall fd :: fd in Own() ==> disp.sockets[fd] == Own()[fd];
    }

    method PerformOnTimers(task: Task) returns (rest: Task)
      requires SchedOk() && !task.Done? && Avoids(task, Mine())
      modifies sched
      ensures SchedOk() && sched.now == old(sched.now) && sched.Model() == Act(old(sched.Model()), task)
      ensures rest == Rest(old(sched.Model()), task)
      ensures Work(sched.queue) + Size(rest) < old(Work(sched.queue)) + Size(task)
    {
      ActAvoids(sched.Model(), task, Mine());
      ActKeepsTime(sched.Model(), task);
      ActShrinks(sched.Model(), task);
      hide Act, Rest, TimerTheorems.Inv, Broken;
      rest := sched.Perform(task);
    }

    /** The first thing client code does; false if it ends with an exception. */
    method InvokeStep(task: Task) returns (ok: bool, rest: Task)
      requires LedgerOk() && SocketsOk() && SchedOk() && Avoids(task, Mine()) && !task.Done?
      modifies this`queries, this`ledger, lib, sched, disp, disp.demux
      ensures LedgerOk() && SocketsOk() && SchedOk()
      ensures rest < task && Avoids(rest, Mine())
      ensures Fixed() == old(Fixed()) && lib.processed == old(lib.processed)
      ensures lib.overdue == old(lib.overdue) && lib.interrupts == old(lib.interrupts)
      ensures Labour() + Size(rest) < old(Labour()) + Size(task)
      ensures old(ledger.tickets) <= ledger.tickets && ledger.delivered == old(ledger.delivered)
      ensures Own() == old(Own())
      ensures ok ==> View() == ActOn(old(View()), task) && rest == Rest(old(sched.Model()), task)
      ensures ok ==> Acts(old(View()), task, View(), rest)
      ensures ok && task.Socket? ==> Effect(old(Clients()), task.op, Clients())
      ensures !ok ==> View() == old(View())
    {
      hide PollModel.Inv, PollModel.Agree, PollModel.Interest, LayersAgree;
      hide Entries, TimerTheorems.Inv, TicketsAvoid, Registered, AllAvoid, Callbacks, Acts, Effect;
      ActOnActs(View(), task);
      if task.Query? {
        ghost var qid;
        ok, qid := Submit(task.callback);
        return ok, task.next;
      } else if task.Socket? {
        PerformOnSocket(task.op);
        return true, task.next;
      } else {
        ActOnLeaves(View(), task, Mine());
        rest := PerformOnTimers(task);
        return true, rest;
      }
    }

    /** Executes client code; false if it ended with an exception. */
    method Invoke(task: Task) returns (ok: bool)
      requires LedgerOk() && SocketsOk() && SchedOk() && Avoids(task, Mine())
      modifies this`queries, this`ledger, lib, sched, disp, disp.demux
      ensures LedgerOk() && SocketsOk() && SchedOk()
      ensures Fixed() == old(Fixed())
      ensures lib.overdue == old(lib.overdue) && lib.interrupts == old(lib.interrupts)
      ensures Labour() < old(Labour()) + Size(task)
      ensures Invocation(old(Snap()), Snap(), task, ok)
      ensures Performs(old(View()), task, View(), ok)
      decreases task
    {
      hide PollModel.Inv, PollModel.Agree, PollModel.Interest, LayersAgree;
      hide Entries, TimerTheorems.Inv, TicketsAvoid, Registered, AllAvoid, Avoids, Ran, ActOn, Rest, Acts, Performs;
      RanNothing(View(), task);
      ok := true;
      if !task.Done? {
        var rest;
        ok, rest := InvokeStep(task);
        if ok {
          ok := Invoke(rest);
          RanStep(old(View()), View(), task, ok);
        }
      }
      RanPerforms(old(View()), View(), task, ok);
    }

    // Registered sockets

    /** register_fd; the set keeps its order, in which `at` is the place of the new one. */
    method RegisterFd(fd: nat, ev: set<Event>, at: nat)
      requires SocketsOk() && fd in lib.own
      requires at <= |registered|
      requires (at > 0 ==> registered[at - 1] < fd) && (at < |registered| ==> fd < registered[at])
      modifies this`registered, disp, disp.demux
      ensures SocketsOk() && registered == old(registered)[..at] + [fd] + old(registered)[at..]
      ensures Own() == old(Own())[fd := Registration(ProcessFd(fd), ev)]
      ensures disp.trace == old(disp.trace) + [Op.Create(fd, ProcessFd(fd), ev)]
      ensures Clients() == old(Clients()) && disp.demux.Drain() == old(disp.demux.Drain())
    {
      RegisterKeeps(registered, disp.sockets, lib.own, fd, ev, at);
      disp.Create(fd, ProcessFd(fd), ev);
      registered := registered[..at] + [fd] + registered[at..];
    }

    /** Erases one element of the set of registered sockets, which destroys the socket. */
    method Unregister(at: nat)
      requires SocketsOk() && at < |registered|
      modifies this`registered, disp, disp.demux
      ensures SocketsOk() && registered == old(registered)[..at] + old(registered)[at + 1..]
      ensures Own() == old(Own()) - {old(registered)[at]}
      ensures disp.trace == old(disp.trace) + [Op.Destroy(old(registered)[at])]
      ensures Clients() == old(Clients()) && disp.demux.Drain() == old(disp.demux.Drain())
    {
      UnregisterKeeps(registered, disp.sockets, lib.own, at);
      disp.Destroy(registered[at]);
      registered := registered[..at] + registered[at + 1..];
    }

    /** request on a registered socket */
    method Remask(at: nat, ev: set<Event>)
      requires SocketsOk() && at < |registered|
      modifies disp, disp.demux
      ensures SocketsOk()
      ensures Own() == old(Own())[registered[at] := Registration(ProcessFd(registered[at]), ev)]
      ensures disp.trace == old(disp.trace) + [Op.Request(registered[at], ev)]
      ensures Clients() == old(Clients()) && disp.demux.Drain() == old(disp.demux.Drain())
    {
      RemaskKeeps(registered, disp.sockets, lib.own, at, ev);
      disp.Request(registered[at], ev);
    }

    /** Clears the set of registered sockets, which destroys them all. */
    method ClearRegistered()
      requires SocketsOk()
      modifies this`registered, disp, disp.demux
      ensures SocketsOk() && registered == [] && Own() == map[] && Clients() == old(Clients())
      ensures Snap() == old(Snap()).(own := map[])
      ensures disp.demux.Drain() == old(disp.demux.Drain())
      decreases |registered|
    {
      assert Own().Keys == Elements(registered);
      if registered != [] {
        Unregister(0);
        ClearRegistered();
      }
    }

    // The walk at the end of run: from what is registered to what ADNS wants

    /** The requested socket req[i] is new. */
    method WalkCreate(req: seq<Pollfd>, i: nat, ghost old0: seq<nat>, ghost g: nat, ghost n: nat)
      requires SocketsOk() && Requests(req) && StrictlyAscending(old0) && n <= |disp.trace|
      requires Progress(req, i, old0, g, registered, Own(), disp.trace[n..])
      requires i < |req| && (g < |old0| ==> req[i].key < old0[g]) && req[i].key in lib.own
      modifies this`registered, disp, disp.demux
      ensures SocketsOk() && Clients() == old(Clients()) && disp.demux.Drain() == old(disp.demux.Drain())
      ensures old(disp.trace) <= disp.trace
      ensures Progress(req, i + 1, old0, g, registered, Own(), disp.trace[n..])
    {
      var fd: nat := req[i].key;
      StepCreate(req, i, old0, g, registered, Own(), disp.trace[n..]);
      TailSnoc(disp.trace, n, Op.Create(fd, ProcessFd(fd), req[i].value));
      hide Merge.Progress, StrictlyAscending;
      RegisterFd(fd, req[i].value, i);
    }

    /** The socket req[i] is registered already and must be modified. */
    method WalkRemask(req: seq<Pollfd>, i: nat, ghost old0: seq<nat>, ghost g: nat, ghost n: nat)
      requires SocketsOk() && Requests(req) && StrictlyAscending(old0) && n <= |disp.trace|
      requires Progress(req, i, old0, g, registered, Own(), disp.trace[n..])
      requires i < |req| && g < |old0| && req[i].key == old0[g]
      modifies disp, disp.demux
      ensures SocketsOk() && Clients() == old(Clients()) && disp.demux.Drain() == old(disp.demux.Drain())
      ensures old(disp.trace) <= disp.trace
      ensures Progress(req, i + 1, old0, g + 1, registered, Own(), disp.trace[n..])
    {
      StepRemask(req, i, old0, g, registered, Own(), disp.trace[n..]);
      TailSnoc(disp.trace, n, Op.Request(registered[i], req[i].value));
      hide Merge.Progress, StrictlyAscending;
      Remask(i, req[i].value);
    }

    /** The registered socket at the cursor is no longer required. */
    method WalkDestroy(req: seq<Pollfd>, i: nat, ghost old0: seq<nat>, ghost g: nat, ghost n: nat)
      requires SocketsOk() && Requests(req) && StrictlyAscending(old0) && n <= |disp.trace|
      requires Progress(req, i, old0, g, registered, Own(), disp.trace[n..])
      requires g < |old0| && (i < |req| ==> req[i].key > old0[g])
      modifies this`registered, disp, disp.demux
      ensures SocketsOk() && Clients() == old(Clients()) && disp.demux.Drain() == old(disp.demux.Drain())
      ensures old(disp.trace) <= disp.trace
      ensures Progress(req, i, old0, g + 1, registered, Own(), disp.trace[n..])
    {
      StepDestroy(req, i, old0, g, registered, Own(), disp.trace[n..]);
      TailSnoc(disp.trace, n, Op.Destroy(registered[i]));
      hide Merge.Progress, StrictlyAscending;
      Unregister(i);
    }

    /** No more requested descriptors: the remaining sockets go. */
    method WalkDestroyRest(req: seq<Pollfd>, ghost old0: seq<nat>, ghost g0: nat, ghost n: nat)
      requires SocketsOk() && Requests(req) && StrictlyAscending(old0) && n <= |disp.trace|
      requires Progress(req, |req|, old0, g0, registered, Own(), disp.trace[n..])
      modifies this`registered, disp, disp.demux
      ensures SocketsOk() && Clients() == old(Clients()) && disp.demux.Drain() == old(disp.demux.Drain())
      ensures old(disp.trace) <= disp.trace
      ensures Progress(req, |req|, old0, |old0|, registered, Own(), disp.trace[n..])
    {
      ghost var g := g0;
      hide PollModel.Inv, PollModel.Agree, PollModel.Interest, LayersAgree, Registered, StrictlyAscending, OpsSoFar;
      while |req| < |registered|
        invariant SocketsOk() && Clients() == old(Clients()) && disp.demux.Drain() == old(disp.demux.Drain())
        invariant old(disp.trace) <= disp.trace
        invariant Progress(req, |req|, old0, g, registered, Own(), disp.trace[n..])
        decreases |old0| - g
      {
        WalkDestroy(req, |req|, old0, g, n);
        g := g + 1;
      }
    }

    /** No more registered sockets: the remaining requests are new. */
    method WalkCreateRest(req: seq<Pollfd>, i0: nat, ghost old0: seq<nat>, ghost n: nat)
      requires SocketsOk() && Requests(req) && StrictlyAscending(old0) && n <= |disp.trace|
      requires i0 <= |req| && Progress(req, i0, old0, |old0|, registered, Own(), disp.trace[n..])
      requires forall k :: 0 <= k < |req| ==> req[k].key in lib.own
      modifies this`registered, disp, disp.demux
      ensures SocketsOk() && Clients() == old(Clients()) && disp.demux.Drain() == old(disp.demux.Drain())
      ensures old(disp.trace) <= disp.trace
      ensures Progress(req, |req|, old0, |old0|, registered, Own(), disp.trace[n..])
    {
      var i := i0;
      while i < |req|
        invariant i <= |req| && SocketsOk() && Clients() == old(Clients())
        invariant disp.demux.Drain() == old(disp.demux.Drain()) && old(disp.trace) <= disp.trace
        invariant Progress(req, i, old0, |old0|, registered, Own(), disp.trace[n..])
      {
        WalkCreate(req, i, old0, |old0|, n);
        i := i + 1;
      }
    }

    /** One round of the loop, with something requested and something registered left. */
    method WalkStep(req: seq<Pollfd>, i: nat, ghost old0: seq<nat>, ghost g: nat, ghost n: nat)
      returns (i': nat, ghost g': nat)
      requires SocketsOk() && Requests(req) && StrictlyAscending(old0) && n <= |disp.trace|
      requires Progress(req, i, old0, g, registered, Own(), disp.trace[n..])
      requires i < |req| && i < |registered| && forall k :: 0 <= k < |req| ==> req[k].key in lib.own
      modifies this`registered, disp, disp.demux
      ensures SocketsOk() && Clients() == old(Clients()) && disp.demux.Drain() == old(disp.demux.Drain())
      ensures old(disp.trace) <= disp.trace
      ensures Progress(req, i', old0, g', registered, Own(), disp.trace[n..])
      ensures i <= i' <= |req| && g <= g' <= |old0| && i + g < i' + g'
      ensures i' <= |registered| && (i' < |registered| <==> g' < |old0|)
    {
      hide PollModel.Inv, PollModel.Agree, PollModel.Interest, LayersAgree, OwnPart, ClientPart;
      hide Registered, StrictlyAscending, Merge.Progress, Requests;
      AtCursor(req, i, old0, g, registered, Own(), disp.trace[n..]);
      i', g' := i, g;
      if req[i].key < registered[i] {
        WalkCreate(req, i, old0, g, n);
        i' := i + 1;
      } else if req[i].key == registered[i] {
        WalkRemask(req, i, old0, g, n);
        i', g' := i + 1, g + 1;
      } else {
        WalkDestroy(req, i, old0, g, n);
        g' := g + 1;
      }
      AtCursor(req, i', old0, g', registered, Own(), disp.trace[n..]);
    }

    /** `i` is the position of both cursors: what is before it is done. */
    method Walk(req: seq<Pollfd>)
      requires SocketsOk() && Requests(req) && forall k :: 0 <= k < |req| ==> req[k].key in lib.own
      modifies this`registered, disp, disp.demux
      ensures SocketsOk() && Clients() == old(Clients()) && disp.demux.Drain() == old(disp.demux.Drain())
      ensures old(disp.trace) <= disp.trace
      ensures Progress(req, |req|, old(registered), |old(registered)|, registered, Own(), disp.trace[|old(disp.trace)|..])
    {
      ghost var old0, n := registered, |disp.trace|;
      var i := 0;
      ghost var g: nat := 0;
      WalkStart(req, old0, Own());
      hide PollModel.Inv, PollModel.Agree, PollModel.Interest, LayersAgree, OwnPart, ClientPart;
      assert StrictlyAscending(old0);
      hide Registered, StrictlyAscending, Merge.Progress, Requests;
      AtCursor(req, i, old0, g, registered, Own(), disp.trace[n..]);
      while i < |req| && i < |registered|
        invariant i <= |req| && SocketsOk() && Clients() == old(Clients())
        invariant disp.demux.Drain() == old(disp.demux.Drain()) && old(disp.trace) <= disp.trace
        invariant Progress(req, i, old0, g, registered, Own(), disp.trace[n..])
        invariant i <= |registered| && g <= |old0| && (i < |registered| <==> g < |old0|)
        decreases |req| - i + |old0| - g
      {
        i, g := WalkStep(req, i, old0, g, n);
      }
      if i == |req| {
        WalkDestroyRest(req, old0, g, n);
      } else {
        WalkCreateRest(req, i, old0, n);
      }
    }

    /** Sorts what ADNS asked for, and walks. Whatever was registered before, afterwards the
        resolver's sockets are those asked for; the operations that were performed are those
        called for, and no others. */
    method Reconcile(nfds: nat)
      requires SocketsOk() && lib.Valid()
      requires nfds <= |pfds| && pfds[..nfds] == lib.wanted
      modifies this`registered, this`pfds, disp, disp.demux
      ensures SocketsOk() && |pfds| == old(|pfds|)
      ensures Matches(Own(), lib.wanted) && Clients() == old(Clients())
      ensures disp.demux.Drain() == old(disp.demux.Drain())
      ensures old(disp.trace) <= disp.trace
      ensures Minimal(disp.trace[|old(disp.trace)|..], Elements(old(registered)), lib.wanted)
    {
      hide PollModel.Inv, PollModel.Agree, PollModel.Interest, LayersAgree, Registered;
      hide Merge.Progress, Minimal, Matches, Sane, StableSort;
      var req := SortRequests(nfds);
      Walk(req);
      assert Own().Keys == Elements(registered) by { Keys(registered, disp.sockets, lib.own); }
      ghost var ops := disp.trace[|old(disp.trace)|..];
      WalkDone(req, old(registered), registered, Own(), ops);
      SameRequests(ops, Elements(old(registered)), Own(), req, lib.wanted);
    }

    /** std::sort */
    method SortRequests(nfds: nat) returns (req: seq<Pollfd>)
      requires lib.Valid() && nfds <= |pfds| && pfds[..nfds] == lib.wanted
      modifies this`pfds
      ensures |pfds| == old(|pfds|) && req == pfds[..nfds]
      ensures (forall p :: p in req <==> p in lib.wanted) && Requests(req)
      ensures forall k :: 0 <= k < |req| ==> req[k].key in lib.own
    {
      SortDistinct(lib.wanted);
      req := StableSort(pfds[..nfds]);
      assert req == StableSort(lib.wanted);
      pfds := req + pfds[nfds..];
      forall k | 0 <= k < |req| ensures req[k].key >= 0 && req[k].key in lib.own {
        assert req[k] in req;
      }
    }

    // Answers

    /** deliver_responses; false if it ended with an exception. */
    method DeliverResponses() returns (ok: bool)
      requires Valid()
      modifies this`queries, this`ledger, this`registered, lib, sched, disp, disp.demux
      ensures Valid() && Fixed() == old(Fixed()) && lib.overdue == old(lib.overdue)
      ensures Responses(old(Snap()), Snap(), ok)
      ensures ok ==> lib.answered == {}
      ensures Labour() <= old(Labour())
    {
      hide PollModel.Inv, PollModel.Agree, PollModel.Interest, LayersAgree;
      hide Entries, TimerTheorems.Inv, TicketsAvoid, Registered, AllAvoid, Answers, Responses;
      NothingYet(Snap());
      var ending := Again;
      while ending == Again
        invariant Valid() && Fixed() == old(Fixed()) && lib.overdue == old(lib.overdue)
        invariant match ending
                  case Again => Answers(old(Snap()), Snap(), true)
                  case Finished => Responses(old(Snap()), Snap(), true) && lib.answered == {}
                  case Thrown => Responses(old(Snap()), Snap(), false)
        invariant Labour() <= old(Labour())
        decreases ending == Again, Labour(), lib.interrupts
      {
        ghost var before := Snap();
        ending := DeliverNext();
        if ending == Again {
          AnswersCompose(old(Snap()), before, Snap(), true);
        } else {
          ResponsesCompose(old(Snap()), before, Snap(), ending == Finished);
        }
      }
      ok := ending == Finished;
    }

    /** One round of the loop in deliver_responses. */
    method DeliverNext() returns (ending: Ending)
      requires Valid()
      modifies this`queries, this`ledger, this`registered, lib, sched, disp, disp.demux
      ensures Valid() && Fixed() == old(Fixed()) && lib.overdue == old(lib.overdue)
      ensures match ending
              case Again => Answers(old(Snap()), Snap(), true)
              case Finished => Responses(old(Snap()), Snap(), true) && lib.answered == {}
              case Thrown => Responses(old(Snap()), Snap(), false)
      ensures Labour() <= old(Labour())
      ensures ending == Again ==> Labour() < old(Labour()) || lib.interrupts < old(lib.interrupts)
    {
      hide PollModel.Inv, PollModel.Agree, PollModel.Interest, LayersAgree;
      hide TimerTheorems.Inv, TicketsAvoid, Registered, AllAvoid, Answers, Responses, SchedOk, View, Own, Clients;
      NoQueries();
      NothingYet(Snap());
      NoMore(Snap());
      hide Entries;
      var rc, qid := lib.Check();
      assert Snap() == old(Snap());
      if rc == EINTR {
        return Again;
      } else if rc == ESRCH {
        ClearRegistered();
        return Finished;
      } else if rc == EAGAIN {
        return Finished;
      } else if rc != 0 {
        return Thrown;
      }
      var ok := Deliver(qid);
      AnswersEnd(old(Snap()), Snap());
      return if ok then Again else Thrown;
    }

    /** Takes the callback of an answered query out of the table. */
    method Take(qid: nat) returns (f: Task)
      requires lib.Valid() && Entries(queries, ledger) && TicketsAvoid(ledger.tickets, Mine()) && qid in queries
      requires lib.outstanding == queries.Keys - {qid}
      modifies this`queries, this`ledger
      ensures LedgerOk() && Avoids(f, Mine())
      ensures f == old(queries)[qid] && queries == old(queries) - {qid}
      ensures CallbackWork(queries) + Size(f) == old(CallbackWork(queries))
      ensures ledger == Answered(old(ledger), qid, f)
    {
      AnsweredEntries(queries, ledger, qid);
      CallbackWorkRemove(queries, qid);
      f := queries[qid];
      ledger := Answered(ledger, qid, f);
      queries := queries - {qid};
    }

    /** One answer, which ADNS has just handed out: erase the query, call its callback. */
    method Deliver(qid: nat) returns (ok: bool)
      requires lib.Valid() && SocketsOk() && SchedOk()
      requires Entries(queries, ledger) && TicketsAvoid(ledger.tickets, Mine()) && qid in queries
      requires lib.outstanding == queries.Keys - {qid}
      modifies this`queries, this`ledger, lib, sched, disp, disp.demux
      ensures LedgerOk() && SocketsOk() && SchedOk()
      ensures Fixed() == old(Fixed())
      ensures lib.overdue == old(lib.overdue) && lib.interrupts == old(lib.interrupts)
      ensures Labour() < old(Labour())
      ensures ledger.delivered == old(ledger.delivered) + [Delivered(old(ledger.pending)[qid], qid, old(queries)[qid])]
      ensures Ran(old(View()), View(), old(queries)[qid], ok)
      ensures Answers(old(Snap()), Snap(), ok)
    {
      hide PollModel.Inv, PollModel.Agree, PollModel.Interest, LayersAgree;
      hide TimerTheorems.Inv, TicketsAvoid, Registered, AllAvoid, Ran, Answers, Avoids;
      ghost var d := Delivered(ledger.pending[qid], qid, queries[qid]);
      var f := Take(qid);
      hide Entries;
      ok := Invoke(f);
      OneAnswer(old(Snap()), Snap(), d, ok);
    }

    /** process_timeout; false if it ended with an exception. */
    method ProcessTimeout() returns (ok: bool)
      requires Valid()
      modifies this`queries, this`ledger, this`registered, lib, sched, disp, disp.demux
      ensures Valid() && Fixed() == old(Fixed())
      ensures Expiry(old(Snap()), Snap(), ok)
      ensures ok ==> lib.answered == {}
      ensures lib.overdue < old(lib.overdue) || lib.overdue == old(lib.overdue) == 0
      ensures Labour() <= old(Labour())
    {
      hide PollModel.Inv, PollModel.Agree, PollModel.Interest, LayersAgree;
      hide Entries, TimerTheorems.Inv, TicketsAvoid, Registered, AllAvoid, Responses;
      lib.ProcessTimeouts();
      ok := DeliverResponses();
    }

    /** process_fd, the handler of the registered sockets: tells ADNS of each event, as long
        as it does not fail, and delivers. */
    method ProcessEvents(fd: nat, ev: set<Event>) returns (ok: bool)
      requires Valid()
      modifies this`queries, this`ledger, this`registered, lib, sched, disp, disp.demux
      ensures Valid() && Fixed() == old(Fixed())
      ensures Telling(old(Snap()), Snap(), fd, ev, ok)
      ensures old(lib.processed) <= lib.processed
      ensures ok ==> Tells(lib.processed[|old(lib.processed)|..], fd, ev)
      ensures ok ==> lib.answered == {}
      ensures Labour() <= old(Labour())
    {
      hide PollModel.Inv, PollModel.Agree, PollModel.Interest, LayersAgree;
      hide Entries, TimerTheorems.Inv, TicketsAvoid, Registered, AllAvoid, RanAll, ProcessingsOf, Tells;
      var rc := TellLibrary(fd, ev);
      NothingYet(Snap());
      ok := false;
      if rc == 0 {
        ok := DeliverResponses();
      }
    }

    method TellLibrary(fd: nat, ev: set<Event>) returns (rc: int)
      requires LedgerOk()
      modifies lib
      ensures LedgerOk() && lib.asked == old(lib.asked)
      ensures rc == 0 ==> lib.processed == old(lib.processed) + ProcessingsOf(fd, ev)
      ensures rc == 0 ==> Tells(lib.processed[|old(lib.processed)|..], fd, ev)
      ensures old(lib.processed) <= lib.processed <= old(lib.processed) + ProcessingsOf(fd, ev)
    {
      hide Entries, TicketsAvoid, Tells;
      ProcessingsTell(fd, ev);
      assert (lib.processed + ProcessingsOf(fd, ev))[|lib.processed|..] == ProcessingsOf(fd, ev);
      rc := 0;
      if Event.Readable in ev {
        rc := lib.ProcessFd(Processing.Readable(fd));
      }
      if rc == 0 && Event.Writable in ev {
        rc := lib.ProcessFd(Processing.Writable(fd));
      }
      if rc == 0 && Pridata in ev {
        rc := lib.ProcessFd(Exceptional(fd));
      }
    }

    // run

    /** The loop over adns_beforepoll, up to an answer with a timeout that is not over. Then
        `nfds` descriptors are at the front of the buffer. */
    method Probe() returns (ok: bool, nfds: nat, timeout: int)
      requires Valid()
      modifies this, lib, sched, disp, disp.demux
      ensures Valid() && sched.now == old(sched.now) && disp.demux.Drain() == old(disp.demux.Drain())
      ensures Probing(old(Snap()), Snap(), ok)
      ensures ok ==> nfds <= |pfds| && pfds[..nfds] == lib.wanted
      ensures ok ==> timeout == lib.asked > 0
    {
      hide PollModel.Inv, PollModel.Agree, PollModel.Interest, LayersAgree;
      hide Entries, TimerTheorems.Inv, TicketsAvoid, Registered, AllAvoid, Probing, Expiry;
      nfds := |pfds|;
      NothingYet(Snap());
      while true
        invariant Valid() && sched.now == old(sched.now) && disp.demux.Drain() == old(disp.demux.Drain())
        invariant Probing(old(Snap()), Snap(), true) && Probing(old(Snap()), Snap(), false)
        invariant nfds <= |pfds|
        decreases lib.overdue, if |lib.wanted| > nfds then 1 else 0
      {
        ghost var before := Snap();
        var rc, filled, n;
        rc, filled, n, timeout := lib.BeforePoll(pfds, nfds);
        nfds := n;
        if rc == ERANGE {
          pfds := Resize(pfds, nfds);
        } else if rc != 0 {
          return false, 0, 0;
        } else {
          pfds := filled;
          if timeout != 0 {
            return true, nfds, timeout;
          }
          ok := ProcessTimeout();
          ProbingCompose(old(Snap()), before, Snap(), ok);
          if !ok {
            return;
          }
          ProbingOn(old(Snap()), Snap());
        }
      }
    }

    /** The end of that loop: arms the timeout. The cancel call in it leaves defined
        behaviour exactly if its guard says so. */
    method Arm(ms: nat)
      requires SchedOk()
      modifies sched
      ensures SchedOk() && sched.now == old(sched.now)
      ensures sched.Model() == Put(CancelSlot(old(sched.Model()), Timeout(TIMEOUT)), Timeout(TIMEOUT),
                                   sched.now + CeilSeconds(ms), Done)
      ensures ArmedFor(sched.Model(), sched.now + CeilSeconds(ms))
      ensures sched.broken <==> old(sched.broken) || Stale(old(sched.Model()), Timeout(TIMEOUT))
    {
      hide TimerTheorems.Inv, AllAvoid, ArmedFor, Put, CancelSlot, Stale, Broken;
      var to := WholeSeconds(ms);
      ArmKeeps(sched.Model(), sched.now + to, Mine());
      ArmKeepsTime(sched.Model(), sched.now + to);
      var _ := sched.TimeoutIn(TIMEOUT, to, Done);
    }

    method WholeSeconds(ms: nat) returns (to: nat)
      ensures to == CeilSeconds(ms)
    {
      to := ms / 1000;
      if ms % 1000 != 0 {
        to := to + 1;
      }
    }

    /** _timeout.cancel() at the start of run */
    method Disarm()
      requires Valid()
      modifies sched
      ensures Valid() && sched.now == old(sched.now)
      ensures sched.Model() == CancelSlot(old(sched.Model()), Timeout(TIMEOUT))
      ensures Snap() == old(Snap()).(world := Disarmed(old(View())))
      ensures sched.lawful ==> Unowned(sched.Model(), TIMEOUT)
      ensures sched.broken <==> old(sched.broken) || Stale(old(sched.Model()), Timeout(TIMEOUT))
    {
      hide TimerTheorems.Inv, AllAvoid, Stale, Broken, LedgerOk, SocketsOk, ArmedFor, Put, Unowned, VerdictOf, Remove;
      ArmKeeps(sched.Model(), 0, Mine());
      CancelKeeps(sched.Model(), Timeout(TIMEOUT));
      var _ := sched.Cancel(Timeout(TIMEOUT));
    }

    /** run; false if it ended with an exception. Clients see the effects of the callbacks
        called on the way, and of nothing else. */
    method Run() returns (ok: bool)
      requires Valid()
      modifies this, lib, sched, disp, disp.demux
      ensures Valid() && sched.now == old(sched.now) && disp.demux.Drain() == old(disp.demux.Drain())
      ensures Resolution(old(Snap()), Snap(), lib.asked, ok)
      ensures old(queries) == map[] ==> ok && queries == map[] && registered == []
      ensures old(queries) != map[] && ok ==>
                Matches(Own(), lib.wanted) && lib.asked > 0 && ArmedFor(sched.Model(), sched.now + CeilSeconds(lib.asked))
    {
      hide PollModel.Inv, PollModel.Agree, PollModel.Interest, LayersAgree;
      hide ArmedFor, Matches, Probing, Resolution, CancelSlot, Stale, LedgerOk, SchedOk, View, Own, Clients;
      NoQueries();
      Disarm();
      NoQueries();
      if queries == map[] {
        ClearRegistered();
        NothingToResolve(old(Snap()), Snap(), lib.asked);
        return true;
      }
      ghost var probed;
      ok, probed := Renew();
      ResolutionEnd(old(Snap()), probed, Snap(), lib.asked, ok);
    }

    /** What run does when queries are outstanding, and the timeout is cancelled. */
    method Renew() returns (ok: bool, ghost probed: Snapshot)
      requires Valid()
      modifies this, lib, sched, disp, disp.demux
      ensures Valid() && sched.now == old(sched.now) && disp.demux.Drain() == old(disp.demux.Drain())
      ensures Probing(old(Snap()), probed, ok)
      ensures Snap().ledger == probed.ledger && Snap().processed == probed.processed
      ensures !ok ==> View() == probed.world
      ensures ok ==>
                && lib.asked > 0 && View() == Rearmed(probed.world, old(View()).timers.now + CeilSeconds(lib.asked))
                && Matches(Own(), lib.wanted) && ArmedFor(sched.Model(), sched.now + CeilSeconds(lib.asked))
    {
      hide PollModel.Inv, PollModel.Agree, PollModel.Interest, LayersAgree, Entries;
      hide TimerTheorems.Inv, TicketsAvoid, Registered, AllAvoid, ArmedFor, Matches, Probing;
      hide Put, CancelSlot, Stale, Broken, Minimal;
      var nfds, timeout;
      ok, nfds, timeout := Probe();
      probed := Snap();
      if ok {
        Arm(timeout);
        Reconcile(nfds);
      }
    }

    lemma SnapConsistent()
      requires LedgerOk() && SocketsOk() && SchedOk()
      ensures Consistent(Snap(), Mine())
    {
    }

    lemma NoneRegistered()
      requires SocketsOk() && registered == []
      ensures Own() == map[]
    {
      assert Own().Keys == {};
    }

    lemma NoQueries()
      requires LedgerOk()
      ensures queries == map[] <==> ledger.pending == map[]
    {
      NothingPending(queries, ledger);
    }

    /** What LedgerOk means for a single submission: it is outstanding with ADNS, and has its
        entry in the table, or its callback has been called; not both, and not twice. */
    lemma Accounts(t: nat)
      requires LedgerOk() && t < |ledger.tickets|
      ensures var ticket := ledger.tickets[t];
              && (t in Tickets(ledger.delivered) <==> !IsPending(ledger, t))
              && (IsPending(ledger, t) ==> ticket.qid in lib.outstanding && queries[ticket.qid] == ticket.callback)
              && (forall i, j :: 0 <= i < |ledger.delivered| && 0 <= j < |ledger.delivered|
                    && ledger.delivered[i].ticket == ledger.delivered[j].ticket == t
                    ==> i == j)
              && |ledger.tickets| == |ledger.delivered| + |lib.outstanding|
    {
      ExactlyOnce(ledger, [], t);
      assert |ledger.pending.Keys| == |lib.outstanding|;
    }
  }

  /** vector::resize */
  function Resize(pfds: seq<Pollfd>, n: nat): (r: seq<Pollfd>)
    ensures |r| == n && forall i :: 0 <= i < n && i < |pfds| ==> r[i] == pfds[i]
  {
    if n <= |pfds| then pfds[..n] else pfds + seq(n - |pfds|, _ => Pair(0, {}))
  }

  lemma Keys(registered: seq<nat>, t: Table, own: iset<nat>)
    requires Registered(registered, t, own)
    ensures OwnPart(t, own).Keys == Elements(registered)
  {
  }

  lemma RegisterKeeps(registered: seq<nat>, t: Table, own: iset<nat>, fd: nat, ev: set<Event>, at: nat)
    requires Registered(registered, t, own) && fd in own && at <= |registered|
    requires (at > 0 ==> registered[at - 1] < fd) && (at < |registered| ==> fd < registered[at])
    ensures fd !in t
    ensures var t' := t[fd := Registration(ProcessFd(fd), ev)];
            && Registered(registered[..at] + [fd] + registered[at..], t', own)
            && OwnPart(t', own) == OwnPart(t, own)[fd := Registration(ProcessFd(fd), ev)]
            && ClientPart(t', own) == ClientPart(t, own)
  {
    assert fd !in Elements(registered);
    assert fd in t ==> fd in OwnPart(t, own);
    OwnOp(t, Op.Create(fd, ProcessFd(fd), ev), own);
    InsertElement(registered, fd, at);
  }

  lemma UnregisterKeeps(registered: seq<nat>, t: Table, own: iset<nat>, at: nat)
    requires Registered(registered, t, own) && at < |registered|
    ensures var fd := registered[at];
            && fd in t
            && Registered(registered[..at] + registered[at + 1..], t - {fd}, own)
            && OwnPart(t - {fd}, own) == OwnPart(t, own) - {fd}
            && ClientPart(t - {fd}, own) == ClientPart(t, own)
  {
    var fd := registered[at];
    assert fd in Elements(registered) && fd in OwnPart(t, own);
    OwnOp(t, Op.Destroy(fd), own);
    RemoveElement(registered, at);
  }

  lemma RemaskKeeps(registered: seq<nat>, t: Table, own: iset<nat>, at: nat, ev: set<Event>)
    requires Registered(registered, t, own) && at < |registered|
    ensures var fd := registered[at];
            && fd in t
            && var t' := t[fd := t[fd].(interest := ev)];
            && Registered(registered, t', own)
            && OwnPart(t', own) == OwnPart(t, own)[fd := Registration(ProcessFd(fd), ev)]
            && ClientPart(t', own) == ClientPart(t, own)
  {
    var fd := registered[at];
    assert fd in Elements(registered) && fd in OwnPart(t, own);
    OwnOp(t, Op.Request(fd, ev), own);
  }

  lemma InsertElement(s: seq<nat>, x: nat, at: nat)
    requires StrictlyAscending(s) && at <= |s|
    requires (at > 0 ==> s[at - 1] < x) && (at < |s| ==> x < s[at])
    ensures var s' := s[..at] + [x] + s[at..]; StrictlyAscending(s') && Elements(s') == Elements(s) + {x}
  {
    InsertAscending(s, x, at);
    hide StrictlyAscending;
    var s' := s[..at] + [x] + s[at..];
    assert s'[at] == x;
    forall y | y in Elements(s) ensures y in Elements(s') {
      var i :| 0 <= i < |s| && s[i] == y;
      assert s'[if i < at then i else i + 1] == y;
    }
    forall i | 0 <= i < |s'| ensures s'[i] == x || s'[i] in Elements(s) {
      assert i < at ==> s'[i] == s[i];
      assert i > at ==> s'[i] == s[i - 1];
    }
  }

  lemma InsertAscending(s: seq<nat>, x: nat, at: nat)
    requires StrictlyAscending(s) && at <= |s|
    requires (at > 0 ==> s[at - 1] < x) && (at < |s| ==> x < s[at])
    ensures StrictlyAscending(s[..at] + [x] + s[at..])
  {
    var s' := s[..at] + [x] + s[at..];
    assert forall i :: 0 <= i < at ==> s'[i] == s[i] && s'[i] < x;
    assert forall i :: at < i < |s'| ==> s'[i] == s[i - 1] && s'[i] > x;
  }

  lemma RemoveElement(s: seq<nat>, at: nat)
    requires StrictlyAscending(s) && at < |s|
    ensures var s' := s[..at] + s[at + 1..]; StrictlyAscending(s') && Elements(s') == Elements(s) - {s[at]}
  {
    var s' := s[..at] + s[at + 1..];
    forall y | y in Elements(s) && y != s[at] ensures y in Elements(s') {
      var i :| 0 <= i < |s| && s[i] == y;
      assert s'[if i < at then i else i - 1] == y;
    }
    forall i | 0 <= i < |s'| ensures s'[i] != s[at] && s'[i] in Elements(s) {
      assert s'[i] == s[if i < at then i else i + 1];
    }
  }
}
