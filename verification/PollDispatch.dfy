/** include/ioxx/detail/poll.hpp and include/ioxx/dispatch.hpp: the poll demultiplexer and
    the dispatcher on top of it, in place. */
module PollDispatch {
  import opened Multimap
  import opened Sockets
  import opened PollModel

  /** The longest wait poll(2) can be asked for, in seconds. */
  const MAX_TIMEOUT := 0x7fff_ffff / 1000

  /** It is the largest number of seconds whose milliseconds fit an int. */
  lemma LongestWait(seconds: nat)
    ensures seconds <= MAX_TIMEOUT <==> 1000 * seconds <= 0x7fff_ffff
  {
  }

  /** What poll(2) did: it reports bits for every entry of the array, or is interrupted. */
  datatype Reply = Polled(revents: seq<set<Flag>>) | Interrupted

  ghost predicate Covers(reply: Reply, pfd: seq<Pfd>) {
    reply.Polled? ==> |reply.revents| == |pfd|
  }

  /** Without an entry to move, removal only drops the last one. */
  lemma RemoveLast(st: State, fd: nat)
    requires Agree(st) && fd in st.indices && st.indices[fd] == |st.pfd| - 1
    ensures Remove(st, fd).pfd == st.pfd[..|st.pfd| - 1] && Remove(st, fd).indices == st.indices - {fd}
  {
  }

  class Poll {
    var pfd: seq<Pfd>
    var indices: map<nat, nat>
    var nEvents: nat
    var current: nat
    ghost var ready0: set<Delivery>
    ghost var delivered: seq<Delivery>
    ghost var safe: bool
    var fault: bool                     // pop_event has run off the array

    ghost function Model(): State
      reads this
    {
      State(pfd, indices, nEvents, current, ready0, delivered, safe, fault)
    }

    /** How far the drain has come. */
    ghost function Drain(): (nat, seq<Delivery>, set<Delivery>)
      reads this
    {
      (nEvents, delivered, ready0)
    }

    ghost predicate Valid()
      reads this
    {
      Agree(Model()) && Inv(Model())
    }

    constructor ()
      ensures Valid() && Model() == INITIAL
    {
      pfd, indices, nEvents, current := [], map[], 0, 0;
      ready0, delivered, safe, fault := {}, [], true, false;
    }

    /** socket constructor; `full` when push_back throws. */
    method Construct(fd: nat, ev: set<Event>, full: bool) returns (ok: bool)
      requires Valid() && fd !in indices
      modifies this
      ensures Valid() && ok == !full
      ensures ok ==> Model() == Add(old(Model()), fd, ev)
      ensures !ok ==> Model() == old(Model())
    {
      AddKeeps(Model(), fd, ev);
      AddRefines(Model(), fd, ev);
      indices := indices[fd := |pfd|];
      if full {
        indices := indices - {fd};
        assert indices == old(indices);
        return false;
      }
      pfd := pfd + [Pfd(fd, {}, {})];
      pfd := pfd[indices[fd] := pfd[indices[fd]].(events := ev)];
      assert pfd == old(pfd) + [Pfd(fd, ev, {})];
      return true;
    }

    /** socket destructor */
    method Destruct(fd: nat)
      requires Valid() && fd in indices
      modifies this
      ensures Valid() && Model() == Remove(old(Model()), fd)
    {
      RemoveKeeps(Model(), fd);
      SwapOut(fd);
    }

    method SwapOut(fd: nat)
      requires Agree(Model()) && fd in indices
      modifies this
      ensures Model() == Remove(old(Model()), fd)
    {
      safe := safe && KeepsBalance(Model(), fd);
      var i := indices[fd];
      var last := |pfd| - 1;
      if i != last {
        indices := indices[pfd[last].fd := i];
        pfd := pfd[i := pfd[last]];
      } else {
        RemoveLast(Model(), fd);
      }
      indices := indices - {fd};
      pfd := pfd[..last];
    }

    /** socket::request */
    method Request(fd: nat, ev: set<Event>)
      requires Valid() && fd in indices
      modifies this`pfd
      ensures Valid() && Model() == SetEvents(old(Model()), fd, ev)
    {
      SetEventsKeeps(Model(), fd, ev);
      pfd := pfd[indices[fd] := pfd[indices[fd]].(events := ev)];
    }

    /** pop_event; PastEnd where the code would read past the array. */
    method PopEvent() returns (outcome: Outcome)
      requires Valid()
      modifies this`current, this`nEvents, this`delivered, this`fault
      ensures Valid() && Model() == Pop(old(Model()))
      ensures outcome == PopOutcome(old(Model()))
      ensures safe ==> !outcome.PastEnd?
    {
      PopKeeps(Model());
      outcome := Scan();
    }

    method Scan() returns (outcome: Outcome)
      modifies this`current, this`nEvents, this`delivered, this`fault
      ensures Model() == Pop(old(Model())) && outcome == PopOutcome(old(Model()))
    {
      ghost var st := Model();
      while nEvents != 0
        invariant Model() == st.(current := current)
        invariant nEvents == 0 ==> current == st.current
        invariant NextReady(pfd, current) == NextReady(pfd, st.current)
        decreases |pfd| - current
      {
        if current >= |pfd| {
          fault := true;
          return PastEnd;
        }
        current := current + 1;
        if !Idle(pfd[current - 1]) {
          nEvents := nEvents - 1;
          delivered := delivered + [Due(pfd[current - 1])];
          return Event(Due(pfd[current - 1]));
        }
      }
      return Outcome.Empty;
    }

    /** wait, given what the system answered. */
    method Wait(timeout: nat, reply: Reply)
      requires Valid() && nEvents == 0
      requires timeout <= MAX_TIMEOUT && Covers(reply, pfd)
      modifies this
      ensures Valid()
      ensures reply.Polled? ==> Model() == Reported(old(Model()), reply.revents)
      ensures reply.Interrupted? ==> Model() == old(Model())
    {
      hide Inv, Agree, Report, Nonzero, ReadySet;
      match reply
      case Interrupted =>
      case Polled(revents) =>
        ReportedKeeps(Model(), revents);
        ready0 := Reported(Model(), revents).ready0;
        pfd := Report(pfd, revents);
        nEvents, current := Nonzero(revents, 0), 0;
        delivered, safe, fault := [], true, false;
    }
  }

  /** Handler map, demultiplexer registrations and live sockets cover the same descriptors,
      with the handlers and interest the sockets asked for. */
  ghost predicate LayersAgree(handlers: map<nat, Handler>, interest: map<nat, set<Event>>, sockets: Table) {
    && handlers.Keys == interest.Keys == sockets.Keys
    && (forall fd :: fd in sockets ==> sockets[fd] == Registration(handlers[fd], interest[fd]))
  }

  lemma LayersUpdated(handlers: map<nat, Handler>, interest: map<nat, set<Event>>, t: Table, fd: nat, h: Handler, ev: set<Event>)
    requires LayersAgree(handlers, interest, t)
    ensures LayersAgree(handlers[fd := h], interest[fd := ev], t[fd := Registration(h, ev)])
  {
  }

  lemma SameDrain(st: State, fd: nat, ev: set<Event>)
    requires Agree(st) && fd in st.indices
    ensures var st' := SetEvents(st, fd, ev);
            st'.nEvents == st.nEvents && st'.delivered == st.delivered && st'.ready0 == st.ready0 && st'.safe == st.safe
  {
  }

  lemma LayersRemoved(handlers: map<nat, Handler>, interest: map<nat, set<Event>>, t: Table, fd: nat)
    requires LayersAgree(handlers, interest, t)
    ensures LayersAgree(handlers - {fd}, interest - {fd}, t - {fd})
  {
  }

  lemma LayersKept(handlers: map<nat, Handler>, interest: map<nat, set<Event>>, t: Table, fd: nat)
    requires LayersAgree(handlers, interest, t)
    ensures fd in handlers <==> fd in t
    ensures fd in interest <==> fd in t
    ensures fd in t ==> && t[fd] == Registration(handlers[fd], interest[fd])
                        && handlers[fd := handlers[fd]] == handlers && interest[fd := interest[fd]] == interest
  {
  }

  /** Everything a log accounts for was reported. */
  lemma AllReported(log: seq<Visit>, before: seq<Delivery>, st: State)
    requires Inv(st) && st.delivered == before + Deliveries(log)
    ensures forall i :: 0 <= i < |log| ==> log[i].delivery in st.ready0
  {
    forall i | 0 <= i < |log| ensures log[i].delivery in st.ready0 {
      assert st.delivered[|before| + i] == Deliveries(log)[i] == log[i].delivery;
    }
  }

  class PollDispatch {
    const demux: Poll
    var handlers: map<nat, Handler>
    ghost var sockets: Table            // the live socket objects
    ghost var trace: seq<Op>            // what was done to them

    ghost predicate Valid()
      reads this`handlers, this`sockets, demux
    {
      demux.Valid() && LayersAgree(handlers, Interest(demux.Model()), sockets)
    }

    constructor ()
      ensures Valid() && sockets == map[] && demux.Model() == INITIAL && fresh(demux)
    {
      demux := new Poll();
      handlers, sockets, trace := map[], map[], [];
    }

    /** socket constructor */
    method Create(fd: nat, handler: Handler, ev: set<Event>)
      requires Valid() && fd !in sockets
      modifies this, demux
      ensures Valid() && sockets == old(sockets)[fd := Registration(handler, ev)]
      ensures demux.Model() == Add(old(demux.Model()), fd, ev)
      ensures trace == old(trace) + [Op.Create(fd, handler, ev)]
      ensures demux.Drain() == old(demux.Drain())
    {
      LayersKept(handlers, Interest(demux.Model()), sockets, fd);
      LayersUpdated(handlers, Interest(demux.Model()), sockets, fd, handler, ev);
      AddRefines(demux.Model(), fd, ev);
      hide Inv, Agree, LayersAgree;
      var _ := demux.Construct(fd, ev, false);
      handlers := handlers[fd := handler];
      sockets := sockets[fd := Registration(handler, ev)];
      trace := trace + [Op.Create(fd, handler, ev)];
    }

    /** socket destructor */
    method Destroy(fd: nat)
      requires Valid() && fd in sockets
      modifies this, demux
      ensures Valid() && sockets == old(sockets) - {fd}
      ensures demux.Model() == Remove(old(demux.Model()), fd)
      ensures trace == old(trace) + [Op.Destroy(fd)]
      ensures demux.Drain() == old(demux.Drain())
    {
      LayersKept(handlers, Interest(demux.Model()), sockets, fd);
      LayersRemoved(handlers, Interest(demux.Model()), sockets, fd);
      RemoveRefines(demux.Model(), fd);
      hide Inv, Agree, LayersAgree;
      handlers := handlers - {fd};
      demux.Destruct(fd);
      sockets := sockets - {fd};
      trace := trace + [Op.Destroy(fd)];
    }

    /** socket::request */
    method Request(fd: nat, ev: set<Event>)
      requires Valid() && fd in sockets
      modifies demux, this`sockets, this`trace
      ensures Valid() && sockets == old(sockets)[fd := old(sockets)[fd].(interest := ev)]
      ensures demux.Model() == SetEvents(old(demux.Model()), fd, ev)
      ensures trace == old(trace) + [Op.Request(fd, ev)]
      ensures demux.Drain() == old(demux.Drain())
    {
      hide Inv, Agree, LayersAgree, Interest, SetEvents;
      LayersKept(handlers, Interest(demux.Model()), sockets, fd);
      LayersUpdated(handlers, Interest(demux.Model()), sockets, fd, handlers[fd], ev);
      InterestKeys(demux.Model());
      SetEventsRefines(demux.Model(), fd, ev);
      SameDrain(demux.Model(), fd, ev);
      demux.Request(fd, ev);
      sockets := sockets[fd := sockets[fd].(interest := ev)];
      trace := trace + [Op.Request(fd, ev)];
    }

    /** socket::modify */
    method Modify(fd: nat, handler: Handler)
      requires Valid() && fd in sockets
      modifies this
      ensures Valid() && sockets == old(sockets)[fd := old(sockets)[fd].(handler := handler)]
      ensures trace == old(trace) + [Op.Modify(fd, handler)]
    {
      LayersKept(handlers, Interest(demux.Model()), sockets, fd);
      LayersUpdated(handlers, Interest(demux.Model()), sockets, fd, handler, Interest(demux.Model())[fd]);
      hide Inv, Agree, LayersAgree;
      handlers := handlers[fd := handler];
      sockets := sockets[fd := sockets[fd].(handler := handler)];
      trace := trace + [Op.Modify(fd, handler)];
    }

    /** socket::modify, with a change of interest */
    method ModifyBoth(fd: nat, handler: Handler, ev: set<Event>)
      requires Valid() && fd in sockets
      modifies this, demux
      ensures Valid() && sockets == old(sockets)[fd := Registration(handler, ev)]
      ensures demux.Model() == SetEvents(old(demux.Model()), fd, ev)
      ensures trace == old(trace) + [Op.ModifyBoth(fd, handler, ev)]
      ensures demux.Drain() == old(demux.Drain())
    {
      hide Inv, Agree, LayersAgree, Interest, SetEvents;
      LayersKept(handlers, Interest(demux.Model()), sockets, fd);
      LayersUpdated(handlers, Interest(demux.Model()), sockets, fd, handler, ev);
      InterestKeys(demux.Model());
      SetEventsRefines(demux.Model(), fd, ev);
      SameDrain(demux.Model(), fd, ev);
      demux.Request(fd, ev);
      assert demux.Drain() == old(demux.Drain());
      handlers := handlers[fd := handler];
      trace := trace + [Op.ModifyBoth(fd, handler, ev)];
      sockets := sockets[fd := Registration(handler, ev)];
    }

    /** Any of the socket operations client code has. */
    method Perform(op: Op)
      requires Valid()
      modifies this, demux
      ensures Valid() && sockets == Apply(old(sockets), op) && Effect(old(sockets), op, sockets)
      ensures trace == old(trace) + (if op.Create? == (op.fd in old(sockets)) then [] else [op])
      ensures demux.Drain() == old(demux.Drain())
      ensures demux.safe ==> old(demux.safe)
    {
      LayersKept(handlers, Interest(demux.Model()), sockets, op.fd);
      ApplyEffect(sockets, op);
      hide Inv, Agree, LayersAgree, Effect, Interest, SetEvents, Add, Remove;
      if op.fd in handlers {
        PerformOn(op);
      } else if op.Create? {
        Create(op.fd, op.handler, op.events);
      } else {
        assert sockets - {op.fd} == sockets;
      }
    }

    /** An operation on a live socket. */
    method PerformOn(op: Op)
      requires Valid() && op.fd in sockets
      modifies this, demux
      ensures Valid() && sockets == Apply(old(sockets), op)
      ensures trace == old(trace) + (if op.Create? then [] else [op])
      ensures demux.Drain() == old(demux.Drain())
      ensures demux.safe ==> old(demux.safe)
    {
      hide Inv, Agree, LayersAgree, Interest, Add;
      match op
      case Create(_, _, _) =>
      case Modify(fd, handler) => Modify(fd, handler);
      case ModifyBoth(fd, handler, events) => ModifyBoth(fd, handler, events);
      case Request(fd, events) => Request(fd, events);
      case Destroy(fd) => Destroy(fd);
    }

    method PerformAll(ops: seq<Op>)
      requires Valid()
      modifies this, demux
      ensures Valid() && sockets == ApplyAll(old(sockets), ops) && Effects(old(sockets), ops, sockets)
      ensures demux.Drain() == old(demux.Drain())
      ensures demux.safe ==> old(demux.safe)
      decreases |ops|
    {
      ApplyAllEffects(sockets, ops);
      if ops != [] {
        Perform(ops[0]);
        PerformAll(ops[1..]);
      }
    }

    /** Looks up the handler registered for a descriptor. */
    method HandlerOf(fd: nat) returns (h: Option<Handler>)
      requires Valid()
      ensures h == if fd in sockets then Some(sockets[fd].handler) else None
    {
      LayersKept(handlers, Interest(demux.Model()), sockets, fd);
      h := if fd in handlers then Some(handlers[fd]) else None;
    }

    /** One round of the loop in run, for the k-th event. */
    method Dispatch(d: Delivery, hs: Handlers, k: nat) returns (visit: Visit)
      requires Valid()
      modifies this, demux
      ensures Valid() && visit.delivery == d && Addressed(visit, old(sockets)) && sockets == AfterVisit(old(sockets), d, hs, k)
      ensures demux.Drain() == old(demux.Drain())
      ensures demux.safe ==> old(demux.safe)
    {
      hide Inv, Agree, LayersAgree, ApplyAll;
      var h := HandlerOf(d.fd);
      match h
      case Some(handler) =>
        visit := Called(d, handler);
        PerformAll(hs(k, d, handler));
      case None =>
        visit := Ignored(d);
    }

    /** pop_event: the drain goes on, and the sockets stay what they are. It comes to an end
        if no removal was harmful, and then every report has been delivered once. */
    method NextEvent() returns (outcome: Outcome)
      requires Valid()
      modifies demux`current, demux`nEvents, demux`delivered, demux`fault
      ensures Valid() && outcome == PopOutcome(old(demux.Model())) && demux.Model() == Pop(old(demux.Model()))
      ensures match outcome
              case Event(d) => demux.delivered == old(demux.delivered) + [d] && demux.nEvents == old(demux.nEvents) - 1
              case Empty => demux.delivered == old(demux.delivered) && Drained(demux.Model())
              case PastEnd => demux.delivered == old(demux.delivered) && demux.fault && !demux.safe
    {
      PopRefines(demux.Model());
      hide Agree, LayersAgree, Interest;
      outcome := demux.PopEvent();
      if outcome == Outcome.Empty {
        NoneLeft(demux.Model());
      }
    }

    /** run, with whatever handlers do given by `hs`. Unless a socket was destroyed at the
        wrong moment, every report of the last wait has been delivered, once, by the time it
        returns; and that is exactly when the drain does not run off the array. No event set
        is empty unless a report of the last wait came to nothing. */
    method Run(hs: Handlers) returns (log: seq<Visit>, fault: bool)
      requires Valid()
      modifies this, demux
      ensures Valid() && (!fault ==> demux.nEvents == 0)
      ensures Current(log, old(sockets), hs) && sockets == TableAfter(old(sockets), log, hs)
      ensures Accounts(log, old(sockets), sockets, hs)
      ensures forall k :: 0 <= k < |log| ==> Addressed(log[k], TableAfter(old(sockets), log[..k], hs))
      ensures demux.delivered == old(demux.delivered) + Deliveries(log)
      ensures fault <==> !demux.safe
      ensures demux.safe ==> Distinct(demux.delivered) && Members(demux.delivered) == old(demux.ready0)
      ensures (forall d :: d in old(demux.ready0) ==> d.events != {}) ==>
                forall i :: 0 <= i < |log| ==> log[i].delivery.events != {}
    {
      hide Inv, Agree, LayersAgree, Current, TableAfter, AfterVisit, Deliveries, Pop, PopOutcome, Accounts, Addressed;
      NoVisits(sockets, hs);
      log := [];
      while true
        invariant Valid() && demux.ready0 == old(demux.ready0)
        invariant demux.delivered == old(demux.delivered) + Deliveries(log)
        invariant Current(log, old(sockets), hs) && sockets == TableAfter(old(sockets), log, hs)
        decreases demux.nEvents
      {
        var outcome := NextEvent();
        match outcome {
          case PastEnd =>
            fault := true;
            break;
          case Empty =>
            fault := false;
            break;
          case Event(d) =>
            var visit := Dispatch(d, hs, |log|);
            LogExtends(log, old(sockets), hs, visit);
            Regroup(old(demux.delivered), Deliveries(log), [d]);
            log := log + [visit];
        }
      }
      CurrentAccounts(log, old(sockets), hs);
      forall k | 0 <= k < |log| ensures Addressed(log[k], TableAfter(old(sockets), log[..k], hs)) {
        CurrentAt(log, old(sockets), hs, k);
      }
      AllReported(log, old(demux.delivered), demux.Model());
    }

    /** wait */
    method Wait(timeout: nat, reply: Reply)
      requires Valid() && demux.nEvents == 0
      requires timeout <= MAX_TIMEOUT && Covers(reply, demux.pfd)
      modifies demux
      ensures Valid()
      ensures reply.Polled? ==> demux.Model() == Reported(old(demux.Model()), reply.revents)
      ensures reply.Interrupted? ==> demux.Model() == old(demux.Model())
    {
      if reply.Polled? {
        ReportedKeeps(demux.Model(), reply.revents);
      }
      hide Inv, Agree, LayersAgree;
      demux.Wait(timeout, reply);
    }

    method Empty() returns (r: bool)
      requires Valid()
      ensures r <==> sockets == map[]
    {
      r := handlers == map[];
      assert sockets == map[] <==> sockets.Keys == {};
      assert handlers == map[] <==> handlers.Keys == {};
    }
  }
}
