/** include/ioxx/core.hpp: one turn of the event loop, and how long it may sleep. */
module Core {
  import opened Multimap
  import opened Sockets
  import opened Timers
  import opened TimerTheorems
  import PollModel
  import opened PollDispatch
  import opened Schedule
  import opened AdnsLibrary
  import opened Queries
  import opened ClientCode
  import opened Turns
  import opened Deadlines
  import opened Merge
  import opened Resolver

  /** Handlers have no access to the resolver's sockets and timeout object. */
  ghost predicate Confined(hs: Reactions, own: Private) {
    forall k, d, h :: Avoids(hs(k, d, h), own)
  }

  /** How dispatch::run ends. */
  datatype Status = Complete | Failed | Overrun

  /** How a turn ends: with the time to sleep, with an exception, or, if the array of poll
      was overrun or a cancel call went wrong, nobody knows how. */
  datatype Outcome = Returned(timeout: nat) | Threw | Undefined

  class Core {
    const sched: Schedule
    const disp: PollDispatch
    const dns: Resolver

    ghost predicate Valid()
      reads this, dns, dns.lib, sched, disp, disp.demux
    {
      dns.sched == sched && dns.disp == disp && dns.Valid()
    }

    constructor (lib: Adns, now: int)
      requires lib.Valid() && lib.outstanding == {}
      ensures Valid() && dns.lib == lib && fresh(sched) && fresh(disp) && fresh(dns)
      ensures !sched.broken && !disp.demux.fault
    {
      var s := new Schedule(now);
      var d := new PollDispatch();
      var r := new Resolver(lib, s, d);
      sched, disp, dns := s, d, r;
    }

    /** empty */
    method Empty() returns (r: bool)
      requires Valid()
      ensures r <==> sched.queue == [] && disp.sockets == map[] && dns.queries == map[]
    {
      var noTasks := sched.Empty();
      var noSockets := disp.Empty();
      r := noTasks && noSockets && dns.queries == map[];
    }

    // dispatch::run

    /** The k-th event: its handler is called at once, be it a client's or the resolver's. */
    method Visit(k: nat, d: Delivery, hs: Reactions) returns (ok: bool, ghost round: Round)
      requires Valid() && Confined(hs, dns.Mine())
      modifies dns, dns.lib, sched, disp, disp.demux
      ensures Valid() && dns.Fixed() == old(dns.Fixed())
      ensures round.before == old(dns.Snap()) && round.after == dns.Snap()
      ensures round.cause.Visited? && round.cause.k == k && round.cause.visit.delivery == d
      ensures Sound(round, hs, dns.Mine(), ok)
      ensures Reaches(round, hs, ok)
    {
      hide PollModel.Inv, PollModel.Agree, PollModel.Interest, LayersAgree;
      hide Entries, TimerTheorems.Inv, TicketsAvoid, Registered, AllAvoid, Consistent, Invocation, Telling;
      hide OwnPart, ClientPart, Callbacks, Avoids, Tells, Performs, Reaches, Resolver.LedgerOk, Resolver.SchedOk;
      dns.SnapConsistent();
      ghost var before := dns.Snap();
      BothParts(disp.sockets, dns.lib.own);
      var h := disp.HandlerOf(d.fd);
      ghost var visit := if h.Some? then Called(d, h.value) else Ignored(d);
      match h {
        case None =>
          ok := true;
        case Some(ProcessFd(fd)) =>
          ok := dns.ProcessEvents(fd, d.events);
        case Some(Callback(id)) =>
          ok := dns.Invoke(hs(k, d, Callback(id)));
      }
      dns.SnapConsistent();
      round := Round(Visited(k, visit), before, dns.Snap());
      SoundReaches(round, hs, dns.Mine(), ok);
    }

    /** dispatch::run: however handlers, DNS callbacks and the resolver create, modify and
        destroy sockets while the events are drained, each visit goes to whoever is
        registered at that moment. Unless an exception ends it, the drain either runs off
        the array, which takes a harmful destruction, or delivers every report of the last
        wait once, and tells ADNS of those on its own sockets. */
    method RunDispatch(hs: Reactions) returns (status: Status, ghost rounds: seq<Round>)
      requires Valid() && Confined(hs, dns.Mine())
      modifies dns, dns.lib, sched, disp, disp.demux
      ensures Valid() && sched.now == old(sched.now) && disp.demux.ready0 == old(disp.demux.ready0)
      ensures History(rounds, old(dns.Snap()), dns.Snap(), hs, dns.Mine(), status != Failed)
      ensures status == Failed ==> rounds != []
      ensures forall i :: 0 <= i < |rounds| ==> rounds[i].cause.Visited? && rounds[i].cause.k == i
      ensures disp.demux.delivered == old(disp.demux.delivered) + Deliveries(VisitsOf(rounds))
      ensures forall i :: 0 <= i < |rounds| ==> Reaches(rounds[i], hs, status != Failed || i + 1 < |rounds|)
      ensures status == Overrun ==> disp.demux.fault && !disp.demux.safe
      ensures status == Complete ==>
                && PollModel.Drained(disp.demux.Model())
                && dns.lib.processed == old(dns.lib.processed) + ProcessingsIn(VisitsOf(rounds))
                && forall i :: 0 <= i < |rounds| ==> ToldOf(rounds[i])
    {
      hide PollModel.Inv, PollModel.Agree, PollModel.Interest, LayersAgree, PollModel.Pop, PollModel.PopOutcome;
      hide Entries, TimerTheorems.Inv, TicketsAvoid, Registered, AllAvoid, Confined;
      hide Sound, History, Deliveries, VisitsOf, ProcessingsIn, Reaches, ToldOf, PollModel.Drained, Invocation, Telling;
      hide Resolver.LedgerOk, Resolver.SchedOk, Resolver.Own, Resolver.Clients;
      rounds := [];
      NoRounds(dns.Snap(), hs, dns.Mine(), true);
      NoDeliveries();
      var k, ok := 0, true;
      while true
        invariant ok && Valid() && sched.now == old(sched.now) && disp.demux.ready0 == old(disp.demux.ready0)
        invariant History(rounds, old(dns.Snap()), dns.Snap(), hs, dns.Mine(), true)
        invariant k == |rounds| && forall i :: 0 <= i < |rounds| ==> rounds[i].cause.Visited? && rounds[i].cause.k == i
        invariant disp.demux.delivered == old(disp.demux.delivered) + Deliveries(VisitsOf(rounds))
        decreases disp.demux.nEvents
      {
        var outcome := disp.NextEvent();
        if outcome == PollModel.PastEnd {
          status := Overrun;
          break;
        } else if outcome == PollModel.Outcome.Empty {
          status := Complete;
          break;
        }
        ghost var round;
        ok, round := Visit(k, outcome.delivery, hs);
        HistorySnoc(rounds, old(dns.Snap()), round, hs, dns.Mine(), ok);
        VisitsSnoc(rounds, round);
        Regroup(old(disp.demux.delivered), Deliveries(VisitsOf(rounds)), [outcome.delivery]);
        rounds, k := rounds + [round], k + 1;
        if !ok {
          status := Failed;
          break;
        }
      }
      VisitsReach(rounds, old(dns.Snap()), dns.Snap(), hs, dns.Mine(), ok);
      if ok {
        VisitsTell(rounds, old(dns.Snap()), dns.Snap(), hs, dns.Mine());
      }
    }

    // schedule::run

    method NextJob() returns (job: Option<Entry>)
      requires Valid()
      modifies sched
      ensures Valid() && sched.now == old(sched.now)
      ensures job.Some? <==> HasDue(old(sched.Model()))
      ensures job.None? ==> sched.Model() == old(sched.Model())
      ensures job.Some? ==>
                && job.value == old(sched.queue)[0] && sched.queue == old(sched.queue)[1..] && Avoids(job.value.value.task, dns.Mine())
                && dns.Snap() == Popped(old(dns.Snap()))
                && dns.Labour() + Size(job.value.value.task) == old(dns.Labour())
    {
      hide PollModel.Inv, PollModel.Agree, PollModel.Interest, LayersAgree, Avoids, TimerTheorems.Inv, Broken;
      hide Resolver.LedgerOk, Resolver.SocketsOk, Resolver.Own, Resolver.Clients, Callbacks;
      job := sched.TakeDue();
      assert job.Some? ==> forall i :: 0 <= i < |sched.queue| ==> sched.queue[i] == old(sched.queue)[i + 1];
    }

    /** One round of the loop: a due job is taken off the queue, and executed; if it is the
        resolver's timeout, that means process_timeout. */
    method FireNext(ghost hs: Reactions) returns (fired: bool, ok: bool, ghost round: Option<Round>)
      requires Valid()
      modifies dns, dns.lib, sched, disp, disp.demux
      ensures Valid() && dns.Fixed() == old(dns.Fixed())
      ensures fired <==> HasDue(old(sched.Model()))
      ensures !fired ==> ok && dns.Snap() == old(dns.Snap()) && dns.queries == old(dns.queries)
      ensures !fired ==> sched.Model() == old(sched.Model())
      ensures fired ==>
                && round.Some? && round.value.before == old(dns.Snap()) && round.value.after == dns.Snap()
                && round.value.cause.Fired? && Sound(round.value, hs, dns.Mine(), ok)
                && dns.Labour() < old(dns.Labour())
      ensures fired ==>
                var job := old(sched.queue)[0].value;
                if job.owner == Some(TIMEOUT) then Expiry(Popped(old(dns.Snap())), dns.Snap(), ok)
                else Invocation(Popped(old(dns.Snap())), dns.Snap(), job.task, ok)
    {
      hide PollModel.Inv, PollModel.Agree, PollModel.Interest, LayersAgree;
      hide Entries, TimerTheorems.Inv, TicketsAvoid, Registered, AllAvoid, Consistent, Invocation, Responses, Avoids;
      hide Resolver.LedgerOk, Resolver.SocketsOk, Resolver.Own, Resolver.Clients, Resolver.Labour, Popped;
      dns.SnapConsistent();
      ghost var before := dns.Snap();
      var job := NextJob();
      if job.None? {
        return false, true, None;
      }
      if job.value.value.owner == Some(TIMEOUT) {
        ok := dns.ProcessTimeout();
      } else {
        ok := dns.Invoke(job.value.value.task);
      }
      dns.SnapConsistent();
      return true, ok, Some(Round(Fired(job.value), before, dns.Snap()));
    }

    /** schedule::run: executes due jobs, first entry first, whatever they do to timers,
        sockets and queries, until none is due, and returns the distance to the first. */
    method RunSchedule(ghost hs: Reactions) returns (ok: bool, seconds: nat, ghost rounds: seq<Round>)
      requires Valid()
      modifies dns, dns.lib, sched, disp, disp.demux
      ensures Valid() && dns.Fixed() == old(dns.Fixed())
      ensures History(rounds, old(dns.Snap()), dns.Snap(), hs, dns.Mine(), ok)
      ensures forall i :: 0 <= i < |rounds| ==> rounds[i].cause.Fired?
      ensures ok ==> !HasDue(sched.Model()) && seconds == SecondsLeft(sched.Model())
      ensures !ok ==> rounds != []
      ensures !HasDue(old(sched.Model())) ==> ok && rounds == [] && dns.queries == old(dns.queries)
    {
      hide Sound, History, Resolver.Labour, Resolver.Snap, HasDue;
      hide Resolver.LedgerOk, Resolver.SocketsOk, Resolver.SchedOk;
      rounds := [];
      NoRounds(dns.Snap(), hs, dns.Mine(), true);
      while true
        invariant Valid() && dns.Fixed() == old(dns.Fixed())
        invariant History(rounds, old(dns.Snap()), dns.Snap(), hs, dns.Mine(), true)
        invariant forall i :: 0 <= i < |rounds| ==> rounds[i].cause.Fired?
        invariant rounds == [] ==> sched.Model() == old(sched.Model()) && dns.queries == old(dns.queries)
        invariant !HasDue(old(sched.Model())) ==> rounds == []
        decreases dns.Labour()
      {
        var fired;
        ghost var round;
        fired, ok, round := FireNext(hs);
        if !fired {
          break;
        }
        HistorySnoc(rounds, old(dns.Snap()), round.value, hs, dns.Mine(), ok);
        rounds := rounds + [round.value];
        if !ok {
          return false, 0, rounds;
        }
      }
      seconds := sched.Distance();
      ok := true;
    }

    // dns::run, and the turn

    /** dns::run */
    method RunResolver(ghost hs: Reactions) returns (ok: bool, ghost round: Round)
      requires Valid()
      modifies dns, dns.lib, sched, disp, disp.demux
      ensures Valid() && sched.now == old(sched.now) && disp.demux.Drain() == old(disp.demux.Drain())
      ensures round.before == old(dns.Snap()) && round.after == dns.Snap() && round.cause == Resolved(dns.lib.asked)
      ensures Sound(round, hs, dns.Mine(), ok)
      ensures old(dns.queries) != map[] && ok ==> Matches(dns.Own(), dns.lib.wanted)
      ensures old(dns.queries) == map[] ==> ok && dns.queries == map[] && dns.Own() == map[]
    {
      hide PollModel.Inv, PollModel.Agree, PollModel.Interest, LayersAgree;
      hide Entries, TimerTheorems.Inv, TicketsAvoid, Registered, AllAvoid, Consistent, ArmedFor, Matches, Resolution;
      hide Resolver.LedgerOk, Resolver.SchedOk, Resolver.Clients;
      dns.SnapConsistent();
      ghost var before := dns.Snap();
      ok := dns.Run();
      dns.SnapConsistent();
      if dns.registered == [] { dns.NoneRegistered(); }
      round := Round(Resolved(dns.lib.asked), before, dns.Snap());
    }

    /** The four sub-runs of run, one after the other, as long as they return. */
    method RunLayers(hs: Reactions) returns (ok: bool, seconds: nat, ghost rounds: seq<Round>, ghost n: nat, ghost m: nat)
      requires Valid() && Confined(hs, dns.Mine())
      modifies dns, dns.lib, sched, disp, disp.demux
      ensures Valid() && sched.now == old(sched.now)
      ensures History(rounds, old(dns.Snap()), dns.Snap(), hs, dns.Mine(), ok) || disp.demux.fault
      ensures ok ==> disp.demux.nEvents == 0
      ensures ok ==> InOrder(rounds, n, m, dns.lib.asked) && Exhausted(rounds, m, dns.Snap())
      ensures ok ==> disp.demux.delivered == old(disp.demux.delivered) + Deliveries(VisitsOf(rounds[..n]))
      ensures ok ==> seconds == SecondsLeft(dns.Snap().world.timers)
    {
      hide PollModel.Inv, Sound, History, HasDue, ArmedFor, Confined, Deliveries, VisitsOf, InOrder;
      hide Resolver.LedgerOk, Resolver.SocketsOk, Resolver.SchedOk, Resolver.Own, Resolver.Clients;
      ghost var first, own := dns.Snap(), dns.Mine();
      ghost var visits, jobs, round, again;
      ghost var mid;
      n, m, seconds := 0, 0, 0;
      var status;
      status, visits := RunDispatch(hs);
      rounds := visits;
      if status != Complete {
        return false, 0, rounds, 0, 0;
      }
      n := |visits|;
      mid := dns.Snap();
      ok, seconds, jobs := RunSchedule(hs);
      HistoryConcat(visits, jobs, first, mid, dns.Snap(), hs, own, ok);
      rounds := visits + jobs;
      if !ok {
        return;
      }
      m := |rounds|;
      ok, round := RunResolver(hs);
      HistorySnoc(rounds, first, round, hs, own, ok);
      rounds := rounds + [round];
      if !ok {
        return;
      }
      mid := dns.Snap();
      ok, seconds, again := RunSchedule(hs);
      HistoryConcat(rounds, again, first, mid, dns.Snap(), hs, own, ok);
      ThatOrder(visits, jobs, round, again, dns.lib.asked);
      rounds := rounds + again;
    }

    /** run. The sleep it asks for ends no later than the first pending job; without jobs it
        is the longest possible if there are sockets to wait for, and none otherwise. If
        queries are outstanding at the end, some were when the resolver ran; then the timeout
        that ADNS asked for is still armed, at least one second ahead, and the sleep ends no
        later than that. All events of the last wait have been consumed. */
    method Run(hs: Reactions) returns (outcome: Outcome, ghost rounds: seq<Round>, ghost n: nat, ghost m: nat)
      requires Valid() && Confined(hs, dns.Mine())
      modifies dns, dns.lib, sched, disp, disp.demux
      ensures Valid() && sched.now == old(sched.now)
      ensures outcome.Undefined? <==> sched.broken || disp.demux.fault
      ensures !outcome.Undefined? ==> History(rounds, old(dns.Snap()), dns.Snap(), hs, dns.Mine(), outcome.Returned?)
      ensures outcome.Returned? ==> InOrder(rounds, n, m, dns.lib.asked)
      ensures outcome.Returned? ==>
                && PollModel.Drained(disp.demux.Model())
                && disp.demux.delivered == old(disp.demux.delivered) + Deliveries(VisitsOf(rounds[..n]))
      ensures outcome.Returned? ==> WakesInTime(sched.Model(), disp.sockets, outcome.timeout)
      ensures outcome.Returned? && dns.queries != map[] ==> Resolving(rounds, m)
      ensures outcome.Returned? && Resolving(rounds, m) ==> MeetsDeadline(sched.Model(), dns.lib.asked, outcome.timeout)
    {
      hide PollModel.Inv, PollModel.Agree, PollModel.Interest, LayersAgree, PollModel.Drained;
      hide Registered, History, HasDue, ArmedFor, Confined, Deliveries, VisitsOf, InOrder, MeetsDeadline, Exhausted;
      hide Resolver.LedgerOk, Resolver.SchedOk, Resolver.Own, Resolver.Clients;
      var ok, timeout;
      ok, timeout, rounds, n, m := RunLayers(hs);
      if sched.broken || disp.demux.fault {
        return Undefined, rounds, n, m;
      }
      if !ok {
        return Threw, rounds, n, m;
      }
      dns.NoQueries();
      PollModel.NoneLeft(disp.demux.Model());
      Sleep(rounds, n, m, dns.lib.asked, old(dns.Snap()), dns.Snap(), hs, dns.Mine());
      var noTasks := sched.Empty();
      var noSockets := disp.Empty();
      if noTasks && !noSockets {
        timeout := MAX_TIMEOUT;
      }
      outcome := Returned(timeout);
    }

    /** wait: sleep, then look at the clock, whatever it says. */
    method Wait(timeout: nat, reply: Reply, now: int)
      requires Valid() && disp.demux.nEvents == 0
      requires timeout <= MAX_TIMEOUT && Covers(reply, disp.demux.pfd)
      modifies disp.demux, sched`now
      ensures Valid() && sched.now == now
      ensures reply.Polled? ==> disp.demux.Model() == PollModel.Reported(old(disp.demux.Model()), reply.revents)
      ensures reply.Interrupted? ==> disp.demux.Model() == old(disp.demux.Model())
    {
      hide Entries, PollModel.Inv, PollModel.Agree, PollModel.Interest, LayersAgree, PollModel.Reported;
      hide TimerTheorems.Inv, Broken, TicketsAvoid, Registered, AllAvoid;
      disp.Wait(timeout, reply);
      sched.SetClock(now);
    }

    /** The main loop of a program: run, then wait for as long as run said, so many times.
        Clients, system and clock do as they like in every turn. Nothing wait asserts is
        ever violated, but for a sleep that is longer than poll(2) can take; and the program
        is beyond definition exactly if a cancel call or the drain has gone wrong. */
    method Loop(turns: nat, clients: nat -> Reactions, system: (nat, seq<PollModel.Pfd>) -> Reply, clock: nat -> int)
      returns (end: End)
      requires Valid() && !sched.broken && !disp.demux.fault
      requires forall n :: Confined(clients(n), dns.Mine())
      requires forall n, pfd :: Covers(system(n, pfd), pfd)
      modifies dns, dns.lib, sched, disp, disp.demux
      ensures Valid()
      ensures end == Lost <==> sched.broken || disp.demux.fault
      ensures end == TooLong ==>
                && sched.queue != [] && (sched.queue[0].key - sched.now) % 0x1_0000_0000 > MAX_TIMEOUT
                && forall i :: 0 <= i < |sched.queue| ==> sched.queue[i].key - sched.now > MAX_TIMEOUT
    {
      hide PollModel.Inv, PollModel.Agree, PollModel.Interest, LayersAgree, InOrder, MeetsDeadline, History;
      hide Entries, TimerTheorems.Inv, TicketsAvoid, Registered, AllAvoid, ArmedFor, Confined, Covers;
      for n := 0 to turns
        invariant Valid() && !sched.broken && !disp.demux.fault
      {
        ghost var rounds, visits, middle;
        var outcome;
        outcome, rounds, visits, middle := Run(clients(n));
        match outcome {
          case Threw => return Exception;
          case Undefined => return Lost;
          case Returned(timeout) =>
            if timeout > MAX_TIMEOUT {
              return TooLong;
            }
            Wait(timeout, system(n, disp.demux.pfd), clock(n));
        }
      }
      return Stopped;
    }
  }

  /** How the main loop may end. */
  datatype End = Stopped | Exception | Lost | TooLong

  /** Queries were outstanding when the resolver ran. */
  ghost predicate Resolving(rounds: seq<Round>, m: nat) {
    m < |rounds| && rounds[m].before.ledger.pending != map[]
  }

  /** The sleep ends no later than the first job; without jobs it is the longest possible if
      there are sockets to wait for, and none otherwise. */
  ghost predicate WakesInTime(st: State, sockets: Table, timeout: nat) {
    && (forall i :: 0 <= i < |st.queue| ==> st.now < st.queue[0].key <= st.queue[i].key)
    && (st.queue != [] ==> timeout == (st.queue[0].key - st.now) % 0x1_0000_0000)
    && (st.queue == [] ==> timeout == if sockets == map[] then 0 else MAX_TIMEOUT)
  }

  /** The timeout that ADNS asked for is armed, and the sleep ends no later than that. A
      time stamp of 0 is the mark of an unset handle. */
  ghost predicate MeetsDeadline(st: State, asked: int, timeout: nat) {
    asked > 0 &&
    var s := CeilSeconds(asked);
    st.now + s != 0 ==> ArmedFor(st, st.now + s) && timeout <= s
  }

  /** Nothing was due when the resolver ran, and nothing is at the end. */
  ghost predicate Exhausted(rounds: seq<Round>, m: nat, last: Snapshot) {
    m < |rounds| && !HasDue(rounds[m].before.world.timers) && !HasDue(last.world.timers)
  }

  lemma ThatOrder(visits: seq<Round>, jobs: seq<Round>, round: Round, again: seq<Round>, asked: int)
    requires forall i :: 0 <= i < |visits| ==> visits[i].cause.Visited? && visits[i].cause.k == i
    requires forall i :: 0 <= i < |jobs| ==> jobs[i].cause.Fired?
    requires round.cause == Resolved(asked)
    requires forall i :: 0 <= i < |again| ==> again[i].cause.Fired?
    ensures var rounds := visits + jobs + [round] + again;
            && InOrder(rounds, |visits|, |visits + jobs|, asked)
            && rounds[|visits + jobs|] == round && rounds[..|visits|] == visits
  {
  }

  /** What the rounds of a complete turn say about the sleep after it. */
  lemma Sleep(rounds: seq<Round>, n: nat, m: nat, asked: int, first: Snapshot, last: Snapshot, hs: Reactions, own: Private)
    requires InOrder(rounds, n, m, asked) && History(rounds, first, last, hs, own, true) && own.timeout == TIMEOUT
    requires Exhausted(rounds, m, last)
    ensures last.ledger.pending != map[] ==> Resolving(rounds, m)
    ensures var st := last.world.timers;
            && (forall i :: 0 <= i < |st.queue| ==> st.now < st.queue[0].key <= st.queue[i].key)
            && (Resolving(rounds, m) ==> MeetsDeadline(st, asked, SecondsLeft(st)))
            && (Resolving(rounds, m) && st.queue == [] ==> forall t: nat :: MeetsDeadline(st, asked, t))
  {
    hide Sound, History, InOrder, ArmedFor, TimersOk;
    assert rounds != [];
    HistoryLast(rounds, first, last, hs, own);
    Queued(last, own);
    if last.ledger.pending != map[] {
      ResolvedInTime(rounds, n, m, asked, first, last, hs, own);
    }
    if Resolving(rounds, m) {
      StillArmed(rounds, n, m, asked, first, last, hs, own);
    }
  }

  lemma Queued(s: Snapshot, own: Private)
    requires Consistent(s, own)
    ensures forall i :: 0 <= i < |s.world.timers.queue| ==> s.world.timers.queue[0].key <= s.world.timers.queue[i].key
  {
    OrderedQueue(s.world.timers);
  }

  /** The sleep is the exact distance to the first task as long as that fits 32 bits, and
      one that the demultiplexer accepts exactly if what the cast leaves of it is. */
  lemma SleepAccepted(st: State)
    requires st.queue != [] && !HasDue(st)
    ensures var gap := st.queue[0].key - st.now;
            && (SecondsLeft(st) == gap <==> gap < 0x1_0000_0000)
            && (SecondsLeft(st) <= MAX_TIMEOUT <==> gap % 0x1_0000_0000 <= MAX_TIMEOUT)
            && SecondsLeft(st) <= gap
  {
  }

  /** A single job so many seconds ahead. */
  function SleepFor(gap: nat): nat {
    SecondsLeft(RunDue(After(1, [Client(Task.Insert(0, Rel(gap), Done, Done))])))
  }

  /** A job in a month makes run ask for more than wait accepts; one in 2^32 seconds and one
      makes it sleep for a second only. */
  lemma SleepRefused()
    ensures SleepFor(2_147_484) == 2_147_484 > MAX_TIMEOUT
    ensures SleepFor(0x1_0000_0001) == 1
  {
    forall gap: nat | gap > 0 ensures SleepFor(gap) == gap % 0x1_0000_0000 {
      var st := Put(Initial(1), Handle(0), 1 + gap, Done);
      assert Exec(Initial(1), Task.Insert(0, Rel(gap), Done, Done)) == Exec(st, Done) == st;
      FirstStep(Initial(1), Client(Task.Insert(0, Rel(gap), Done, Done)), []);
      FirstStep(st, Run, []);
      assert [Client(Task.Insert(0, Rel(gap), Done, Done))] + [] == [Client(Task.Insert(0, Rel(gap), Done, Done))];
      assert After(1, [Client(Task.Insert(0, Rel(gap), Done, Done))]) == st;
      assert RunDue(st) == st;
    }
  }
}
