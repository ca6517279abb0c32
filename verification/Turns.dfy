/** What happens during one turn of the event loop, as a history of rounds: sockets are
    visited, jobs fire, the resolver runs; and the client code each of them calls. The code
    of Resolver.dfy and Core.dfy is proved to make such histories. */
module Turns {
  import opened Multimap
  import opened Sockets
  import opened Timers
  import opened TimerTheorems
  import opened AdnsLibrary
  import opened Queries
  import opened ClientCode

  /** The name of the resolver's own timeout object. */
  const TIMEOUT: nat := 0

  /** What ADNS must be told about an event set: input first, then output, then the rest. */
  function ProcessingsOf(fd: nat, ev: set<Event>): seq<Processing> {
    (if Event.Readable in ev then [Processing.Readable(fd)] else [])
    + (if Event.Writable in ev then [Processing.Writable(fd)] else [])
    + (if Pridata in ev then [Exceptional(fd)] else [])
  }

  /** `a` comes before `b` when ADNS is told of an event set. */
  ghost predicate Earlier(a: Processing, b: Processing) {
    || (a.Readable? && (b.Writable? || b.Exceptional?))
    || (a.Writable? && b.Exceptional?)
  }

  /** ADNS is told of each of these events by the call made for it, once, and of nothing else:
      of input first, then of output, then of exceptions. */
  ghost predicate Tells(ps: seq<Processing>, fd: nat, ev: set<Event>) {
    && (Processing.Readable(fd) in ps <==> Event.Readable in ev)
    && (Processing.Writable(fd) in ps <==> Event.Writable in ev)
    && (Exceptional(fd) in ps <==> Pridata in ev)
    && (forall p :: p in ps ==> p == Processing.Readable(fd) || p == Processing.Writable(fd) || p == Exceptional(fd))
    && (forall i, j :: 0 <= i < j < |ps| ==> Earlier(ps[i], ps[j]))
  }

  lemma ProcessingsTell(fd: nat, ev: set<Event>)
    ensures Tells(ProcessingsOf(fd, ev), fd, ev)
  {
  }

  /** The least number of seconds that is not shorter. */
  function CeilSeconds(ms: nat): (s: nat)
    ensures (s - 1) * 1000 < ms <= s * 1000 || ms == s == 0
  {
    (ms + 999) / 1000
  }

  /** What clients see, and what is the resolver's: its sockets, its ledger of queries, and
      what it has told ADNS. */
  datatype Snapshot = Snapshot(world: World, own: Table, ledger: Ledger<Task>, processed: seq<Processing>)

  /** The callbacks called from one snapshot to another. */
  function Since(s: Snapshot, s': Snapshot): seq<Task>
    requires s.ledger.delivered <= s'.ledger.delivered
  {
    CalledBack(s'.ledger.delivered[|s.ledger.delivered|..])
  }

  /** Client code is called, and nothing else happens. */
  ghost predicate Invocation(s: Snapshot, s': Snapshot, task: Task, ok: bool) {
    && s.ledger.tickets <= s'.ledger.tickets && s'.ledger.delivered == s.ledger.delivered
    && Ran(s.world, s'.world, task, ok)
    && s'.own == s.own && s'.processed == s.processed
  }

  /** Answers are delivered: clients see exactly the effects of the callbacks called. */
  ghost predicate Answers(s: Snapshot, s': Snapshot, ok: bool) {
    && s.ledger.tickets <= s'.ledger.tickets && s.ledger.delivered <= s'.ledger.delivered
    && RanAll(s.world, s'.world, Since(s, s'), ok)
    && s'.own == s.own && s'.processed == s.processed
  }

  /** deliver_responses: all sockets of the resolver go if no query is left. */
  ghost predicate Responses(s: Snapshot, s': Snapshot, ok: bool) {
    && Answers(s, s'.(own := s.own), ok)
    && s'.own == (if ok && s'.ledger.pending == map[] then map[] else s.own)
  }

  /** The resolver's timeout is cancelled, or armed anew. */
  function Disarmed(w: World): World {
    w.(timers := CancelSlot(w.timers, Timeout(TIMEOUT)))
  }

  function Rearmed(w: World, ts: int): World {
    w.(timers := Put(CancelSlot(w.timers, Timeout(TIMEOUT)), Timeout(TIMEOUT), ts, Done))
  }

  ghost predicate OnlyTimeouts(a: seq<Processing>, b: seq<Processing>) {
    a <= b && forall i :: |a| <= i < |b| ==> b[i] == Timeouts
  }

  /** The loop that asks ADNS what to wait for. */
  ghost predicate Probing(s: Snapshot, s': Snapshot, ok: bool) {
    && s.ledger.tickets <= s'.ledger.tickets && s.ledger.delivered <= s'.ledger.delivered
    && RanAll(s.world, s'.world, Since(s, s'), ok)
    && OnlyTimeouts(s.processed, s'.processed)
  }

  /** run of the resolver; `asked` is the timeout that ADNS asked for. */
  ghost predicate Resolution(s: Snapshot, s': Snapshot, asked: int, ok: bool) {
    if s.ledger.pending == map[] then
      ok && s' == s.(world := Disarmed(s.world), own := map[])
    else
      && s.ledger.tickets <= s'.ledger.tickets && s.ledger.delivered <= s'.ledger.delivered
      && OnlyTimeouts(s.processed, s'.processed)
      && (if ok then
            && asked > 0
            && s'.world == Rearmed(DoAll(Disarmed(s.world), Since(s, s')), s.world.timers.now + CeilSeconds(asked))
          else RanAll(Disarmed(s.world), s'.world, Since(s, s'), false))
  }

  /** Events `ev` are reported on the resolver's socket `fd`. */
  ghost predicate Telling(s: Snapshot, s': Snapshot, fd: nat, ev: set<Event>, ok: bool) {
    && s.processed <= s'.processed <= s.processed + ProcessingsOf(fd, ev)
    && (ok ==> s'.processed == s.processed + ProcessingsOf(fd, ev))
    && Responses(s.(processed := s'.processed), s', ok)
  }

  /** The resolver's timeout fires. */
  ghost predicate Expiry(s: Snapshot, s': Snapshot, ok: bool) {
    Responses(s.(processed := s.processed + [Timeouts]), s', ok)
  }

  // Composition

  lemma NothingYet(s: Snapshot)
    ensures Answers(s, s, true) && Answers(s, s, false) && Probing(s, s, true) && Probing(s, s, false)
  {
    assert s.ledger.delivered[|s.ledger.delivered|..] == [];
    RanNothing(s.world, Done);
  }

  lemma NoMore(s: Snapshot)
    ensures s.ledger.pending == map[] ==> Responses(s, s.(own := map[]), true)
    ensures s.ledger.pending != map[] ==> Responses(s, s, true)
    ensures Responses(s, s, false)
  {
    NothingYet(s);
  }

  lemma AnswersEnd(s: Snapshot, s': Snapshot)
    ensures Answers(s, s', false) ==> Responses(s, s', false)
  {
  }

  /** One query is answered. */
  lemma OneAnswer(s: Snapshot, s': Snapshot, d: Delivered<Task>, ok: bool)
    requires s.ledger.tickets <= s'.ledger.tickets && s'.ledger.delivered == s.ledger.delivered + [d]
    requires Ran(s.world, s'.world, d.callback, ok) && s'.own == s.own && s'.processed == s.processed
    ensures Answers(s, s', ok)
  {
    RanOne(s.world, s'.world, d.callback, ok);
    assert Since(s, s') == [d.callback];
  }

  lemma NothingToResolve(s: Snapshot, s': Snapshot, asked: int)
    requires s.ledger.pending == map[] && s' == s.(world := Disarmed(s.world), own := map[])
    ensures Resolution(s, s', asked, true)
  {
  }

  lemma ResolutionEnd(s: Snapshot, probed: Snapshot, s': Snapshot, asked: int, ok: bool)
    requires s.ledger.pending != map[] && Probing(s.(world := Disarmed(s.world)), probed, ok)
    requires s'.ledger == probed.ledger && s'.processed == probed.processed
    requires if ok then
               asked > 0 && s'.world == Rearmed(probed.world, Disarmed(s.world).timers.now + CeilSeconds(asked))
             else s'.world == probed.world
    ensures Resolution(s, s', asked, ok)
  {
    if ok {
      RanThrough(Disarmed(s.world), probed.world, Since(s, s'), true);
    }
  }

  lemma AnswersCompose(s: Snapshot, s1: Snapshot, s2: Snapshot, ok: bool)
    requires Answers(s, s1, true) && Answers(s1, s2, ok)
    ensures Answers(s, s2, ok)
  {
    CalledBackConcat(s.ledger.delivered, s1.ledger.delivered, s2.ledger.delivered);
    RanCompose(s.world, s1.world, s2.world, Since(s, s1), Since(s1, s2), ok);
  }

  lemma ResponsesCompose(s: Snapshot, s1: Snapshot, s2: Snapshot, ok: bool)
    requires Answers(s, s1, true) && Responses(s1, s2, ok)
    ensures Responses(s, s2, ok)
  {
    AnswersCompose(s, s1, s2.(own := s1.own), ok);
  }

  lemma ProbingOn(s: Snapshot, s': Snapshot)
    requires Probing(s, s', true)
    ensures Probing(s, s', false)
  {
    RanThrough(s.world, s'.world, Since(s, s'), false);
  }

  lemma ProbingCompose(s: Snapshot, s1: Snapshot, s2: Snapshot, ok: bool)
    requires Probing(s, s1, true) && Expiry(s1, s2, ok)
    ensures Probing(s, s2, ok)
  {
    CalledBackConcat(s.ledger.delivered, s1.ledger.delivered, s2.ledger.delivered);
    RanCompose(s.world, s1.world, s2.world, Since(s, s1), Since(s1, s2), ok);
  }

  // Rounds

  /** What the k-th handler called in a turn does; it may depend on everything so far. */
  type Reactions = (nat, Delivery, Handler) -> Task

  datatype Cause = Visited(k: nat, visit: Visit) | Fired(job: Entry) | Resolved(asked: int)

  datatype Round = Round(cause: Cause, before: Snapshot, after: Snapshot)

  /** A consistent state, in which all client code keeps out of the resolver's affairs. */
  ghost predicate Consistent(s: Snapshot, own: Private) {
    && TimersOk(s.world.timers, own)
    && Queries.Inv(s.ledger)
    && TicketsAvoid(s.ledger.tickets, own)
  }

  ghost predicate TicketsAvoid(tickets: seq<Ticket<Task>>, own: Private) {
    forall i :: 0 <= i < |tickets| ==> Avoids(tickets[i].callback, own)
  }

  function Popped(s: Snapshot): Snapshot
    requires HasDue(s.world.timers)
  {
    s.(world := s.world.(timers := Pop(s.world.timers)))
  }

  /** A visit goes to whoever is registered at that moment; the resolver's sockets are its
      own business, and handlers of all others are client code. */
  ghost predicate VisitOk(k: nat, visit: Visit, s: Snapshot, s': Snapshot, hs: Reactions, ok: bool) {
    && Addressed(visit, s.own + s.world.sockets)
    && match visit
       case Ignored(_) => s' == s
       case Called(d, ProcessFd(fd)) => Telling(s, s', fd, d.events, ok)
       case Called(d, Callback(id)) => Invocation(s, s', hs(k, d, Callback(id)), ok)
  }

  /** The first entry of the queue is due: it is taken off, and what it stands for is done. */
  ghost predicate FiringOk(job: Entry, s: Snapshot, s': Snapshot, ok: bool) {
    && HasDue(s.world.timers) && job == s.world.timers.queue[0]
    && if job.value.owner == Some(TIMEOUT) then Expiry(Popped(s), s', ok)
       else Invocation(Popped(s), s', job.value.task, ok)
  }

  ghost predicate Sound(r: Round, hs: Reactions, own: Private, ok: bool) {
    && Consistent(r.before, own) && Consistent(r.after, own)
    && match r.cause
       case Visited(k, visit) => VisitOk(k, visit, r.before, r.after, hs, ok)
       case Fired(job) => FiringOk(job, r.before, r.after, ok)
       case Resolved(asked) => Resolution(r.before, r.after, asked, ok)
  }

  /** The rounds lead from one snapshot to another without a gap; only the last one may have
      ended with an exception. */
  ghost predicate History(rounds: seq<Round>, first: Snapshot, last: Snapshot, hs: Reactions, own: Private, ok: bool)
    decreases |rounds|
  {
    if rounds == [] then first == last
    else
      var k := |rounds| - 1;
      && rounds[k].after == last && Sound(rounds[k], hs, own, ok)
      && History(rounds[..k], first, rounds[k].before, hs, own, true)
  }

  lemma NoRounds(s: Snapshot, hs: Reactions, own: Private, ok: bool)
    ensures History([], s, s, hs, own, ok)
  {
  }

  lemma HistorySnoc(rounds: seq<Round>, first: Snapshot, r: Round, hs: Reactions, own: Private, ok: bool)
    requires History(rounds, first, r.before, hs, own, true) && Sound(r, hs, own, ok)
    ensures History(rounds + [r], first, r.after, hs, own, ok)
  {
    assert (rounds + [r])[..|rounds|] == rounds;
  }

  lemma {:induction false} HistoryConcat(a: seq<Round>, b: seq<Round>, first: Snapshot, mid: Snapshot, last: Snapshot,
                                         hs: Reactions, own: Private, ok: bool)
    requires History(a, first, mid, hs, own, true) && History(b, mid, last, hs, own, ok) && (b == [] ==> ok)
    ensures History(a + b, first, last, hs, own, ok)
    decreases |b|
  {
    hide Sound;
    if b == [] {
      assert a + b == a;
    } else {
      var k := |b| - 1;
      HistoryConcat(a, b[..k], first, mid, b[k].before, hs, own, true);
      assert (a + b)[..|a + b| - 1] == a + b[..k] && (a + b)[|a + b| - 1] == b[k];
    }
  }

  // What follows from a history

  /** The visits of a history of visits. */
  function VisitsOf(rounds: seq<Round>): seq<Visit>
    requires forall i :: 0 <= i < |rounds| ==> rounds[i].cause.Visited?
  {
    seq(|rounds|, i requires 0 <= i < |rounds| => rounds[i].cause.visit)
  }

  lemma NoDeliveries()
    ensures Deliveries(VisitsOf([])) == []
  {
  }

  lemma VisitsSnoc(rounds: seq<Round>, r: Round)
    requires forall i :: 0 <= i < |rounds| ==> rounds[i].cause.Visited?
    requires r.cause.Visited?
    ensures Deliveries(VisitsOf(rounds + [r])) == Deliveries(VisitsOf(rounds)) + [r.cause.visit.delivery]
  {
  }

  function ProcessingsFor(v: Visit): seq<Processing> {
    if v.Called? && v.handler.ProcessFd? then ProcessingsOf(v.handler.fd, v.delivery.events) else []
  }

  /** What ADNS must be told about a number of visits. */
  function ProcessingsIn(log: seq<Visit>): seq<Processing>
    decreases |log|
  {
    if log == [] then [] else ProcessingsIn(log[..|log| - 1]) + ProcessingsFor(log[|log| - 1])
  }

  /** What a visit must be, in terms of the sockets that live at that moment: the handler of
      a client is called, the one of the resolver tells ADNS and delivers, and nothing happens
      only if there is no socket. */
  ghost predicate Reaches(r: Round, hs: Reactions, ok: bool) {
    r.cause.Visited? &&
    var d, t := r.cause.visit.delivery, r.before.own + r.before.world.sockets;
    && (r.cause.visit.Called? <==> d.fd in t)
    && (if d.fd !in t then r.after == r.before
        else
          && r.cause.visit.handler == t[d.fd].handler
          && match t[d.fd].handler
             case Callback(id) => Invocation(r.before, r.after, hs(r.cause.k, d, Callback(id)), ok)
             case ProcessFd(fd) => Telling(r.before, r.after, fd, d.events, ok))
  }

  lemma SoundReaches(r: Round, hs: Reactions, own: Private, ok: bool)
    requires Sound(r, hs, own, ok) && r.cause.Visited?
    ensures Reaches(r, hs, ok)
  {
  }

  /** Every visit of a history is one. */
  lemma {:induction false} VisitsReach(rounds: seq<Round>, first: Snapshot, last: Snapshot, hs: Reactions, own: Private, ok: bool)
    requires History(rounds, first, last, hs, own, ok)
    ensures forall i :: 0 <= i < |rounds| && rounds[i].cause.Visited? ==> Reaches(rounds[i], hs, ok || i + 1 < |rounds|)
    decreases |rounds|
  {
    hide Sound, Reaches, Consistent;
    if rounds != [] {
      var k := |rounds| - 1;
      VisitsReach(rounds[..k], first, rounds[k].before, hs, own, true);
      if rounds[k].cause.Visited? {
        SoundReaches(rounds[k], hs, own, ok);
      }
      hide History;
      forall i | 0 <= i < |rounds| && rounds[i].cause.Visited? ensures Reaches(rounds[i], hs, ok || i + 1 < |rounds|) {
        if i < k {
          assert rounds[..k][i] == rounds[i];
        }
      }
    }
  }

  /** ADNS was told of the events of a visit that went to it, and of nothing otherwise. */
  ghost predicate ToldOf(r: Round) {
    r.cause.Visited? && r.before.processed <= r.after.processed &&
    var ps, v := r.after.processed[|r.before.processed|..], r.cause.visit;
    if v.Called? && v.handler.ProcessFd? then Tells(ps, v.handler.fd, v.delivery.events) else ps == []
  }

  lemma OneVisit(r: Round, hs: Reactions, own: Private)
    requires Sound(r, hs, own, true) && r.cause.Visited?
    ensures r.after.processed == r.before.processed + ProcessingsFor(r.cause.visit) && ToldOf(r)
  {
    if r.cause.visit.Called? && r.cause.visit.handler.ProcessFd? {
      ProcessingsTell(r.cause.visit.handler.fd, r.cause.visit.delivery.events);
    }
    assert r.after.processed[|r.before.processed|..] == ProcessingsFor(r.cause.visit);
    hide Tells;
    hide Consistent, RanAll, Ran, ProcessingsOf;
  }

  /** ADNS is told of exactly the events that were delivered to its sockets, in order. */
  lemma {:induction false} VisitsTell(rounds: seq<Round>, first: Snapshot, last: Snapshot, hs: Reactions, own: Private)
    requires History(rounds, first, last, hs, own, true)
    requires forall i :: 0 <= i < |rounds| ==> rounds[i].cause.Visited?
    ensures forall i :: 0 <= i < |rounds| ==> ToldOf(rounds[i])
    ensures last.processed == first.processed + ProcessingsIn(VisitsOf(rounds))
    decreases |rounds|
  {
    hide Sound, ProcessingsFor, ToldOf;
    if rounds != [] {
      var k := |rounds| - 1;
      OneVisit(rounds[k], hs, own);
      VisitsTell(rounds[..k], first, rounds[k].before, hs, own);
      assert forall i :: 0 <= i < k ==> rounds[..k][i] == rounds[i];
      assert VisitsOf(rounds)[..k] == VisitsOf(rounds[..k]);
      Regroup(first.processed, ProcessingsIn(VisitsOf(rounds[..k])), ProcessingsFor(rounds[k].cause.visit));
    }
  }

  /** The jobs of a history of firings, as the timer queue records them. */
  function FiringsOf(rounds: seq<Round>, now: int): seq<Firing>
    requires forall i :: 0 <= i < |rounds| ==> rounds[i].cause.Fired?
  {
    seq(|rounds|, i requires 0 <= i < |rounds| => Firing(rounds[i].cause.job, now))
  }

  /** How often the resolver's timeout fired. */
  function Expiries(rounds: seq<Round>): seq<Processing>
    requires forall i :: 0 <= i < |rounds| ==> rounds[i].cause.Fired?
    decreases |rounds|
  {
    if rounds == [] then []
    else Expiries(rounds[..|rounds| - 1])
         + if rounds[|rounds| - 1].cause.job.value.owner == Some(TIMEOUT) then [Timeouts] else []
  }

  lemma FiringLeaves(r: Round, hs: Reactions, own: Private, ok: bool)
    requires Sound(r, hs, own, ok) && r.cause.Fired? && own.timeout == TIMEOUT
    ensures Untouched(Pop(r.before.world.timers), r.after.world.timers, own)
  {
    var st := r.before.world.timers;
    PopKeeps(st);
    assert forall i :: 0 <= i < |Pop(st).queue| ==> Pop(st).queue[i] == st.queue[i + 1];
    if r.cause.job.value.owner == Some(TIMEOUT) {
      CallbacksAvoid(r.before, r.after, own);
      RanAllLeaves(Popped(r.before).world, r.after.world, Since(r.before, r.after), ok, own);
    } else {
      RanLeaves(Popped(r.before).world, r.after.world, r.cause.job.value.task, ok, own);
    }
  }

  lemma CallbacksAvoid(s: Snapshot, s': Snapshot, own: Private)
    requires Consistent(s', own) && s.ledger.delivered <= s'.ledger.delivered
    ensures forall i :: 0 <= i < |Since(s, s')| ==> Avoids(Since(s, s')[i], own)
  {
    forall i | 0 <= i < |Since(s, s')| ensures Avoids(Since(s, s')[i], own) {
      var d := s'.ledger.delivered[|s.ledger.delivered| + i];
      assert s'.ledger.tickets[d.ticket].callback == d.callback;
    }
  }

  lemma OneFiring(r: Round, hs: Reactions, own: Private, e: Entry)
    requires Sound(r, hs, own, true) && r.cause.Fired? && own.timeout == TIMEOUT
    ensures var st, st' := r.before.world.timers, r.after.world.timers;
            && st'.now == st.now
            && st'.executed == st.executed + [Firing(r.cause.job, st.now)]
            && r.after.processed == r.before.processed
                 + (if r.cause.job.value.owner == Some(TIMEOUT) then [Timeouts] else [])
            && (Armed(st, TIMEOUT, e) && e.key > st.now ==> Armed(st', TIMEOUT, e))
  {
    FiringLeaves(r, hs, own, true);
    if Armed(r.before.world.timers, TIMEOUT, e) && e.key > r.before.world.timers.now {
      PopArmed(r.before.world.timers, e);
    }
  }

  lemma PopArmed(st: State, e: Entry)
    requires HasDue(st) && Armed(st, TIMEOUT, e) && e.key > st.now
    ensures Armed(Pop(st), TIMEOUT, e)
  {
    var k :| 0 <= k < |st.queue| && st.queue[k] == e;
    assert Pop(st).queue[k - 1] == e;
  }

  /** Jobs fire in order, each once, and ADNS processes timeouts exactly when the resolver's
      timeout fires; a timeout of the resolver that is not due yet stays armed. */
  lemma {:induction false} FiringsKeep(rounds: seq<Round>, first: Snapshot, last: Snapshot, hs: Reactions, own: Private, e: Entry)
    requires History(rounds, first, last, hs, own, true) && own.timeout == TIMEOUT
    requires forall i :: 0 <= i < |rounds| ==> rounds[i].cause.Fired?
    ensures var st, st' := first.world.timers, last.world.timers;
            && st'.now == st.now
            && st'.executed == st.executed + FiringsOf(rounds, st.now)
            && last.processed == first.processed + Expiries(rounds)
            && (Armed(st, TIMEOUT, e) && e.key > st.now ==> Armed(st', TIMEOUT, e))
    decreases |rounds|
  {
    hide Sound, Armed;
    if rounds != [] {
      var k := |rounds| - 1;
      var now, job := first.world.timers.now, rounds[k].cause.job;
      FiringsKeep(rounds[..k], first, rounds[k].before, hs, own, e);
      OneFiring(rounds[k], hs, own, e);
      var fs := FiringsOf(rounds[..k], now);
      assert FiringsOf(rounds, now) == fs + [Firing(job, now)];
      Regroup(first.world.timers.executed, fs, [Firing(job, now)]);
      Regroup(first.processed, Expiries(rounds[..k]), if job.value.owner == Some(TIMEOUT) then [Timeouts] else []);
    }
  }
}
