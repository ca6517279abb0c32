/** Sockets as their clients see them, whatever the demultiplexer: a table from descriptors
    to the registered handler and the requested events, and what client code does to it. */
module Sockets {

  datatype Event = Readable | Writable | Pridata

  datatype Handler = Callback(id: nat) | ProcessFd(fd: nat)

  datatype Registration = Registration(handler: Handler, interest: set<Event>)

  type Table = map<nat, Registration>

  /** Construction, the two forms of modify, request, and destruction of a socket object.
      Only a live socket object can be modified or destroyed, and the system does not
      hand out a descriptor that is in use: other operations do nothing. */
  datatype Op =
    | Create(fd: nat, handler: Handler, events: set<Event>)
    | Modify(fd: nat, handler: Handler)
    | ModifyBoth(fd: nat, handler: Handler, events: set<Event>)
    | Request(fd: nat, events: set<Event>)
    | Destroy(fd: nat)

  function Apply(t: Table, op: Op): Table {
    match op
    case Create(fd, handler, events) => if fd in t then t else t[fd := Registration(handler, events)]
    case Modify(fd, handler) => if fd in t then t[fd := t[fd].(handler := handler)] else t
    case ModifyBoth(fd, handler, events) => if fd in t then t[fd := Registration(handler, events)] else t
    case Request(fd, events) => if fd in t then t[fd := t[fd].(interest := events)] else t
    case Destroy(fd) => t - {fd}
  }

  function ApplyAll(t: Table, ops: seq<Op>): Table
    decreases |ops|
  {
    if ops == [] then t else ApplyAll(Apply(t, ops[0]), ops[1..])
  }

  /** What an operation does to the socket it is about, and that it does nothing to others. */
  ghost predicate Effect(t: Table, op: Op, t': Table) {
    && (forall fd :: fd != op.fd ==> (fd in t' <==> fd in t) && (fd in t ==> t'[fd] == t[fd]))
    && match op
       case Create(fd, handler, events) =>
         fd in t' && t'[fd] == if fd in t then t[fd] else Registration(handler, events)
       case Modify(fd, handler) =>
         (fd in t' <==> fd in t) && (fd in t ==> t'[fd] == Registration(handler, t[fd].interest))
       case ModifyBoth(fd, handler, events) =>
         (fd in t' <==> fd in t) && (fd in t ==> t'[fd] == Registration(handler, events))
       case Request(fd, events) =>
         (fd in t' <==> fd in t) && (fd in t ==> t'[fd] == Registration(t[fd].handler, events))
       case Destroy(fd) => fd !in t'
  }

  lemma ApplyEffect(t: Table, op: Op)
    ensures Effect(t, op, Apply(t, op))
  {
  }

  /** All of these operations take effect, one after the other. */
  ghost predicate Effects(t: Table, ops: seq<Op>, t': Table)
    decreases |ops|
  {
    if ops == [] then t' == t else exists t1 :: Effect(t, ops[0], t1) && Effects(t1, ops[1..], t')
  }

  lemma {:induction false} ApplyAllEffects(t: Table, ops: seq<Op>)
    ensures Effects(t, ops, ApplyAll(t, ops))
    decreases |ops|
  {
    if ops != [] {
      ApplyEffect(t, ops[0]);
      ApplyAllEffects(Apply(t, ops[0]), ops[1..]);
    }
  }

  /** One event set a demultiplexer hands out. */
  datatype Delivery = Delivery(fd: nat, events: set<Event>)

  /** All that handlers may do: the socket operations of the k-th call of one dispatch run,
      which may depend on everything that happened before. */
  type Handlers = (nat, Delivery, Handler) -> seq<Op>

  /** What the dispatcher does with a delivery: call the registered handler, or ignore it. */
  datatype Visit = Called(delivery: Delivery, handler: Handler) | Ignored(delivery: Delivery)

  /** A visit of this kind is what a live socket, or the lack of one, calls for: the event
      of a live socket goes to the handler registered for it, any other is ignored. */
  ghost predicate Addressed(visit: Visit, t: Table) {
    && (visit.Called? <==> visit.delivery.fd in t)
    && (visit.Called? ==> visit.handler == t[visit.delivery.fd].handler)
  }

  function AfterVisit(t: Table, d: Delivery, hs: Handlers, k: nat): Table {
    if d.fd in t then ApplyAll(t, hs(k, d, t[d.fd].handler)) else t
  }

  /** The table after the visits of `log`. */
  function TableAfter(t: Table, log: seq<Visit>, hs: Handlers): Table
    decreases |log|
  {
    if log == [] then t
    else
      var k := |log| - 1;
      AfterVisit(TableAfter(t, log[..k], hs), log[k].delivery, hs, k)
  }

  /** Every visit went to the handler registered at that moment, or to nobody if there
      was none. */
  ghost predicate Current(log: seq<Visit>, t: Table, hs: Handlers)
    decreases |log|
  {
    log == [] ||
    var k := |log| - 1;
    Current(log[..k], t, hs) && Addressed(log[k], TableAfter(t, log[..k], hs))
  }

  lemma {:induction false} CurrentAt(log: seq<Visit>, t: Table, hs: Handlers, k: nat)
    requires Current(log, t, hs) && k < |log|
    ensures Addressed(log[k], TableAfter(t, log[..k], hs))
    decreases |log|
  {
    var last := |log| - 1;
    if k < last {
      CurrentAt(log[..last], t, hs, k);
      assert log[..last][..k] == log[..k];
    }
  }

  /** What the handler called in a visit, the k-th, does. */
  function DoneIn(visit: Visit, hs: Handlers, k: nat): seq<Op> {
    if visit.Called? then hs(k, visit.delivery, visit.handler) else []
  }

  /** The tables between the visits: each visit goes to whoever is registered, and leads to
      the next table by what its handler does. */
  ghost predicate Dispatched(log: seq<Visit>, tables: seq<Table>, hs: Handlers) {
    && |tables| == |log| + 1
    && forall k :: 0 <= k < |log| ==>
         Addressed(log[k], tables[k]) && Effects(tables[k], DoneIn(log[k], hs, k), tables[k + 1])
  }

  /** A log accounts for the way from one table to another. */
  ghost predicate Accounts(log: seq<Visit>, t: Table, t': Table, hs: Handlers) {
    exists tables :: Dispatched(log, tables, hs) && tables[0] == t && tables[|log|] == t'
  }

  lemma OneMoreVisit(log: seq<Visit>, tables: seq<Table>, hs: Handlers, visit: Visit, t': Table)
    requires Dispatched(log, tables, hs) && Addressed(visit, tables[|log|])
    requires Effects(tables[|log|], DoneIn(visit, hs, |log|), t')
    ensures Dispatched(log + [visit], tables + [t'], hs)
  {
    hide Effects, Addressed, DoneIn;
    var log', tables' := log + [visit], tables + [t'];
    forall k | 0 <= k < |log'|
      ensures Addressed(log'[k], tables'[k]) && Effects(tables'[k], DoneIn(log'[k], hs, k), tables'[k + 1])
    {
      if k < |log| {
        assert Addressed(log[k], tables[k]);
      }
    }
  }

  lemma VisitEffects(t: Table, visit: Visit, hs: Handlers, k: nat)
    requires Addressed(visit, t)
    ensures Effects(t, DoneIn(visit, hs, k), AfterVisit(t, visit.delivery, hs, k))
  {
    ApplyAllEffects(t, DoneIn(visit, hs, k));
  }

  lemma AccountsExtends(log: seq<Visit>, t: Table, t1: Table, hs: Handlers, visit: Visit)
    requires Accounts(log, t, t1, hs) && Addressed(visit, t1)
    ensures Accounts(log + [visit], t, AfterVisit(t1, visit.delivery, hs, |log|), hs)
  {
    var tables :| Dispatched(log, tables, hs) && tables[0] == t && tables[|log|] == t1;
    VisitEffects(t1, visit, hs, |log|);
    assert |tables| == |log| + 1;
    hide Effects, Addressed, AfterVisit, Dispatched;
    OneMoreVisit(log, tables, hs, visit, AfterVisit(t1, visit.delivery, hs, |log|));
    var tables' := tables + [AfterVisit(t1, visit.delivery, hs, |log|)];
    assert tables'[0] == t;
  }

  lemma {:induction false} CurrentAccounts(log: seq<Visit>, t: Table, hs: Handlers)
    requires Current(log, t, hs)
    ensures Accounts(log, t, TableAfter(t, log, hs), hs)
    decreases |log|
  {
    if log == [] {
      assert Dispatched(log, [t], hs);
    } else {
      var k := |log| - 1;
      CurrentAccounts(log[..k], t, hs);
      hide Accounts, Addressed, AfterVisit;
      AccountsExtends(log[..k], t, TableAfter(t, log[..k], hs), hs, log[k]);
      assert log == log[..k] + [log[k]];
    }
  }

  function Deliveries(log: seq<Visit>): seq<Delivery> {
    seq(|log|, i requires 0 <= i < |log| => log[i].delivery)
  }

  lemma NoVisits(t: Table, hs: Handlers)
    ensures Deliveries([]) == [] && Current([], t, hs) && TableAfter(t, [], hs) == t
  {
  }

  lemma Regroup<T>(a: seq<T>, b: seq<T>, c: seq<T>)
    ensures a + (b + c) == (a + b) + c
  {
  }

  lemma LogExtends(log: seq<Visit>, t: Table, hs: Handlers, visit: Visit)
    requires Current(log, t, hs) && Addressed(visit, TableAfter(t, log, hs))
    ensures Current(log + [visit], t, hs)
    ensures TableAfter(t, log + [visit], hs) == AfterVisit(TableAfter(t, log, hs), visit.delivery, hs, |log|)
    ensures Deliveries(log + [visit]) == Deliveries(log) + [visit.delivery]
  {
    var log' := log + [visit];
    assert log'[..|log|] == log && log'[|log|] == visit;
  }
}
