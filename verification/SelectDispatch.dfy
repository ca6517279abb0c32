/** include/ioxx/dispatch.hpp over the select demultiplexer: delivery while handlers create,
    modify and destroy sockets. */
module SelectDispatch {
  import opened Sockets
  import opened Select

  function Wanting(t: Table, e: Event): set<nat> {
    set fd | fd in t && e in t[fd].interest
  }

  /** A log of visits is a faithful account of dispatch::run on a snapshot: descriptors in
      strictly ascending order, each with exactly its events, none left out; and each visit
      went to whoever was registered at that moment. */
  ghost predicate Faithful(log: seq<Visit>, t: Table, hs: Handlers, r: set<nat>, w: set<nat>, x: set<nat>, hi: nat) {
    && (forall i, j :: 0 <= i < j < |log| ==> log[i].delivery.fd < log[j].delivery.fd)
    && (forall i :: 0 <= i < |log| ==> IsReady(r, w, x, 0, hi, log[i].delivery))
    && (forall d :: IsReady(r, w, x, 0, hi, d) ==> exists i :: 0 <= i < |log| && log[i].delivery == d)
    && Current(log, t, hs)
  }

  lemma VisitsAreFaithful(log: seq<Visit>, t: Table, hs: Handlers, r: set<nat>, w: set<nat>, x: set<nat>, hi: nat)
    requires Deliveries(log) == ReadyFrom(r, w, x, 0, hi)
    requires Current(log, t, hs)
    ensures Faithful(log, t, hs, r, w, x, hi)
  {
    ReadyExact(r, w, x, 0, hi);
    var ds := Deliveries(log);
    assert forall i :: 0 <= i < |log| ==> log[i].delivery == ds[i] && ds[i] in ds;
    forall d | IsReady(r, w, x, 0, hi, d) ensures exists i :: 0 <= i < |log| && log[i].delivery == d {
      ReadyComplete(r, w, x, 0, hi, d);
      var i :| 0 <= i < |ds| && ds[i] == d;
      assert log[i].delivery == d;
    }
  }

  /** Some socket at `fd` or above waits for something. */
  ghost predicate Reaches(t: Table, fd: nat) {
    exists g :: g in t && g >= fd && t[g].interest != {}
  }

  lemma MaxReaches(m: int, t: Table, fd: nat)
    requires IsMax(m, Wanting(t, Readable) + Wanting(t, Writable) + Wanting(t, Pridata))
    ensures fd <= m <==> Reaches(t, fd)
  {
    var all := Wanting(t, Readable) + Wanting(t, Writable) + Wanting(t, Pridata);
    forall g | g in t && t[g].interest != {} ensures g in all {
      var e :| e in t[g].interest;
      assert e.Readable? || e.Writable? || e.Pridata?;
    }
    if fd <= m {
      var g: nat := m;
      assert g in all && g in t;
    }
  }

  /** At each visit some socket at that descriptor or above waits for something. */
  ghost predicate WithinReach(log: seq<Visit>, t: Table, hs: Handlers)
    decreases |log|
  {
    log == [] ||
    var k := |log| - 1;
    WithinReach(log[..k], t, hs) && Reaches(TableAfter(t, log[..k], hs), log[k].delivery.fd)
  }

  lemma ReachExtends(log: seq<Visit>, t: Table, hs: Handlers, visit: Visit)
    ensures WithinReach(log + [visit], t, hs) <==>
              WithinReach(log, t, hs) && Reaches(TableAfter(t, log, hs), visit.delivery.fd)
  {
    assert (log + [visit])[..|log|] == log;
  }

  class SelectDispatch {
    const demux: Select
    var handlers: map<nat, Handler>
    ghost var sockets: Table            // the live socket objects

    /** The layers agree: the handler map covers exactly the live sockets, and the
        demultiplexer asks the system for exactly what they requested. */
    ghost predicate Valid()
      reads this, demux
    {
      && demux.Valid()
      && handlers.Keys == sockets.Keys
      && (forall fd :: fd in handlers ==> handlers[fd] == sockets[fd].handler)
      && demux.reqRead == Wanting(sockets, Readable)
      && demux.reqWrite == Wanting(sockets, Writable)
      && demux.reqExcept == Wanting(sockets, Pridata)
    }

    constructor ()
      ensures Valid() && sockets == map[] && demux.nEvents == 0 && fresh(demux)
    {
      demux := new Select();
      handlers, sockets := map[], map[];
    }

    /** socket::request on a live socket, or on one that is just coming or going. */
    method Request(fd: nat, ev: set<Event>, ghost before: Table, ghost after: Table)
      requires demux.Valid()
      requires demux.reqRead == Wanting(before, Readable)
      requires demux.reqWrite == Wanting(before, Writable)
      requires demux.reqExcept == Wanting(before, Pridata)
      requires after - {fd} == before - {fd}
      requires if fd in after then after[fd].interest == ev else ev == {}
      modifies demux
      ensures demux.Valid() && demux.Ready() == old(demux.Ready()) && demux.nEvents == old(demux.nEvents)
      ensures demux.reqRead == Wanting(after, Readable)
      ensures demux.reqWrite == Wanting(after, Writable)
      ensures demux.reqExcept == Wanting(after, Pridata)
    {
      forall other | other != fd
        ensures other in after <==> other in before
        ensures other in after ==> after[other] == before[other]
      {
        assert other in after <==> other in after - {fd};
        assert other in before <==> other in before - {fd};
        assert other in after ==> after[other] == (after - {fd})[other] == before[other];
      }
      var _ := demux.Request(fd, ev);
    }

    /** Any of the socket operations client code has. */
    method Perform(op: Op)
      requires Valid()
      modifies this, demux
      ensures Valid() && sockets == Apply(old(sockets), op) && Effect(old(sockets), op, sockets)
      ensures demux.Ready() == old(demux.Ready()) && demux.nEvents == old(demux.nEvents)
    {
      hide Bits, ReadyFrom, IsMax, Effect;
      ghost var after := Apply(sockets, op);
      ApplyEffect(sockets, op);
      match op {
        case Create(fd, handler, events) =>
          if fd !in handlers {
            Request(fd, events, sockets, after);
            handlers := handlers[fd := handler];
          }
        case Modify(fd, handler) =>
          if fd in handlers {
            handlers := handlers[fd := handler];
            assert forall e :: Wanting(after, e) == Wanting(sockets, e);
          }
        case ModifyBoth(fd, handler, events) =>
          if fd in handlers {
            Request(fd, events, sockets, after);
            handlers := handlers[fd := handler];
          }
        case Request(fd, events) =>
          if fd in handlers {
            Request(fd, events, sockets, after);
          }
        case Destroy(fd) =>
          if fd in handlers {
            handlers := handlers - {fd};
            Request(fd, {}, sockets, after);
          } else {
            assert after == sockets;
          }
      }
      sockets := after;
    }

    method PerformAll(ops: seq<Op>)
      requires Valid()
      modifies this, demux
      ensures Valid() && sockets == ApplyAll(old(sockets), ops) && Effects(old(sockets), ops, sockets)
      ensures demux.Ready() == old(demux.Ready())
      decreases |ops|
    {
      ApplyAllEffects(sockets, ops);
      if ops != [] {
        Perform(ops[0]);
        PerformAll(ops[1..]);
      }
    }

    /** One round of the loop in run, for the k-th event. */
    method Dispatch(d: Delivery, hs: Handlers, k: nat) returns (visit: Visit)
      requires Valid()
      modifies this, demux
      ensures Valid() && demux.Ready() == old(demux.Ready())
      ensures visit.delivery == d && Addressed(visit, old(sockets)) && sockets == AfterVisit(old(sockets), d, hs, k)
    {
      if d.fd in handlers {
        visit := Called(d, handlers[d.fd]);
        PerformAll(hs(k, d, handlers[d.fd]));
      } else {
        visit := Ignored(d);
      }
    }

    /** run, with whatever handlers do given by `hs`. What pop_event asserts about its cursor
        held all the way exactly if the handlers never left a ready descriptor above all
        those that wait for something. */
    method Run(hs: Handlers) returns (log: seq<Visit>, asserted: bool)
      requires Valid()
      modifies this, demux
      ensures Valid() && demux.nEvents == 0 && demux.Ready() == []
      ensures Deliveries(log) == old(demux.Ready())
      ensures Current(log, old(sockets), hs) && sockets == TableAfter(old(sockets), log, hs)
      ensures Accounts(log, old(sockets), sockets, hs)
      ensures forall k :: 0 <= k < |log| ==> Addressed(log[k], TableAfter(old(sockets), log[..k], hs))
      ensures asserted <==> WithinReach(log, old(sockets), hs)
    {
      hide Bits, ReadyFrom, IsMax, Wanting, Current, TableAfter, AfterVisit, Deliveries, Reaches, Accounts, Addressed;
      log, asserted := [], true;
      ghost var all := demux.Ready();
      NoVisits(sockets, hs);
      while true
        invariant Valid() && all == Deliveries(log) + demux.Ready()
        invariant Current(log, old(sockets), hs) && sockets == TableAfter(old(sockets), log, hs)
        invariant asserted <==> WithinReach(log, old(sockets), hs)
        decreases |demux.Ready()|
      {
        ghost var todo := demux.Ready();
        var found, sock, ev, held := demux.PopEvent();
        asserted := asserted && held;
        if !found {
          assert todo == [];
          CurrentAccounts(log, old(sockets), hs);
          forall k | 0 <= k < |log| ensures Addressed(log[k], TableAfter(old(sockets), log[..k], hs)) {
            CurrentAt(log, old(sockets), hs, k);
          }
          return;
        }
        var d := Delivery(sock, ev);
        assert todo == [d] + demux.Ready();
        MaxReaches(demux.maxFd, sockets, sock);
        var visit := Dispatch(d, hs, |log|);
        ReachExtends(log, old(sockets), hs, visit);
        LogExtends(log, old(sockets), hs, visit);
        Regroup(Deliveries(log), [d], demux.Ready());
        log := log + [visit];
      }
    }

    method Empty() returns (r: bool)
      requires Valid()
      ensures r <==> sockets == map[]
    {
      r := handlers == map[];
      assert sockets == map[] <==> sockets.Keys == {};
      assert handlers == map[] <==> handlers.Keys == {};
    }

    /** One turn of the event loop's socket half: wait for the system, then dispatch. */
    method WaitAndRun(reply: Reply, hs: Handlers) returns (log: seq<Visit>, asserted: bool)
      requires Valid() && demux.nEvents == 0
      requires reply.Selected? ==>
                 reply.r <= demux.reqRead && reply.w <= demux.reqWrite && reply.x <= demux.reqExcept
      modifies this, demux
      ensures Valid() && demux.nEvents == 0
      ensures reply.Selected? ==>
                Faithful(log, old(sockets), hs, reply.r, reply.w, reply.x, (old(demux.maxFd) + 1) as nat)
      ensures reply.Interrupted? ==> log == [] && sockets == old(sockets)
      ensures asserted <==> WithinReach(log, old(sockets), hs)
    {
      demux.Wait(reply);
      log, asserted := Run(hs);
      if reply.Selected? {
        VisitsAreFaithful(log, old(sockets), hs, reply.r, reply.w, reply.x, (old(demux.maxFd) + 1) as nat);
      }
    }
  }

  // Where the assertions of the code fail

  /** A socket that is constructed without interest, as is the default, above all others. */
  method IdleSocket() returns (asserted: bool)
    ensures !asserted
  {
    var demux := new Select();
    asserted := demux.Request(3, {});
  }

  const THREE_FIVE: Table :=
    map[3 := Registration(Callback(0), {Readable}), 5 := Registration(Callback(1), {Readable})]

  /** The handler of 3 destroys 5. */
  function DestroyFive(k: nat, d: Delivery, h: Handler): seq<Op> {
    if d.fd == 3 then [Op.Destroy(5)] else []
  }

  lemma ThreeFiveReady()
    ensures ReadyFrom({3, 5}, {}, {}, 0, 6) == [Delivery(3, {Readable}), Delivery(5, {Readable})]
  {
    assert ReadyFrom({3, 5}, {}, {}, 5, 6) == [Delivery(5, {Readable})];
    assert ReadyFrom({3, 5}, {}, {}, 3, 6) == [Delivery(3, {Readable}), Delivery(5, {Readable})];
    assert ReadyFrom({3, 5}, {}, {}, 2, 6) == ReadyFrom({3, 5}, {}, {}, 3, 6);
  }

  lemma FiveIsGone(log: seq<Visit>)
    requires Deliveries(log) == [Delivery(3, {Readable}), Delivery(5, {Readable})]
    ensures !WithinReach(log, THREE_FIVE, DestroyFive)
  {
    assert |log| == |Deliveries(log)| && log[0].delivery == Deliveries(log)[0] && log[1].delivery == Deliveries(log)[1];
    assert log[..1][..0] == [];
    NoVisits(THREE_FIVE, DestroyFive);
    assert log[..1][0] == log[0];
    assert TableAfter(THREE_FIVE, log[..1], DestroyFive) == ApplyAll(THREE_FIVE, [Op.Destroy(5)]);
    assert ApplyAll(THREE_FIVE, [Op.Destroy(5)]) == Apply(THREE_FIVE, Op.Destroy(5));
  }

  lemma ThreeFiveWanted(m: int)
    ensures Wanting(THREE_FIVE, Readable) == {3, 5} && Wanting(THREE_FIVE, Writable) == Wanting(THREE_FIVE, Pridata) == {}
    ensures IsMax(m, Wanting(THREE_FIVE, Readable) + Wanting(THREE_FIVE, Writable) + Wanting(THREE_FIVE, Pridata)) ==> m == 5
  {
    assert 5 in Wanting(THREE_FIVE, Readable);
  }

  method ThreeAndFive() returns (disp: SelectDispatch)
    ensures fresh(disp) && fresh(disp.demux) && disp.Valid() && disp.sockets == THREE_FIVE && disp.demux.nEvents == 0
  {
    hide ReadyFrom, Bits, IsMax, Wanting;
    disp := new SelectDispatch();
    disp.Perform(Op.Create(3, Callback(0), {Readable}));
    disp.Perform(Op.Create(5, Callback(1), {Readable}));
    assert disp.sockets == THREE_FIVE;
  }

  /** 3 and 5 are ready, and the handler of 3 destroys 5. */
  method HighestDestroyed() returns (log: seq<Visit>, asserted: bool)
    ensures !asserted && Deliveries(log) == [Delivery(3, {Readable}), Delivery(5, {Readable})]
  {
    hide ReadyFrom, Bits, WithinReach, Wanting, IsMax, DestroyFive, TableAfter, Current;
    var disp := ThreeAndFive();
    ThreeFiveWanted(disp.demux.maxFd);
    ThreeFiveReady();
    disp.demux.Wait(Selected({3, 5}, {}, {}));
    log, asserted := disp.Run(DestroyFive);
    FiveIsGone(log);
  }
}
