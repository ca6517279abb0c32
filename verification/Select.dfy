/** include/ioxx/detail/select.hpp: the demultiplexer over select(2). */
module Select {
  import opened Sockets

  function EventsOf(r: set<nat>, w: set<nat>, x: set<nat>, fd: nat): set<Event> {
    (if fd in r then {Readable} else {}) + (if fd in w then {Writable} else {}) + (if fd in x then {Pridata} else {})
  }

  function Bit(s: set<nat>, fd: nat): nat { if fd in s then 1 else 0 }

  /** The number of bits set for the descriptors from `lo` up to, not including, `hi`. */
  function Bits(r: set<nat>, w: set<nat>, x: set<nat>, lo: nat, hi: nat): nat
    decreases hi - lo
  {
    if lo >= hi then 0 else Bit(r, lo) + Bit(w, lo) + Bit(x, lo) + Bits(r, w, x, lo + 1, hi)
  }

  /** What the scan of a snapshot has to deliver from `lo` on. */
  function ReadyFrom(r: set<nat>, w: set<nat>, x: set<nat>, lo: nat, hi: nat): seq<Delivery>
    decreases hi - lo
  {
    if lo >= hi then []
    else (if EventsOf(r, w, x, lo) == {} then [] else [Delivery(lo, EventsOf(r, w, x, lo))]) + ReadyFrom(r, w, x, lo + 1, hi)
  }

  ghost predicate Ascending(ds: seq<Delivery>) {
    forall i, j :: 0 <= i < j < |ds| ==> ds[i].fd < ds[j].fd
  }

  /** The events are those of the sets that the descriptor is in. */
  ghost predicate Reports(r: set<nat>, w: set<nat>, x: set<nat>, d: Delivery) {
    && (Readable in d.events <==> d.fd in r)
    && (Writable in d.events <==> d.fd in w)
    && (Pridata in d.events <==> d.fd in x)
  }

  ghost predicate IsReady(r: set<nat>, w: set<nat>, x: set<nat>, lo: nat, hi: nat, d: Delivery) {
    lo <= d.fd < hi && d.events != {} && Reports(r, w, x, d)
  }

  lemma EventsExact(r: set<nat>, w: set<nat>, x: set<nat>, d: Delivery)
    ensures Reports(r, w, x, d) <==> d.events == EventsOf(r, w, x, d.fd)
  {
    var ev := EventsOf(r, w, x, d.fd);
    if Reports(r, w, x, d) {
      forall e ensures e in d.events <==> e in ev {
        assert e.Readable? || e.Writable? || e.Pridata?;
      }
    }
  }

  lemma {:induction false} ReadyMembers(r: set<nat>, w: set<nat>, x: set<nat>, lo: nat, hi: nat)
    ensures forall d :: d in ReadyFrom(r, w, x, lo, hi) ==> IsReady(r, w, x, lo, hi, d)
    decreases hi - lo
  {
    if lo < hi {
      ReadyMembers(r, w, x, lo + 1, hi);
      EventsExact(r, w, x, Delivery(lo, EventsOf(r, w, x, lo)));
    }
  }

  lemma FirstReady(r: set<nat>, w: set<nat>, x: set<nat>, lo: nat, hi: nat)
    ensures var ds := ReadyFrom(r, w, x, lo, hi); ds != [] ==> lo <= ds[0].fd
  {
    ReadyMembers(r, w, x, lo, hi);
    var ds := ReadyFrom(r, w, x, lo, hi);
    assert ds != [] ==> ds[0] in ds;
  }

  /** A snapshot is scanned in ascending order, reporting exactly the bits that are set... */
  lemma {:induction false} ReadyExact(r: set<nat>, w: set<nat>, x: set<nat>, lo: nat, hi: nat)
    ensures Ascending(ReadyFrom(r, w, x, lo, hi))
    ensures forall d :: d in ReadyFrom(r, w, x, lo, hi) ==> IsReady(r, w, x, lo, hi, d)
    decreases hi - lo
  {
    ReadyMembers(r, w, x, lo, hi);
    if lo < hi {
      ReadyExact(r, w, x, lo + 1, hi);
      var ds, rest := ReadyFrom(r, w, x, lo, hi), ReadyFrom(r, w, x, lo + 1, hi);
      forall i, j | 0 <= i < j < |ds| ensures ds[i].fd < ds[j].fd {
        assert ds == rest || ds[1..] == rest;
        assert ds != rest ==> ds[j] == rest[j - 1] && rest[j - 1] in rest;
        assert ds != rest && i > 0 ==> ds[i] == rest[i - 1];
      }
    }
  }

  /** ...and leaves none of them out. */
  lemma {:induction false} ReadyComplete(r: set<nat>, w: set<nat>, x: set<nat>, lo: nat, hi: nat, d: Delivery)
    requires IsReady(r, w, x, lo, hi, d)
    ensures d in ReadyFrom(r, w, x, lo, hi)
    decreases hi - lo
  {
    EventsExact(r, w, x, d);
    if d.fd != lo {
      ReadyComplete(r, w, x, lo + 1, hi, d);
    }
  }

  lemma {:induction false} NoBits(r: set<nat>, w: set<nat>, x: set<nat>, lo: nat, hi: nat)
    ensures Bits(r, w, x, lo, hi) == 0 <==> ReadyFrom(r, w, x, lo, hi) == []
    decreases hi - lo
  {
    if lo < hi {
      NoBits(r, w, x, lo + 1, hi);
      assert Readable in EventsOf(r, w, x, lo) <==> lo in r;
      assert Writable in EventsOf(r, w, x, lo) <==> lo in w;
      assert Pridata in EventsOf(r, w, x, lo) <==> lo in x;
    }
  }

  ghost predicate Within(s: set<nat>, lo: nat, hi: nat) {
    forall fd :: fd in s ==> lo <= fd < hi
  }

  /** What select(2) returns is the number of bits set in the sets it leaves. */
  lemma {:induction false} BitsCount(r: set<nat>, w: set<nat>, x: set<nat>, lo: nat, hi: nat)
    requires Within(r, lo, hi) && Within(w, lo, hi) && Within(x, lo, hi)
    ensures Bits(r, w, x, lo, hi) == |r| + |w| + |x|
    decreases hi - lo
  {
    if lo < hi {
      BitsCount(r - {lo}, w - {lo}, x - {lo}, lo + 1, hi);
      BitsShrink(r, w, x, lo, lo + 1, hi);
    } else {
      Nothing(r, lo, hi);
      Nothing(w, lo, hi);
      Nothing(x, lo, hi);
    }
  }

  lemma Nothing(s: set<nat>, lo: nat, hi: nat)
    requires Within(s, lo, hi) && lo >= hi
    ensures s == {}
  {
    if fd :| fd in s {
      assert lo <= fd < hi;
    }
  }

  lemma {:induction false} BitsShrink(r: set<nat>, w: set<nat>, x: set<nat>, fd: nat, lo: nat, hi: nat)
    requires fd < lo
    ensures Bits(r - {fd}, w - {fd}, x - {fd}, lo, hi) == Bits(r, w, x, lo, hi)
    decreases hi - lo
  {
    if lo < hi {
      BitsShrink(r, w, x, fd, lo + 1, hi);
    }
  }

  /** Changing one descriptor's interest changes the union of the sets at most there. */
  lemma Union(r: set<nat>, w: set<nat>, x: set<nat>, s: nat, ev: set<Event>)
    ensures var all := (if Readable in ev then r + {s} else r - {s}) + (if Writable in ev then w + {s} else w - {s})
                       + (if Pridata in ev then x + {s} else x - {s});
            all == if ev == {} then r + w + x - {s} else r + w + x + {s}
  {
    if e :| e in ev {
      assert e == Readable || e == Writable || e == Pridata;
    }
  }

  /** The largest member, or -1. */
  ghost predicate IsMax(m: int, s: set<nat>) {
    if s == {} then m == -1 else m >= 0 && m in s && forall fd :: fd in s ==> fd <= m
  }

  /** What select(2) did: it reports a subset of the requested bits, or fails. */
  datatype Reply = Selected(r: set<nat>, w: set<nat>, x: set<nat>) | Interrupted

  class Select {
    var reqRead: set<nat>
    var reqWrite: set<nat>
    var reqExcept: set<nat>
    var recvRead: set<nat>
    var recvWrite: set<nat>
    var recvExcept: set<nat>
    var maxFd: int
    var current: nat
    var nEvents: nat
    ghost var bound: nat   // one more than maxFd was when the snapshot was taken

    /** The maximum is exact, and the event count matches the rest of the snapshot. */
    ghost predicate Valid()
      reads this
    {
      && IsMax(maxFd, reqRead + reqWrite + reqExcept)
      && (nEvents != 0 ==> nEvents == Bits(recvRead, recvWrite, recvExcept, current, bound))
    }

    /** What is still to be delivered. */
    ghost function Ready(): seq<Delivery>
      reads this
    {
      if nEvents == 0 then [] else ReadyFrom(recvRead, recvWrite, recvExcept, current, bound)
    }

    constructor ()
      ensures Valid() && Ready() == [] && nEvents == 0
      ensures reqRead == {} && reqWrite == {} && reqExcept == {}
    {
      maxFd, current, nEvents, bound := -1, 0, 0, 0;
      reqRead, reqWrite, reqExcept := {}, {}, {};
      recvRead, recvWrite, recvExcept := {}, {}, {};
    }

    /** socket::request, for the socket with descriptor `s`; `asserted` says whether what
        the code asserts in its last branch holds. */
    method Request(s: nat, ev: set<Event>) returns (asserted: bool)
      requires Valid()
      modifies this`reqRead, this`reqWrite, this`reqExcept, this`maxFd
      ensures Valid() && Ready() == old(Ready())
      ensures reqRead == if Readable in ev then old(reqRead) + {s} else old(reqRead) - {s}
      ensures reqWrite == if Writable in ev then old(reqWrite) + {s} else old(reqWrite) - {s}
      ensures reqExcept == if Pridata in ev then old(reqExcept) + {s} else old(reqExcept) - {s}
      ensures asserted <==> ev != {} || s <= old(maxFd)
    {
      hide Bits, ReadyFrom;
      asserted := true;
      ghost var before := reqRead + reqWrite + reqExcept;
      if Readable in ev { reqRead := reqRead + {s}; } else { reqRead := reqRead - {s}; }
      if Writable in ev { reqWrite := reqWrite + {s}; } else { reqWrite := reqWrite - {s}; }
      if Pridata in ev { reqExcept := reqExcept + {s}; } else { reqExcept := reqExcept - {s}; }
      Union(old(reqRead), old(reqWrite), old(reqExcept), s, ev);
      if ev != {} {
        assert reqRead + reqWrite + reqExcept == before + {s};
        maxFd := if maxFd < s then s else maxFd;
      } else if s == maxFd {
        assert reqRead + reqWrite + reqExcept == before - {s};
        LowerMax();
      } else {
        assert reqRead + reqWrite + reqExcept == before - {s};
        asserted := s < maxFd;
      }
    }

    /** The scan for the new maximum once the old one has lost its last interest. */
    method LowerMax()
      requires maxFd >= -1
      requires forall fd :: fd in reqRead + reqWrite + reqExcept ==> fd <= maxFd
      modifies this`maxFd
      ensures IsMax(maxFd, reqRead + reqWrite + reqExcept)
    {
      while maxFd >= 0
        invariant -1 <= maxFd
        invariant forall fd :: fd in reqRead + reqWrite + reqExcept ==> fd <= maxFd
      {
        if maxFd in reqRead || maxFd in reqWrite || maxFd in reqExcept {
          break;
        } else {
          maxFd := maxFd - 1;
        }
      }
    }

    /** pop_event; `asserted` says whether what the code asserts about the cursor in every
        round holds. It fails once the descriptors that are ready lie above the maximum. */
    method PopEvent() returns (found: bool, sock: nat, ev: set<Event>, asserted: bool)
      requires Valid()
      modifies this`current, this`nEvents
      ensures Valid()
      ensures found <==> old(Ready()) != []
      ensures found ==> old(Ready()) == [Delivery(sock, ev)] + Ready()
      ensures found ==>
                && (Readable in ev <==> sock in recvRead)
                && (Writable in ev <==> sock in recvWrite)
                && (Pridata in ev <==> sock in recvExcept)
      ensures !found ==> nEvents == 0
      ensures asserted <==> old(Ready()) == [] || old(Ready())[0].fd <= maxFd
    {
      hide Bits, ReadyFrom, EventsOf;
      asserted := true;
      ghost var todo := Ready();
      FirstReady(recvRead, recvWrite, recvExcept, current, bound);
      NoBits(recvRead, recvWrite, recvExcept, current, bound);
      while nEvents != 0
        invariant Valid() && Ready() == todo
        invariant if todo == [] then asserted && nEvents == 0 else current <= todo[0].fd
        invariant asserted || current > maxFd
        decreases bound - current
      {
        asserted := asserted && current <= maxFd;
        sock, ev := Probe();
        if ev != {} {
          return true, sock, ev, asserted;
        }
        FirstReady(recvRead, recvWrite, recvExcept, current, bound);
      }
      return false, 0, {}, asserted;
    }

    /** One round of the loop in pop_event. */
    method Probe() returns (sock: nat, ev: set<Event>)
      requires Valid() && nEvents != 0
      modifies this`current, this`nEvents
      ensures Valid() && sock == old(current) < bound && current == sock + 1
      ensures Reports(recvRead, recvWrite, recvExcept, Delivery(sock, ev))
      ensures ev == {} ==> Ready() == old(Ready()) && nEvents == old(nEvents)
      ensures ev != {} ==> old(Ready()) == [Delivery(sock, ev)] + Ready()
    {
      sock := current;
      current := current + 1;
      ev := {};
      NoBits(recvRead, recvWrite, recvExcept, current, bound);
      if sock in recvRead { nEvents := nEvents - 1; ev := ev + {Readable}; }
      if sock in recvWrite { nEvents := nEvents - 1; ev := ev + {Writable}; }
      if sock in recvExcept { nEvents := nEvents - 1; ev := ev + {Pridata}; }
      assert ev == EventsOf(recvRead, recvWrite, recvExcept, sock);
    }

    /** wait, given what the system answered. */
    method Wait(reply: Reply)
      requires Valid() && nEvents == 0
      requires reply.Selected? ==> reply.r <= reqRead && reply.w <= reqWrite && reply.x <= reqExcept
      modifies this`recvRead, this`recvWrite, this`recvExcept, this`current, this`nEvents, this`bound
      ensures Valid()
      ensures maxFd != -1 && reply.Selected? ==>
                recvRead == reply.r && recvWrite == reply.w && recvExcept == reply.x
      ensures maxFd != -1 && reply.Selected? ==>
                Ready() == ReadyFrom(reply.r, reply.w, reply.x, 0, (maxFd + 1) as nat)
      ensures maxFd == -1 || reply.Interrupted? ==> Ready() == []
    {
      if maxFd == -1 {
        return;
      }
      recvRead, recvWrite, recvExcept := reqRead, reqWrite, reqExcept;
      if reply.Interrupted? {
        return;
      }
      recvRead, recvWrite, recvExcept := reply.r, reply.w, reply.x;
      nEvents := |recvRead| + |recvWrite| + |recvExcept|;
      current := 0;
      bound := (maxFd + 1) as nat;
      assert forall fd :: fd in reqRead + reqWrite + reqExcept ==> fd < bound;
      BitsCount(recvRead, recvWrite, recvExcept, 0, bound);
      NoBits(recvRead, recvWrite, recvExcept, 0, bound);
    }
  }
}
