/** The two-cursor walk over requested and registered descriptors in adns::run, as facts
    about sequences: how far it has come, and what each of its steps keeps. */
module Merge {
  import opened Multimap
  import opened Sockets
  import opened AdnsLibrary

  function Elements(s: seq<nat>): set<nat> {
    set i | 0 <= i < |s| :: s[i]
  }

  ghost predicate StrictlyAscending(s: seq<nat>) {
    forall i, j :: 0 <= i < j < |s| ==> s[i] < s[j]
  }

  ghost predicate Requests(req: seq<Pollfd>) {
    && (forall i :: 0 <= i < |req| ==> req[i].key >= 0)
    && (forall i, j :: 0 <= i < j < |req| ==> req[i].key < req[j].key)
  }

  function Fds(req: seq<Pollfd>, n: nat): set<nat>
    requires n <= |req| && forall i :: 0 <= i < |req| ==> req[i].key >= 0
  {
    set i | 0 <= i < n :: req[i].key as nat
  }

  function Wanted(p: Pollfd): Registration
    requires p.key >= 0
  {
    Registration(ProcessFd(p.key), p.value)
  }

  /** The sockets are exactly those requested, with the interest requested. */
  ghost predicate Matches(t: Table, ws: seq<Pollfd>) {
    && (forall p :: p in ws ==> p.key >= 0 && p.key in t && t[p.key] == Registration(ProcessFd(p.key), p.value))
    && (forall fd :: fd in t ==> exists p :: p in ws && p.key == fd)
  }

  /** An operation that the way from `before` to the requests calls for. */
  ghost predicate Justified(op: Op, before: set<nat>, ws: seq<Pollfd>) {
    match op
    case Create(fd, handler, ev) => fd !in before && handler == ProcessFd(fd) && Pair(fd, ev) in ws
    case Request(fd, ev) => fd in before && Pair(fd, ev) in ws
    case Destroy(fd) => fd in before && forall p :: p in ws ==> p.key != fd
    case Modify(_, _) => false
    case ModifyBoth(_, _, _) => false
  }

  /** What a request calls for. */
  function OpFor(p: Pollfd, before: set<nat>): Op
    requires p.key >= 0
  {
    if p.key in before then Op.Request(p.key, p.value) else Op.Create(p.key, ProcessFd(p.key), p.value)
  }

  /** The operations that lead from the descriptors `before` to the requests: what is new is
      created, what is common gets its new interest, what is no longer required is destroyed;
      each descriptor is touched once, in ascending order, and no other is. */
  ghost predicate Minimal(ops: seq<Op>, before: set<nat>, ws: seq<Pollfd>) {
    && (forall j, k :: 0 <= j < k < |ops| ==> ops[j].fd < ops[k].fd)
    && (forall j :: 0 <= j < |ops| ==> Justified(ops[j], before, ws))
    && (forall p :: p in ws ==> p.key >= 0 && OpFor(p, before) in ops)
    && (forall fd :: fd in before ==> (exists p :: p in ws && p.key == fd) || Op.Destroy(fd) in ops)
  }

  /** `i` requests and `g` of the sockets registered at first have been dealt with, by the
      operations `ops`; now `reg` is registered, with the table `t`. */
  ghost predicate Progress(req: seq<Pollfd>, i: nat, old0: seq<nat>, g: nat, reg: seq<nat>, t: Table, ops: seq<Op>)
    requires Requests(req)
  {
    Place(req, i, old0, g, reg, t) && OpsSoFar(req, i, old0, g, ops)
  }

  ghost predicate Place(req: seq<Pollfd>, i: nat, old0: seq<nat>, g: nat, reg: seq<nat>, t: Table)
    requires Requests(req)
  {
    && i <= |req| && g <= |old0| && |reg| == i + |old0| - g
    && (forall k :: 0 <= k < i ==> reg[k] == req[k].key && reg[k] in t && t[reg[k]] == Wanted(req[k]))
    && (forall k :: i <= k < |reg| ==> reg[k] == old0[g + k - i])
    && (i > 0 && g < |old0| ==> req[i - 1].key < old0[g])
    && (i < |req| && g > 0 ==> old0[g - 1] < req[i].key)
  }

  ghost predicate OpsSoFar(req: seq<Pollfd>, i: nat, old0: seq<nat>, g: nat, ops: seq<Op>)
    requires Requests(req) && i <= |req| && g <= |old0|
  {
    && (forall j, k :: 0 <= j < k < |ops| ==> ops[j].fd < ops[k].fd)
    && (forall j :: 0 <= j < |ops| ==> Justified(ops[j], Elements(old0), req))
    && (forall j :: 0 <= j < |ops| && i < |req| ==> ops[j].fd < req[i].key)
    && (forall j :: 0 <= j < |ops| && g < |old0| ==> ops[j].fd < old0[g])
    && (forall k :: 0 <= k < i ==> OpFor(req[k], Elements(old0)) in ops)
    && (forall k :: 0 <= k < g ==> old0[k] in Fds(req, |req|) || Op.Destroy(old0[k]) in ops)
  }

  /** One more operation, on a descriptor beyond all those touched so far. */
  lemma OpsSnoc(req: seq<Pollfd>, i: nat, old0: seq<nat>, g: nat, ops: seq<Op>, op: Op, i': nat, g': nat)
    requires Requests(req) && StrictlyAscending(old0) && i <= i' <= |req| && g <= g' <= |old0|
    requires OpsSoFar(req, i, old0, g, ops) && Justified(op, Elements(old0), req)
    requires forall j :: 0 <= j < |ops| ==> ops[j].fd < op.fd
    requires i' < |req| ==> op.fd < req[i'].key
    requires g' < |old0| ==> op.fd < old0[g']
    requires forall k :: i <= k < i' ==> op == OpFor(req[k], Elements(old0))
    requires forall k :: g <= k < g' ==> old0[k] in Fds(req, |req|) || op == Op.Destroy(old0[k])
    ensures OpsSoFar(req, i', old0, g', ops + [op])
  {
    var n, ops' := |ops|, ops + [op];
    assert ops'[n] == op;
    assert forall j :: 0 <= j < n ==> ops'[j] == ops[j];
  }

  lemma PlaceCreate(req: seq<Pollfd>, i: nat, old0: seq<nat>, g: nat, reg: seq<nat>, t: Table)
    requires Requests(req) && StrictlyAscending(old0) && Place(req, i, old0, g, reg, t)
    requires i < |req| && (g < |old0| ==> req[i].key < old0[g])
    ensures (i > 0 ==> reg[i - 1] < req[i].key) && (i < |reg| ==> req[i].key < reg[i])
    ensures req[i].key as nat !in Elements(old0)
    ensures var fd: nat := req[i].key;
            Place(req, i + 1, old0, g, reg[..i] + [fd] + reg[i..], t[fd := Wanted(req[i])])
  {
    var fd: nat := req[i].key;
    var reg' := reg[..i] + [fd] + reg[i..];
    assert forall k :: 0 <= k < i ==> reg'[k] == reg[k];
    assert forall k :: i < k < |reg'| ==> reg'[k] == reg[k - 1];
  }

  /** A request that is not registered: the next one registered, if any, is larger. */
  lemma StepCreate(req: seq<Pollfd>, i: nat, old0: seq<nat>, g: nat, reg: seq<nat>, t: Table, ops: seq<Op>)
    requires Requests(req) && StrictlyAscending(old0) && Progress(req, i, old0, g, reg, t, ops)
    requires i < |req| && (g < |old0| ==> req[i].key < old0[g])
    ensures i <= |reg| && (i > 0 ==> reg[i - 1] < req[i].key) && (i < |reg| ==> req[i].key < reg[i])
    ensures var fd: nat := req[i].key;
            Progress(req, i + 1, old0, g, reg[..i] + [fd] + reg[i..], t[fd := Wanted(req[i])],
                     ops + [Op.Create(fd, ProcessFd(fd), req[i].value)])
  {
    PlaceCreate(req, i, old0, g, reg, t);
    OpsSnoc(req, i, old0, g, ops, Op.Create(req[i].key, ProcessFd(req[i].key), req[i].value), i + 1, g);
    hide Place;
  }

  /** A request that is registered already. */
  lemma StepRemask(req: seq<Pollfd>, i: nat, old0: seq<nat>, g: nat, reg: seq<nat>, t: Table, ops: seq<Op>)
    requires Requests(req) && StrictlyAscending(old0) && Progress(req, i, old0, g, reg, t, ops)
    requires i < |req| && g < |old0| && req[i].key == old0[g]
    ensures i < |reg| && reg[i] == old0[g]
    ensures Progress(req, i + 1, old0, g + 1, reg, t[old0[g] := Wanted(req[i])],
                     ops + [Op.Request(old0[g], req[i].value)])
  {
    hide Place, OpsSoFar, OpFor, Justified;
    PlaceRemask(req, i, old0, g, reg, t);
    CommonOp(req, i, old0, g);
    Frontier(req, i, old0, g, ops);
    OpsSnoc(req, i, old0, g, ops, Op.Request(old0[g], req[i].value), i + 1, g + 1);
  }

  lemma CommonOp(req: seq<Pollfd>, i: nat, old0: seq<nat>, g: nat)
    requires Requests(req) && StrictlyAscending(old0) && i < |req| && g < |old0| && req[i].key == old0[g]
    ensures var op := Op.Request(old0[g], req[i].value);
            Justified(op, Elements(old0), req) && op == OpFor(req[i], Elements(old0)) && old0[g] in Fds(req, |req|)
  {
    assert old0[g] in Elements(old0);
    assert req[i] == Pair(old0[g] as int, req[i].value);
  }

  lemma Frontier(req: seq<Pollfd>, i: nat, old0: seq<nat>, g: nat, ops: seq<Op>)
    requires Requests(req) && i < |req| && g < |old0| && OpsSoFar(req, i, old0, g, ops)
    ensures forall j :: 0 <= j < |ops| ==> ops[j].fd < req[i].key && ops[j].fd < old0[g]
  {
  }

  lemma PlaceRemask(req: seq<Pollfd>, i: nat, old0: seq<nat>, g: nat, reg: seq<nat>, t: Table)
    requires Requests(req) && StrictlyAscending(old0) && Place(req, i, old0, g, reg, t)
    requires i < |req| && g < |old0| && req[i].key == old0[g]
    ensures i < |reg| && reg[i] == old0[g]
    ensures Place(req, i + 1, old0, g + 1, reg, t[old0[g] := Wanted(req[i])])
  {
  }

  lemma PlaceDestroy(req: seq<Pollfd>, i: nat, old0: seq<nat>, g: nat, reg: seq<nat>, t: Table)
    requires Requests(req) && StrictlyAscending(old0) && Place(req, i, old0, g, reg, t)
    requires g < |old0| && (i < |req| ==> req[i].key > old0[g])
    ensures i < |reg| && reg[i] == old0[g] && forall p :: p in req ==> p.key != old0[g]
    ensures Place(req, i, old0, g + 1, reg[..i] + reg[i + 1..], t - {old0[g]})
  {
    var reg' := reg[..i] + reg[i + 1..];
    assert forall k :: 0 <= k < i ==> reg'[k] == reg[k];
    assert forall k :: i <= k < |reg'| ==> reg'[k] == reg[k + 1];
    assert forall k :: 0 <= k < |req| ==> req[k].key != old0[g];
  }

  /** A registered socket that is not requested: the next request, if any, is larger. */
  lemma StepDestroy(req: seq<Pollfd>, i: nat, old0: seq<nat>, g: nat, reg: seq<nat>, t: Table, ops: seq<Op>)
    requires Requests(req) && StrictlyAscending(old0) && Progress(req, i, old0, g, reg, t, ops)
    requires g < |old0| && (i < |req| ==> req[i].key > old0[g])
    ensures i < |reg| && reg[i] == old0[g]
    ensures Progress(req, i, old0, g + 1, reg[..i] + reg[i + 1..], t - {old0[g]}, ops + [Op.Destroy(old0[g])])
  {
    PlaceDestroy(req, i, old0, g, reg, t);
    assert old0[g] in Elements(old0);
    OpsSnoc(req, i, old0, g, ops, Op.Destroy(old0[g]), i, g + 1);
    hide Place;
  }

  /** Where the cursors stand. */
  lemma AtCursor(req: seq<Pollfd>, i: nat, old0: seq<nat>, g: nat, reg: seq<nat>, t: Table, ops: seq<Op>)
    requires Requests(req) && Progress(req, i, old0, g, reg, t, ops)
    ensures i <= |req| && i <= |reg| && g <= |old0| && (i < |reg| <==> g < |old0|)
    ensures i < |reg| ==> reg[i] == old0[g]
  {
  }

  lemma WalkStart(req: seq<Pollfd>, old0: seq<nat>, t: Table)
    requires Requests(req)
    ensures Progress(req, 0, old0, 0, old0, t, [])
  {
  }

  lemma WalkDone(req: seq<Pollfd>, old0: seq<nat>, reg: seq<nat>, t: Table, ops: seq<Op>)
    requires Requests(req) && Progress(req, |req|, old0, |old0|, reg, t, ops) && t.Keys == Elements(reg)
    ensures Matches(t, req) && Minimal(ops, Elements(old0), req)
  {
    forall fd | fd in t ensures exists p :: p in req && p.key == fd {
      var k :| 0 <= k < |reg| && reg[k] == fd;
      assert req[k] in req;
    }
    forall p | p in req ensures p.key >= 0 && p.key in t && t[p.key] == Wanted(p) && OpFor(p, Elements(old0)) in ops {
      var k :| 0 <= k < |req| && req[k] == p;
      assert reg[k] == p.key;
    }
    forall fd | fd in Elements(old0) ensures (exists p :: p in req && p.key == fd) || Op.Destroy(fd) in ops {
      var k: nat :| k < |old0| && old0[k] == fd;
      if fd in Fds(req, |req|) {
        var i: nat :| i < |req| && req[i].key == fd;
        assert req[i] in req;
      }
    }
  }

  lemma TailSnoc(trace: seq<Op>, n: nat, op: Op)
    requires n <= |trace|
    ensures (trace + [op])[n..] == trace[n..] + [op]
  {
  }

  /** Order does not matter to what is asked for. */
  lemma SameRequests(ops: seq<Op>, before: set<nat>, t: Table, a: seq<Pollfd>, b: seq<Pollfd>)
    requires (forall p :: p in a <==> p in b) && Matches(t, a) && Minimal(ops, before, a)
    ensures Matches(t, b) && Minimal(ops, before, b)
  {
    forall j | 0 <= j < |ops| ensures Justified(ops[j], before, b) {
      assert Justified(ops[j], before, a);
    }
  }
}
