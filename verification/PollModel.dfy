/** include/ioxx/detail/poll.hpp: the demultiplexer over poll(2). */
module PollModel {
  import opened Sockets

  /** The bits of pollfd.revents. */
  datatype Flag = In | Out | Pri | RdNorm | RdBand | WrNorm | WrBand | Err | Hup | Nval

  datatype Pfd = Pfd(fd: nat, events: set<Event>, revents: set<Flag>)

  /** The event set pop_event makes of the reported bits. */
  function Mapped(revents: set<Flag>): set<Event> {
    (if In in revents || RdNorm in revents then {Readable} else {})
    + (if Out in revents || WrNorm in revents then {Writable} else {})
    + (if Pri in revents || RdBand in revents then {Pridata} else {})
  }

  /** Which bits stand for which event, in any report. */
  lemma MappedExact(revents: set<Flag>)
    ensures Readable in Mapped(revents) <==> In in revents || RdNorm in revents
    ensures Writable in Mapped(revents) <==> Out in revents || WrNorm in revents
    ensures Pridata in Mapped(revents) <==> Pri in revents || RdBand in revents
  {
  }

  /** Nothing is left of exactly those reports that carry error bits or WrBand only. */
  lemma MappedEmpty(revents: set<Flag>)
    ensures Mapped(revents) == {} <==> revents <= {WrBand, Err, Hup, Nval}
  {
    if Mapped(revents) == {} {
      assert Readable !in Mapped(revents) && Writable !in Mapped(revents) && Pridata !in Mapped(revents);
      forall f | f in revents ensures f in {WrBand, Err, Hup, Nval} {
        assert f.In? || f.Out? || f.Pri? || f.RdNorm? || f.RdBand? || f.WrNorm? || f.WrBand? || f.Err? || f.Hup? || f.Nval?;
      }
    }
  }

  /** The bit that asks for an event. */
  function FlagOf(e: Event): Flag {
    match e
    case Readable => In
    case Writable => Out
    case Pridata => Pri
  }

  /** If the system reports only what was asked for, and errors, the delivered events are
      exactly those that were asked for and reported: all within the interest. */
  lemma MappedWithinInterest(interest: set<Event>, revents: set<Flag>)
    requires revents <= (set e | e in interest :: FlagOf(e)) + {Err, Hup, Nval}
    ensures Mapped(revents) <= interest
    ensures forall e :: e in Mapped(revents) <==> FlagOf(e) in revents
  {
    forall e ensures e in Mapped(revents) <==> FlagOf(e) in revents {
      assert RdNorm !in revents && RdBand !in revents && WrNorm !in revents;
    }
    forall e | e in Mapped(revents) ensures e in interest {
      var e' :| e' in interest && FlagOf(e') == FlagOf(e);
    }
  }

  datatype State = State(
    pfd: seq<Pfd>,
    indices: map<nat, nat>,
    nEvents: nat,
    current: nat,
    // history since the last wait
    ready0: set<Delivery>,      // what the system reported ready
    delivered: seq<Delivery>,   // what pop_event has returned
    safe: bool,                 // every removal kept the balance
    fault: bool)                // pop_event has run off the array

  const INITIAL := State([], map[], 0, 0, {}, [], true, false)

  // The index

  /** `indices` and `pfd` are inverse to each other. */
  ghost predicate Agree(st: State) {
    && (forall fd :: fd in st.indices ==> st.indices[fd] < |st.pfd| && st.pfd[st.indices[fd]].fd == fd)
    && (forall i :: 0 <= i < |st.pfd| ==> st.pfd[i].fd in st.indices && st.indices[st.pfd[i].fd] == i)
  }

  /** What the two containers stand for. */
  function Interest(st: State): map<nat, set<Event>>
    requires Agree(st)
  {
    map fd | fd in st.indices :: st.pfd[st.indices[fd]].events
  }

  lemma InterestKeys(st: State)
    requires Agree(st)
    ensures Interest(st).Keys == st.indices.Keys
  {
  }

  /** socket constructor, when push_back succeeds. */
  function Add(st: State, fd: nat, ev: set<Event>): State {
    st.(pfd := st.pfd + [Pfd(fd, ev, {})], indices := st.indices[fd := |st.pfd|])
  }

  function SetEvents(st: State, fd: nat, ev: set<Event>): State
    requires Agree(st) && fd in st.indices
  {
    var i := st.indices[fd];
    st.(pfd := st.pfd[i := st.pfd[i].(events := ev)])
  }

  /** socket destructor: the last entry takes the place of the one that goes. */
  function Remove(st: State, fd: nat): State
    requires Agree(st) && fd in st.indices
  {
    var i, last := st.indices[fd], |st.pfd| - 1;
    st.(pfd := st.pfd[i := st.pfd[last]][..last],
        indices := st.indices[st.pfd[last].fd := i] - {fd},
        safe := st.safe && KeepsBalance(st, fd))
  }

  lemma AddRefines(st: State, fd: nat, ev: set<Event>)
    requires Agree(st) && fd !in st.indices
    ensures Agree(Add(st, fd, ev)) && Interest(Add(st, fd, ev)) == Interest(st)[fd := ev]
  {
    assert forall i :: 0 <= i < |st.pfd| ==> st.pfd[i].fd != fd;
  }

  lemma SetEventsRefines(st: State, fd: nat, ev: set<Event>)
    requires Agree(st) && fd in st.indices
    ensures Agree(SetEvents(st, fd, ev)) && Interest(SetEvents(st, fd, ev)) == Interest(st)[fd := ev]
  {
  }

  lemma RemoveRefines(st: State, fd: nat)
    requires Agree(st) && fd in st.indices
    ensures Agree(Remove(st, fd)) && Interest(Remove(st, fd)) == Interest(st) - {fd}
  {
    var i, last := st.indices[fd], |st.pfd| - 1;
    var st' := Remove(st, fd);
    forall k | 0 <= k < last
      ensures st'.pfd[k] == (if k == i then st.pfd[last] else st.pfd[k])
      ensures st'.pfd[k].fd in st'.indices && st'.indices[st'.pfd[k].fd] == k
    {
    }
    forall g | g in st'.indices
      ensures g in st.indices && g != fd && st'.indices[g] < last
      ensures st'.pfd[st'.indices[g]] == st.pfd[st.indices[g]]
    {
    }
  }

  // The drain

  predicate Idle(p: Pfd) { p.revents == {} }

  function Due(p: Pfd): Delivery { Delivery(p.fd, Mapped(p.revents)) }

  /** What `pfd[from..]` has to report, in order. */
  function ReadyFrom(pfd: seq<Pfd>, from: nat): seq<Delivery>
    decreases |pfd| - from
  {
    if from >= |pfd| then []
    else if Idle(pfd[from]) then ReadyFrom(pfd, from + 1)
    else [Due(pfd[from])] + ReadyFrom(pfd, from + 1)
  }

  /** As many events left as ready entries at or past the cursor. */
  predicate Balanced(st: State) {
    st.nEvents == |ReadyFrom(st.pfd, st.current)|
  }

  /** The removals that do not upset the drain: an entry still to be visited must be idle,
      and so must an entry that is moved from there in front of the cursor. */
  predicate KeepsBalance(st: State, fd: nat)
    requires Agree(st) && fd in st.indices
  {
    var i, last := st.indices[fd], |st.pfd| - 1;
    && (st.current <= i ==> Idle(st.pfd[i]))
    && (i < st.current <= last ==> Idle(st.pfd[last]))
  }

  lemma {:induction false} ReadyAppend(pfd: seq<Pfd>, p: Pfd, from: nat)
    ensures ReadyFrom(pfd + [p], from) ==
            ReadyFrom(pfd, from) + (if Idle(p) || from > |pfd| then [] else [Due(p)])
    decreases |pfd| - from
  {
    if from < |pfd| {
      ReadyAppend(pfd, p, from + 1);
      assert (pfd + [p])[from] == pfd[from];
      var h := if Idle(pfd[from]) then [] else [Due(pfd[from])];
      var t := if Idle(p) then [] else [Due(p)];
      assert h + (ReadyFrom(pfd, from + 1) + t) == (h + ReadyFrom(pfd, from + 1)) + t;
    }
  }

  /** Replacing one entry exchanges at most its own contribution. */
  lemma {:induction false} ReadyReplace(pfd: seq<Pfd>, i: nat, p: Pfd, from: nat)
    requires i < |pfd|
    ensures |ReadyFrom(pfd[i := p], from)| ==
            |ReadyFrom(pfd, from)| - (if from <= i && !Idle(pfd[i]) then 1 else 0) + (if from <= i && !Idle(p) then 1 else 0)
    ensures Idle(p) == Idle(pfd[i]) && Due(p) == Due(pfd[i]) ==> ReadyFrom(pfd[i := p], from) == ReadyFrom(pfd, from)
    decreases |pfd| - from
  {
    if from < |pfd| {
      ReadyReplace(pfd, i, p, from + 1);
    }
  }

  lemma RemoveCount(st: State, fd: nat)
    requires Agree(st) && fd in st.indices
    ensures var i, last := st.indices[fd], |st.pfd| - 1;
            |ReadyFrom(Remove(st, fd).pfd, st.current)| == |ReadyFrom(st.pfd, st.current)|
              - (if st.current <= i && !Idle(st.pfd[i]) then 1 else 0)
              - (if i < st.current <= last && !Idle(st.pfd[last]) then 1 else 0)
  {
    var i, last := st.indices[fd], |st.pfd| - 1;
    var moved := st.pfd[i := st.pfd[last]];
    ReadyReplace(st.pfd, i, st.pfd[last], st.current);
    ReadyAppend(moved[..last], moved[last], st.current);
    assert moved == moved[..last] + [moved[last]];
  }

  /** Exactly these removals keep a balanced drain balanced. */
  lemma RemovalBalance(st: State, fd: nat)
    requires Agree(st) && fd in st.indices && Balanced(st)
    ensures Balanced(Remove(st, fd)) <==> KeepsBalance(st, fd)
  {
    RemoveCount(st, fd);
  }

  /** The deliveries still to be made. */
  function ReadySet(st: State): set<Delivery> {
    set i | st.current <= i < |st.pfd| && !Idle(st.pfd[i]) :: Due(st.pfd[i])
  }

  function NextReady(pfd: seq<Pfd>, from: nat): (i: nat)
    ensures from <= i
    ensures forall j :: from <= j < i && j < |pfd| ==> Idle(pfd[j])
    ensures i < |pfd| ==> !Idle(pfd[i])
    ensures from <= |pfd| ==> i <= |pfd|
    decreases |pfd| - from
  {
    if from >= |pfd| || !Idle(pfd[from]) then from else NextReady(pfd, from + 1)
  }

  datatype Outcome = Event(delivery: Delivery) | Empty | PastEnd

  function PopOutcome(st: State): Outcome {
    var i := NextReady(st.pfd, st.current);
    if st.nEvents == 0 then Empty
    else if i < |st.pfd| then Event(Due(st.pfd[i]))
    else PastEnd
  }

  function Pop(st: State): State {
    var i := NextReady(st.pfd, st.current);
    match PopOutcome(st)
    case Empty => st
    case PastEnd => st.(current := i, fault := true)
    case Event(d) => st.(current := i + 1, nEvents := st.nEvents - 1, delivered := st.delivered + [d])
  }

  lemma {:induction false} SkipIdle(pfd: seq<Pfd>, from: nat)
    ensures var i := NextReady(pfd, from);
            ReadyFrom(pfd, from) == if i < |pfd| then [Due(pfd[i])] + ReadyFrom(pfd, i + 1) else []
    decreases |pfd| - from
  {
    hide Due;
    if from < |pfd| && Idle(pfd[from]) {
      SkipIdle(pfd, from + 1);
    }
  }

  // Whole runs

  ghost predicate Distinct(s: seq<Delivery>) {
    forall i, j :: 0 <= i < j < |s| ==> s[i].fd != s[j].fd
  }

  function Members(s: seq<Delivery>): set<Delivery> {
    set i | 0 <= i < |s| :: s[i]
  }

  /** Whatever is delivered, or would be if the cursor came across it, was reported. */
  ghost predicate Genuine(st: State) {
    && (forall i :: 0 <= i < |st.pfd| && !Idle(st.pfd[i]) ==> Due(st.pfd[i]) in st.ready0)
    && (forall i :: 0 <= i < |st.delivered| ==> st.delivered[i] in st.ready0)
  }

  /** The containers agree whatever happens; there are never fewer events than ready
      entries, and as many exactly as long as every removal was safe. Then nothing has gone
      wrong, and every descriptor reported ready was either delivered, once, or is still to
      be. */
  ghost predicate Inv(st: State) {
    && Agree(st) && Genuine(st)
    && st.nEvents >= |ReadyFrom(st.pfd, st.current)|
    && (st.safe <==> Balanced(st))
    && (st.safe ==>
          && !st.fault
          && Distinct(st.delivered)
          && Members(st.delivered) !! ReadySet(st)
          && (forall d, e :: d in st.ready0 && e in st.ready0 && d.fd == e.fd ==> d == e)
          && Members(st.delivered) + ReadySet(st) == st.ready0)
  }

  lemma AddKeeps(st: State, fd: nat, ev: set<Event>)
    requires Inv(st) && fd !in st.indices
    ensures Inv(Add(st, fd, ev))
  {
    AddRefines(st, fd, ev);
    ReadyAppend(st.pfd, Pfd(fd, ev, {}), st.current);
    var st' := Add(st, fd, ev);
    forall x | x in ReadySet(st) ensures x in ReadySet(st') {
      var i :| st.current <= i < |st.pfd| && !Idle(st.pfd[i]) && Due(st.pfd[i]) == x;
      assert st'.pfd[i] == st.pfd[i];
    }
    assert ReadySet(st') == ReadySet(st);
  }

  lemma SetEventsKeeps(st: State, fd: nat, ev: set<Event>)
    requires Inv(st) && fd in st.indices
    ensures Inv(SetEvents(st, fd, ev))
  {
    SetEventsRefines(st, fd, ev);
    var i := st.indices[fd];
    ReadyReplace(st.pfd, i, st.pfd[i].(events := ev), st.current);
    var st' := SetEvents(st, fd, ev);
    forall x | x in ReadySet(st) ensures x in ReadySet(st') {
      var k :| st.current <= k < |st.pfd| && !Idle(st.pfd[k]) && Due(st.pfd[k]) == x;
      assert Due(st'.pfd[k]) == x && !Idle(st'.pfd[k]);
    }
    assert ReadySet(st') == ReadySet(st);
  }

  lemma RemoveReadySet(st: State, fd: nat)
    requires Agree(st) && fd in st.indices && KeepsBalance(st, fd)
    ensures ReadySet(Remove(st, fd)) == ReadySet(st)
  {
    var i, last := st.indices[fd], |st.pfd| - 1;
    var st' := Remove(st, fd);
    forall x | x in ReadySet(st) ensures x in ReadySet(st') {
      var k :| st.current <= k < |st.pfd| && !Idle(st.pfd[k]) && Due(st.pfd[k]) == x;
      assert st'.pfd[if k == last then i else k] == st.pfd[k];
    }
  }

  lemma RemoveKeeps(st: State, fd: nat)
    requires Inv(st) && fd in st.indices
    ensures Inv(Remove(st, fd))
  {
    RemoveRefines(st, fd);
    RemoveCount(st, fd);
    if Remove(st, fd).safe {
      RemoveReadySet(st, fd);
    }
  }

  lemma PopReadySet(st: State)
    requires Agree(st) && PopOutcome(st).Event?
    ensures ReadySet(st) == ReadySet(Pop(st)) + {PopOutcome(st).delivery}
    ensures PopOutcome(st).delivery !in ReadySet(Pop(st))
  {
    var i := NextReady(st.pfd, st.current);
    assert Pop(st).pfd == st.pfd;
  }

  lemma DeliveredOnce(ds: seq<Delivery>, d: Delivery)
    requires Distinct(ds) && forall e :: e in Members(ds) ==> e.fd != d.fd
    ensures Distinct(ds + [d]) && Members(ds + [d]) == Members(ds) + {d}
  {
    var n, ds' := |ds|, ds + [d];
    assert ds'[n] == d;
    assert forall k :: 0 <= k < n ==> ds'[k] == ds[k] && ds[k] in Members(ds);
  }

  lemma PopKeeps(st: State)
    requires Inv(st)
    ensures Inv(Pop(st))
    ensures st.safe ==> !PopOutcome(st).PastEnd?
  {
    SkipIdle(st.pfd, st.current);
    var st' := Pop(st);
    match PopOutcome(st)
    case Empty =>
    case PastEnd =>
      assert ReadyFrom(st.pfd, st'.current) == [];
    case Event(d) =>
      PopReadySet(st);
      if st.safe {
        assert d in ReadySet(st) && d in st.ready0;
        forall e | e in Members(st.delivered) ensures e.fd != d.fd {
          assert e in st.ready0 && e != d;
        }
        DeliveredOnce(st.delivered, d);
      }
      hide ReadySet, Members, Distinct;
  }

  /** The array as poll(2) leaves it. */
  function Report(pfd: seq<Pfd>, revents: seq<set<Flag>>): seq<Pfd>
    requires |revents| == |pfd|
  {
    seq(|pfd|, i requires 0 <= i < |pfd| => pfd[i].(revents := revents[i]))
  }

  /** What it has to say: the events of each descriptor with nonzero revents. */
  function Reports(pfd: seq<Pfd>, revents: seq<set<Flag>>): set<Delivery>
    requires |revents| == |pfd|
  {
    set i | 0 <= i < |pfd| && revents[i] != {} :: Delivery(pfd[i].fd, Mapped(revents[i]))
  }

  /** What poll(2) returns: the number of entries with nonzero revents. */
  function Nonzero(revents: seq<set<Flag>>, from: nat): nat
    decreases |revents| - from
  {
    if from >= |revents| then 0 else (if revents[from] == {} then 0 else 1) + Nonzero(revents, from + 1)
  }

  /** wait, after an answer from the system. */
  function Reported(st: State, revents: seq<set<Flag>>): State
    requires |revents| == |st.pfd|
  {
    var st' := st.(pfd := Report(st.pfd, revents), nEvents := Nonzero(revents, 0), current := 0,
                   delivered := [], safe := true, fault := false);
    st'.(ready0 := ReadySet(st'))
  }

  lemma {:induction false} NonzeroIsReady(pfd: seq<Pfd>, revents: seq<set<Flag>>, from: nat)
    requires |revents| == |pfd|
    ensures |ReadyFrom(Report(pfd, revents), from)| == Nonzero(revents, from)
    decreases |pfd| - from
  {
    if from < |pfd| {
      NonzeroIsReady(pfd, revents, from + 1);
    }
  }

  lemma ReportedKeeps(st: State, revents: seq<set<Flag>>)
    requires Agree(st) && |revents| == |st.pfd|
    ensures Inv(Reported(st, revents))
    ensures Reported(st, revents).ready0 == Reports(st.pfd, revents)
    ensures Interest(Reported(st, revents)) == Interest(st)
  {
    NonzeroIsReady(st.pfd, revents, 0);
    var st' := Reported(st, revents);
    assert forall i :: 0 <= i < |st.pfd| ==> st'.pfd[i] == st.pfd[i].(revents := revents[i]);
  }

  /** What can happen between two calls of wait. */
  datatype Step =
    | Construct(fd: nat, events: set<Event>)
    | Demand(fd: nat, events: set<Event>)
    | Destruct(fd: nat)
    | PopEvent

  function Next(st: State, step: Step): State
    requires Agree(st)
  {
    match step
    case Construct(fd, ev) => if fd in st.indices then st else Add(st, fd, ev)
    case Demand(fd, ev) => if fd in st.indices then SetEvents(st, fd, ev) else st
    case Destruct(fd) => if fd in st.indices then Remove(st, fd) else st
    case PopEvent => Pop(st)
  }

  lemma NextKeeps(st: State, step: Step)
    requires Inv(st)
    ensures Inv(Next(st, step))
  {
    match step
    case Construct(fd, ev) => if fd !in st.indices { AddKeeps(st, fd, ev); }
    case Demand(fd, ev) => if fd in st.indices { SetEventsKeeps(st, fd, ev); }
    case Destruct(fd) => if fd in st.indices { RemoveKeeps(st, fd); }
    case PopEvent => PopKeeps(st);
  }

  function Steps(st: State, steps: seq<Step>): State
    requires Inv(st)
    decreases |steps|
  {
    if steps == [] then st
    else
      NextKeeps(st, steps[0]);
      Steps(Next(st, steps[0]), steps[1..])
  }

  /** One wait for events, and any mix of pops and socket operations after it. */
  lemma {:induction false} DrainRun(st: State, steps: seq<Step>)
    requires Inv(st)
    ensures Inv(Steps(st, steps))
    decreases |steps|
  {
    if steps != [] {
      NextKeeps(st, steps[0]);
      DrainRun(Next(st, steps[0]), steps[1..]);
    }
  }

  /** The plain interest map the demultiplexer stands for, under the same operations. */
  function MapNext(m: map<nat, set<Event>>, step: Step): map<nat, set<Event>> {
    match step
    case Construct(fd, ev) => if fd in m then m else m[fd := ev]
    case Demand(fd, ev) => if fd in m then m[fd := ev] else m
    case Destruct(fd) => m - {fd}
    case PopEvent => m
  }

  function MapSteps(m: map<nat, set<Event>>, steps: seq<Step>): map<nat, set<Event>>
    decreases |steps|
  {
    if steps == [] then m else MapSteps(MapNext(m, steps[0]), steps[1..])
  }

  lemma NextRefines(st: State, step: Step)
    requires Agree(st)
    ensures Agree(Next(st, step)) && Interest(Next(st, step)) == MapNext(Interest(st), step)
  {
    if step.PopEvent? {
      PopRefines(st);
    } else {
      assert step.fd in Interest(st) <==> step.fd in st.indices;
      hide Agree, Interest, Add, Remove, SetEvents;
      if step.fd !in st.indices {
        if step.Construct? {
          AddRefines(st, step.fd, step.events);
        } else {
          assert Interest(st) - {step.fd} == Interest(st);
        }
      } else {
        match step
        case Construct(fd, ev) =>
        case Demand(fd, ev) => SetEventsRefines(st, fd, ev);
        case Destruct(fd) => RemoveRefines(st, fd);
      }
    }
  }

  lemma PopRefines(st: State)
    requires Agree(st)
    ensures Agree(Pop(st)) && Interest(Pop(st)) == Interest(st)
  {
    assert Pop(st).pfd == st.pfd && Pop(st).indices == st.indices;
  }

  /** Array and index together behave like that map over every run. */
  lemma {:induction false} RefinesMap(st: State, steps: seq<Step>)
    requires Inv(st)
    ensures Inv(Steps(st, steps)) && Interest(Steps(st, steps)) == MapSteps(Interest(st), steps)
    decreases |steps|
  {
    if steps != [] {
      NextKeeps(st, steps[0]);
      NextRefines(st, steps[0]);
      RefinesMap(Next(st, steps[0]), steps[1..]);
    }
  }

  /** Popping until nothing is left. */
  function PopAll(st: State): State
    decreases st.nEvents
  {
    if PopOutcome(st).Event? then PopAll(Pop(st)) else Pop(st)
  }

  /** A drain that is left alone runs off the array exactly if it starts unbalanced;
      otherwise it delivers what is ready, in array order. */
  lemma {:induction false} DrainFaults(st: State)
    requires !st.fault && st.nEvents >= |ReadyFrom(st.pfd, st.current)|
    ensures PopAll(st).fault <==> !Balanced(st)
    ensures PopAll(st).delivered == st.delivered + ReadyFrom(st.pfd, st.current)
    decreases st.nEvents
  {
    SkipIdle(st.pfd, st.current);
    match PopOutcome(st)
    case Empty =>
    case PastEnd =>
    case Event(d) =>
      DrainFaults(Pop(st));
      assert (st.delivered + [d]) + ReadyFrom(st.pfd, Pop(st).current)
          == st.delivered + ([d] + ReadyFrom(st.pfd, Pop(st).current));
  }

  /** Once the drain is over, everything reported ready has been delivered exactly once. */
  lemma DrainComplete(st: State, revents: seq<set<Flag>>, steps: seq<Step>)
    requires Agree(st) && |revents| == |st.pfd|
    ensures Inv(Reported(st, revents))
    ensures var end := Steps(Reported(st, revents), steps);
            end.safe ==>
              && !end.fault && Distinct(end.delivered)
              && (end.nEvents == 0 <==> ReadySet(end) == {})
              && (end.nEvents == 0 ==>
                    Members(end.delivered) == Reports(st.pfd, revents))
  {
    ReportedKeeps(st, revents);
    DrainRun(Reported(st, revents), steps);
    StepsKeepReady0(Reported(st, revents), steps);
    var end := Steps(Reported(st, revents), steps);
    ReadySetEmpty(end);
  }

  lemma {:induction false} FaultStays(st: State)
    requires st.fault
    ensures PopAll(st).fault
    decreases st.nEvents
  {
    if PopOutcome(st).Event? {
      FaultStays(Pop(st));
    }
  }

  /** The exact condition over whole runs: drained to the end, the array is overrun if and
      only if some removal since the last wait was harmful. */
  lemma OverrunExact(st: State, revents: seq<set<Flag>>, steps: seq<Step>)
    requires Agree(st) && |revents| == |st.pfd|
    ensures Inv(Reported(st, revents))
    ensures var end := Steps(Reported(st, revents), steps);
            && (PopAll(end).fault <==> !end.safe)
            && (end.safe <==> Balanced(end))
  {
    ReportedKeeps(st, revents);
    DrainRun(Reported(st, revents), steps);
    var end := Steps(Reported(st, revents), steps);
    if end.fault {
      FaultStays(end);
    } else {
      DrainFaults(end);
    }
  }

  /** What dispatch::run asserts, that no event set is empty, holds over a complete drain
      exactly if no report consisted of bits that map to nothing. */
  lemma EventsNonempty(st: State, revents: seq<set<Flag>>, steps: seq<Step>)
    requires Agree(st) && |revents| == |st.pfd|
    ensures Inv(Reported(st, revents))
    ensures var end := Steps(Reported(st, revents), steps);
            var telling := forall i :: 0 <= i < |revents| ==> revents[i] == {} || !(revents[i] <= {WrBand, Err, Hup, Nval});
            && (telling ==> forall d :: d in Members(end.delivered) ==> d.events != {})
            && (end.safe && end.nEvents == 0 ==>
                  (telling <==> forall d :: d in Members(end.delivered) ==> d.events != {}))
  {
    DrainComplete(st, revents, steps);
    DrainRun(Reported(st, revents), steps);
    StepsKeepReady0(Reported(st, revents), steps);
    ReportedKeeps(st, revents);
    forall i | 0 <= i < |revents|
      ensures Mapped(revents[i]) == {} <==> revents[i] <= {WrBand, Err, Hup, Nval}
      ensures revents[i] != {} ==> Delivery(st.pfd[i].fd, Mapped(revents[i])) in Reports(st.pfd, revents)
    {
      MappedEmpty(revents[i]);
    }
  }

  lemma {:induction false} StepsKeepReady0(st: State, steps: seq<Step>)
    requires Inv(st)
    ensures Steps(st, steps).ready0 == st.ready0
    decreases |steps|
  {
    if steps != [] {
      NextKeeps(st, steps[0]);
      StepsKeepReady0(Next(st, steps[0]), steps[1..]);
    }
  }

  lemma ReadySetEmpty(st: State)
    ensures ReadySet(st) == {} <==> ReadyFrom(st.pfd, st.current) == []
  {
    SkipIdle(st.pfd, st.current);
    var i := NextReady(st.pfd, st.current);
    if i < |st.pfd| {
      assert Due(st.pfd[i]) in ReadySet(st);
    }
  }

  /** The drain is over, and every report of the last wait has been delivered, once. */
  ghost predicate Drained(st: State) {
    st.nEvents == 0 && st.safe && !st.fault && Distinct(st.delivered) && Members(st.delivered) == st.ready0
  }

  /** When no events are left, no removal was harmful. */
  lemma NoneLeft(st: State)
    requires Inv(st) && st.nEvents == 0
    ensures Drained(st)
  {
    ReadySetEmpty(st);
  }

  /** Two sockets are registered, and both are reported readable. */
  const TWO_READY := State([Pfd(3, {Readable}, {In}), Pfd(4, {Readable}, {In})], map[3 := 0, 4 := 1],
                           2, 0, {Delivery(3, {Readable}), Delivery(4, {Readable})}, [], true, false)

  /** A handler that destroys its own socket can break the drain: the first of two ready
      sockets is delivered and destroyed, the second moves in front of the cursor, is never
      delivered, and the next pop_event runs off the array. */
  lemma SuicideBreaksDrain()
    ensures Agree(TWO_READY) && Balanced(TWO_READY) && ReadySet(TWO_READY) == TWO_READY.ready0
    ensures Agree(Pop(TWO_READY)) && !KeepsBalance(Pop(TWO_READY), 3)
    ensures var end := Pop(Remove(Pop(TWO_READY), 3)); end.fault && end.delivered == [Delivery(3, {Readable})]
  {
    assert ReadyFrom(TWO_READY.pfd, 2) == [];
    assert ReadyFrom(TWO_READY.pfd, 1) == [Delivery(4, {Readable})];
    assert Due(TWO_READY.pfd[0]) in ReadySet(TWO_READY) && Due(TWO_READY.pfd[1]) in ReadySet(TWO_READY);
    var st := Pop(TWO_READY);
    assert NextReady(TWO_READY.pfd, 0) == 0;
    assert st.current == 1 && st.nEvents == 1 && st.delivered == [Delivery(3, {Readable})];
    assert Remove(st, 3).pfd == [Pfd(4, {Readable}, {In})];
  }

  /** So can an answer to a DNS query: both sockets are the resolver's, the event of the
      first brings the last answer, and the resolver destroys all its sockets. */
  lemma LastAnswerBreaksDrain()
    ensures Agree(TWO_READY) && Agree(Pop(TWO_READY)) && Agree(Remove(Pop(TWO_READY), 3))
    ensures 3 in Pop(TWO_READY).indices && 4 in Remove(Pop(TWO_READY), 3).indices
    ensures var end := Remove(Remove(Pop(TWO_READY), 3), 4);
            end.pfd == [] && end.nEvents == 1 && !end.safe && Pop(end).fault
  {
    SuicideBreaksDrain();
    var st := Pop(TWO_READY);
    assert NextReady(TWO_READY.pfd, 0) == 0;
    assert Remove(st, 3).pfd == [Pfd(4, {Readable}, {In})];
  }
}
