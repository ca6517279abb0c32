/** The timer queue as a state machine: what `schedule` and the `timeout` objects of its
    clients do to the queue, over whole runs. Schedule.dfy proves the imperative code
    equal to these functions; TimerTheorems.dfy proves what every run guarantees. */
module Timers {
  import opened Multimap
  import Sockets

  /** A variable of client code: one that keeps a bare task_id, or a timeout object. */
  datatype Slot = Handle(name: nat) | Timeout(name: nat)

  /** schedule::task_id. The iterator half is the number of the insertion it points to. */
  datatype TaskId = TaskId(ts: int, id: nat)

  datatype When = Abs(ts: int) | Rel(delay: nat)

  /** What a task, or any other client code, does before it returns: it works on timers,
      on sockets, and submits DNS queries. A task is a finite tree: it may insert further
      tasks, give queries a callback that is a tree as well, and go on differently depending
      on what a cancel call returned. The schedule is concerned by the first four kinds of
      action only; in ClientCode.dfy the other two take effect. */
  datatype Task =
    | Done
    | Insert(name: nat, when: When, job: Task, next: Task)
    | Cancel(slot: Slot, hit: Task, miss: Task)
    | Rearm(name: nat, when: When, job: Task, hit: Task, miss: Task)
    | Destroy(name: nat, next: Task)
    | Socket(op: Sockets.Op, next: Task)
    | Query(callback: Task, next: Task)

  /** A queued task; `owner` is the timeout object that armed it, if any. */
  datatype Job = Job(id: nat, owner: Option<nat>, task: Task)

  type Entry = Pair<Job>

  datatype Firing = Firing(entry: Entry, at: int)

  /** What one call of schedule::cancel came to. */
  datatype Verdict =
    | Cancelled   // returned true, the entry is gone
    | NotPending  // returned false
    | PastEnd     // the scan ran off the end of the queue
    | Dangling    // erased an entry that was no longer queued

  datatype Call = Call(verdict: Verdict, wasPending: bool)

  datatype State = State(
    now: int,
    queue: seq<Entry>,
    handles: map<Slot, TaskId>,
    // history
    inserted: seq<Entry>,
    executed: seq<Firing>,
    cancelled: set<nat>,
    calls: seq<Call>,
    lawful: bool)

  const UNSET := TaskId(0, 0)

  function Initial(now: int): State {
    State(now, [], map[], [], [], {}, [], true)
  }

  function Ids(q: seq<Entry>): set<nat> {
    set i | 0 <= i < |q| :: q[i].value.id
  }

  function Fired(fs: seq<Firing>): set<nat> {
    set i | 0 <= i < |fs| :: fs[i].entry.value.id
  }

  function Find(q: seq<Entry>, id: nat): (i: nat)
    ensures i <= |q|
    ensures forall j :: 0 <= j < i ==> q[j].value.id != id
    ensures i < |q| ==> q[i].value.id == id
  {
    if q == [] || q[0].value.id == id then 0 else 1 + Find(q[1..], id)
  }

  function Remove(q: seq<Entry>, id: nat): seq<Entry> {
    var i := Find(q, id);
    if i < |q| then q[..i] + q[i + 1..] else q
  }

  function Due(now: int, when: When): int {
    match when
    case Abs(ts) => ts
    case Rel(delay) => now + delay
  }

  /** The outcome of cancel(tid), in terms of what is queued. */
  function VerdictOf(q: seq<Entry>, tid: TaskId): Verdict {
    if tid.ts == 0 || q == [] then NotPending
    else if tid.id in Ids(q) then Cancelled
    else if q[0].key < tid.ts then Dangling
    else if forall i :: 0 <= i < |q| ==> q[i].key == tid.ts then PastEnd
    else NotPending
  }

  function HandleOf(st: State, slot: Slot): TaskId {
    if slot in st.handles then st.handles[slot] else UNSET
  }

  predicate Hit(st: State, slot: Slot) {
    VerdictOf(st.queue, HandleOf(st, slot)).Cancelled?
  }

  /** The insertions the library is safe for: never at time 0, which means "no task",
      and never before the time stamp of a task that has been executed already. */
  predicate LawfulAt(st: State, ts: int) {
    ts != 0 && forall i :: 0 <= i < |st.executed| ==> st.executed[i].entry.key <= ts
  }

  function OwnerOf(slot: Slot): Option<nat> {
    if slot.Timeout? then Some(slot.name) else None
  }

  function Put(st: State, slot: Slot, ts: int, job: Task): State {
    var e := Pair(ts, Job(|st.inserted|, OwnerOf(slot), job));
    st.(queue := Multimap.Insert(st.queue, e),
        inserted := st.inserted + [e],
        handles := st.handles[slot := TaskId(ts, |st.inserted|)],
        lawful := st.lawful && LawfulAt(st, ts))
  }

  function CancelSlot(st: State, slot: Slot): State {
    var tid := HandleOf(st, slot);
    var v := VerdictOf(st.queue, tid);
    var logged := st.(calls := st.calls + [Call(v, tid.ts != 0 && tid.id in Ids(st.queue))]);
    if v.Cancelled? then
      logged.(queue := Remove(st.queue, tid.id),
              cancelled := st.cancelled + {tid.id},
              handles := st.handles[slot := tid.(ts := 0)])
    else logged
  }

  function Drop(st: State, slot: Slot): State {
    st.(handles := st.handles - {slot})
  }

  /** The first thing a task does. */
  function Act(st: State, task: Task): State
    requires !task.Done?
  {
    match task
    case Insert(name, when, job, _) => Put(st, Handle(name), Due(st.now, when), job)
    case Cancel(slot, _, _) => CancelSlot(st, slot)
    case Rearm(name, when, job, _, _) =>
      Put(CancelSlot(st, Timeout(name)), Timeout(name), Due(st.now, when), job)
    case Destroy(name, _) => Drop(CancelSlot(st, Timeout(name)), Timeout(name))
    case Socket(_, _) => st
    case Query(_, _) => st
  }

  /** What it does after that. */
  function Rest(st: State, task: Task): (rest: Task)
    requires !task.Done?
    ensures rest < task
  {
    match task
    case Insert(_, _, _, next) => next
    case Cancel(slot, hit, miss) => if Hit(st, slot) then hit else miss
    case Rearm(name, _, _, hit, miss) => if Hit(st, Timeout(name)) then hit else miss
    case Destroy(_, next) => next
    case Socket(_, next) => next
    case Query(_, next) => next
  }

  function Exec(st: State, task: Task): State
    decreases task
  {
    if task.Done? then st else Exec(Act(st, task), Rest(st, task))
  }

  /** Takes the first entry off the queue to execute it. */
  function Pop(st: State): State
    requires st.queue != []
  {
    st.(queue := st.queue[1..], executed := st.executed + [Firing(st.queue[0], st.now)])
  }

  predicate HasDue(st: State) {
    st.queue != [] && st.queue[0].key <= st.now
  }

  // Termination: the work left is the size of all queued task trees.

  function Size(task: Task): nat {
    match task
    case Done => 1
    case Insert(_, _, job, next) => 1 + Size(job) + Size(next)
    case Cancel(_, hit, miss) => 1 + Size(hit) + Size(miss)
    case Rearm(_, _, job, hit, miss) => 1 + Size(job) + Size(hit) + Size(miss)
    case Destroy(_, next) => 1 + Size(next)
    case Socket(_, next) => 1 + Size(next)
    case Query(callback, next) => 1 + Size(callback) + Size(next)
  }

  function Work(q: seq<Entry>): nat {
    if q == [] then 0 else Size(q[0].value.task) + Work(q[1..])
  }

  lemma {:induction false} WorkConcat(a: seq<Entry>, b: seq<Entry>)
    ensures Work(a + b) == Work(a) + Work(b)
  {
    if a == [] {
      assert a + b == b;
    } else {
      WorkConcat(a[1..], b);
      assert (a + b)[1..] == a[1..] + b;
    }
  }

  lemma WorkInsert(q: seq<Entry>, e: Entry)
    ensures Work(Multimap.Insert(q, e)) == Work(q) + Size(e.value.task)
  {
    var p := UpperBound(q, e.key);
    WorkConcat(q[..p] + [e], q[p..]);
    WorkConcat(q[..p], [e]);
    WorkConcat(q[..p], q[p..]);
    assert q == q[..p] + q[p..];
  }

  lemma WorkRemove(q: seq<Entry>, id: nat)
    ensures Work(Remove(q, id)) <= Work(q)
  {
    var i := Find(q, id);
    if i < |q| {
      WorkConcat(q[..i], q[i + 1..]);
      WorkConcat(q[..i], q[i..]);
      assert q == q[..i] + q[i..];
      assert q[i..][1..] == q[i + 1..];
    }
  }

  lemma ActShrinks(st: State, task: Task)
    requires !task.Done?
    ensures Work(Act(st, task).queue) + Size(Rest(st, task)) < Work(st.queue) + Size(task)
  {
    match task
    case Insert(name, when, job, _) =>
      WorkInsert(st.queue, Pair(Due(st.now, when), Job(|st.inserted|, None, job)));
    case Cancel(slot, _, _) =>
      WorkRemove(st.queue, HandleOf(st, slot).id);
    case Rearm(name, when, job, _, _) =>
      WorkRemove(st.queue, HandleOf(st, Timeout(name)).id);
      WorkInsert(CancelSlot(st, Timeout(name)).queue, Pair(Due(st.now, when), Job(|st.inserted|, Some(name), job)));
    case Destroy(name, _) =>
      WorkRemove(st.queue, HandleOf(st, Timeout(name)).id);
    case Socket(_, _) =>
    case Query(_, _) =>
  }

  /** Whatever a task does, it adds less work to the queue than it took off it. */
  lemma {:induction false} ExecShrinks(st: State, task: Task)
    ensures Work(Exec(st, task).queue) < Work(st.queue) + Size(task)
    ensures Exec(st, task).now == st.now
    decreases task
  {
    if !task.Done? {
      ActShrinks(st, task);
      ExecShrinks(Act(st, task), Rest(st, task));
    }
  }

  /** schedule::run: executes due tasks, first entry first, until none is due. */
  function RunDue(st: State): State
    decreases Work(st.queue)
  {
    if HasDue(st) then
      ExecShrinks(Pop(st), st.queue[0].value.task);
      RunDue(Exec(Pop(st), st.queue[0].value.task))
    else st
  }

  const SECONDS_RANGE := 0x1_0000_0000

  /** What run returns: the distance to the first entry, cast to a 32-bit unsigned. */
  function SecondsLeft(st: State): nat {
    if st.queue == [] then 0 else (st.queue[0].key - st.now) % SECONDS_RANGE
  }

  /** A whole program: client code, waiting (by any amount, clocks may be set back), run. */
  datatype Step = Client(task: Task) | Wait(elapsed: int) | Run

  function Next(st: State, step: Step): State {
    match step
    case Client(task) => Exec(st, task)
    case Wait(elapsed) => st.(now := st.now + elapsed)
    case Run => RunDue(st)
  }

  function Program(st: State, steps: seq<Step>): State
    decreases |steps|
  {
    if steps == [] then st else Program(Next(st, steps[0]), steps[1..])
  }
}
