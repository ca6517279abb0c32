/** What client code and schedule::run do to the timers, action by action, in terms of the
    queue and the handles. The functions of Timers.dfy are proved to take these steps. */
module TimerSteps {
  import opened Multimap
  import opened Timers
  import opened TimerTheorems

  /** The variable refers to an entry that is queued. */
  ghost predicate Pending(st: State, slot: Slot) {
    && slot in st.handles && st.handles[slot].ts != 0
    && exists i :: 0 <= i < |st.queue| && st.queue[i].value.id == st.handles[slot].id
  }

  /** `r` is `q` without the entry of that number. */
  ghost predicate TakenOut(q: seq<Entry>, id: nat, r: seq<Entry>) {
    exists i :: 0 <= i < |q| && q[i].value.id == id && r == q[..i] + q[i + 1..]
  }

  /** `job` is queued for `ts`, and the variable refers to it. */
  ghost predicate Inserts(st: State, st': State, slot: Slot, ts: int, job: Task) {
    var e := Pair(ts, Job(|st.inserted|, if slot.Timeout? then Some(slot.name) else None, job));
    && PutBehind(st.queue, e, st'.queue)
    && st'.inserted == st.inserted + [e]
    && st'.handles == st.handles[slot := TaskId(ts, |st.inserted|)]
    && st'.now == st.now && st'.executed == st.executed && st'.cancelled == st.cancelled
  }

  /** The entry the variable refers to is taken out, if it is queued, and the variable is
      unset; nothing else changes. */
  ghost predicate Cancels(st: State, st': State, slot: Slot) {
    && (if Pending(st, slot) then
          var id := st.handles[slot].id;
          && TakenOut(st.queue, id, st'.queue)
          && st'.handles == st.handles[slot := TaskId(0, id)]
          && st'.cancelled == st.cancelled + {id}
        else st'.queue == st.queue && st'.handles == st.handles && st'.cancelled == st.cancelled)
    && st'.inserted == st.inserted && st'.now == st.now && st'.executed == st.executed
  }

  /** One action of client code, from `st` with `task` ahead to `st'` with `rest` ahead. */
  ghost predicate Takes(st: State, task: Task, st': State, rest: Task) {
    match task
    case Done => false
    case Insert(name, Abs(ts), job, next) =>
      Inserts(st, st', Handle(name), ts, job) && rest == next
    case Insert(name, Rel(delay), job, next) =>
      Inserts(st, st', Handle(name), st.now + delay, job) && rest == next
    case Cancel(slot, hit, miss) =>
      Cancels(st, st', slot) && rest == if Pending(st, slot) then hit else miss
    case Rearm(name, Abs(ts), job, hit, miss) =>
      Rearms(st, st', Timeout(name), ts, job) && rest == if Pending(st, Timeout(name)) then hit else miss
    case Rearm(name, Rel(delay), job, hit, miss) =>
      Rearms(st, st', Timeout(name), st.now + delay, job) && rest == if Pending(st, Timeout(name)) then hit else miss
    case Destroy(name, next) =>
      Destroys(st, st', Timeout(name)) && rest == next
    case Socket(_, next) => st' == st && rest == next
    case Query(_, next) => st' == st && rest == next
  }

  ghost predicate Rearms(st: State, st': State, slot: Slot, ts: int, job: Task) {
    exists st1 :: Cancels(st, st1, slot) && Inserts(st1, st', slot, ts, job)
  }

  ghost predicate Destroys(st: State, st': State, slot: Slot) {
    exists st1 :: Cancels(st, st1, slot) && st' == st1.(handles := st1.handles - {slot})
  }

  lemma HitPending(st: State, slot: Slot)
    requires Inv(st)
    ensures Hit(st, slot) <==> Pending(st, slot)
  {
    VerdictExact(st, slot);
    if Pending(st, slot) {
      var i :| 0 <= i < |st.queue| && st.queue[i].value.id == st.handles[slot].id;
      assert st.queue[i].value.id in Ids(st.queue);
    }
  }

  /** The slot whose state decides how a task goes on. */
  lemma HitSlots(st: State, task: Task)
    requires Inv(st)
    ensures task.Cancel? ==> (Hit(st, task.slot) <==> Pending(st, task.slot))
    ensures task.Rearm? ==> (Hit(st, Timeout(task.name)) <==> Pending(st, Timeout(task.name)))
  {
    if task.Cancel? {
      HitPending(st, task.slot);
    } else if task.Rearm? {
      HitPending(st, Timeout(task.name));
    }
  }

  lemma PutInserts(st: State, slot: Slot, ts: int, job: Task)
    requires Inv(st)
    ensures Inserts(st, Put(st, slot, ts, job), slot, ts, job)
  {
    OrderedQueue(st);
    InsertPutsBehind(st.queue, Pair(ts, Job(|st.inserted|, OwnerOf(slot), job)));
  }

  lemma CancelCancels(st: State, slot: Slot)
    requires Inv(st)
    ensures Cancels(st, CancelSlot(st, slot), slot)
  {
    HitPending(st, slot);
    if Hit(st, slot) {
      VerdictExact(st, slot);
      RemoveIds(st, HandleOf(st, slot).id);
    }
  }

  /** Every action does what it is there for. */
  lemma ActTakes(st: State, task: Task)
    requires Inv(st) && !task.Done?
    ensures Takes(st, task, Act(st, task), Rest(st, task))
  {
    hide Inv, Inserts, Cancels, Put, CancelSlot, Hit, Pending;
    match task
    case Insert(name, when, job, _) =>
      PutInserts(st, Handle(name), Due(st.now, when), job);
    case Cancel(slot, _, _) =>
      CancelCancels(st, slot);
      HitPending(st, slot);
    case Rearm(name, when, job, _, _) =>
      CancelCancels(st, Timeout(name));
      HitPending(st, Timeout(name));
      CancelKeeps(st, Timeout(name));
      PutInserts(CancelSlot(st, Timeout(name)), Timeout(name), Due(st.now, when), job);
    case Destroy(name, _) =>
      CancelCancels(st, Timeout(name));
    case Socket(_, _) =>
    case Query(_, _) =>
  }

  // Runs of actions

  /** Where execution stands, and what is still ahead of it. */
  datatype Config = Config(st: State, task: Task)

  /** Within a task its next action is taken; between tasks the first entry of the queue
      is, if it is due, and then its job is what is ahead. */
  ghost predicate Proceeds(c: Config, c': Config) {
    if c.task.Done? then
      && c.st.queue != [] && c.st.queue[0].key <= c.st.now
      && c'.task == c.st.queue[0].value.task
      && c'.st == c.st.(queue := c.st.queue[1..], executed := c.st.executed + [Firing(c.st.queue[0], c.st.now)])
    else Takes(c.st, c.task, c'.st, c'.task)
  }

  ghost predicate Course(cs: seq<Config>) {
    cs != [] && forall i :: 0 < i < |cs| ==> Proceeds(cs[i - 1], cs[i])
  }

  /** Step by step from one configuration to another. */
  ghost predicate Leads(c: Config, c': Config) {
    exists cs :: Course(cs) && cs[0] == c && cs[|cs| - 1] == c'
  }

  lemma LeadsNowhere(c: Config)
    ensures Leads(c, c)
  {
    assert Course([c]);
  }

  lemma LeadsOn(a: Config, b: Config, c: Config)
    requires Leads(a, b) && Leads(b, c)
    ensures Leads(a, c)
  {
    var s :| Course(s) && s[0] == a && s[|s| - 1] == b;
    var t :| Course(t) && t[0] == b && t[|t| - 1] == c;
    var r := s + t[1..];
    forall i | 0 < i < |r| ensures Proceeds(r[i - 1], r[i]) {
      if i >= |s| {
        assert r[i] == t[i - |s| + 1] && r[i - 1] == t[i - |s|];
      }
    }
    assert Course(r) && r[|r| - 1] == c;
  }

  lemma LeadsOneStep(a: Config, b: Config)
    requires Proceeds(a, b)
    ensures Leads(a, b)
  {
    assert Course([a, b]);
  }

  /** Executing a task means to take all of its actions, one after the other. */
  lemma {:induction false} ExecLeads(st: State, task: Task)
    requires Inv(st)
    ensures Leads(Config(st, task), Config(Exec(st, task), Done))
    decreases task
  {
    hide Inv, Takes, Act, Rest, Leads;
    if task.Done? {
      LeadsNowhere(Config(st, task));
    } else {
      ActTakes(st, task);
      ActKeeps(st, task);
      ExecLeads(Act(st, task), Rest(st, task));
      LeadsOneStep(Config(st, task), Config(Act(st, task), Rest(st, task)));
      LeadsOn(Config(st, task), Config(Act(st, task), Rest(st, task)), Config(Exec(st, task), Done));
    }
  }

  /** run means to take due entries off the queue and to take all actions of their jobs,
      until nothing is due. */
  lemma {:induction false} RunLeads(st: State)
    requires Inv(st)
    ensures Leads(Config(st, Done), Config(RunDue(st), Done))
    ensures RunDue(st).queue == [] || RunDue(st).queue[0].key > st.now
    decreases Work(st.queue)
  {
    hide Inv, Leads, Takes;
    if HasDue(st) {
      var job := st.queue[0].value.task;
      var st1 := Exec(Pop(st), job);
      PopKeeps(st);
      ExecKeeps(Pop(st), job);
      ExecShrinks(Pop(st), job);
      RunLeads(st1);
      ExecLeads(Pop(st), job);
      LeadsOneStep(Config(st, Done), Config(Pop(st), job));
      LeadsOn(Config(st, Done), Config(Pop(st), job), Config(st1, Done));
      LeadsOn(Config(st, Done), Config(st1, Done), Config(RunDue(st), Done));
    } else {
      LeadsNowhere(Config(st, Done));
    }
  }

  // What was inserted is what fires

  lemma {:induction false} ExecGrows(st: State, task: Task)
    ensures st.inserted <= Exec(st, task).inserted
    decreases task
  {
    if !task.Done? {
      ExecGrows(Act(st, task), Rest(st, task));
    }
  }

  lemma {:induction false} RunDueGrows(st: State)
    ensures st.inserted <= RunDue(st).inserted
    decreases Work(st.queue)
  {
    if HasDue(st) {
      var job := st.queue[0].value.task;
      ExecShrinks(Pop(st), job);
      ExecGrows(Pop(st), job);
      RunDueGrows(Exec(Pop(st), job));
    }
  }

  lemma {:induction false} ProgramGrows(st: State, steps: seq<Step>)
    ensures st.inserted <= Program(st, steps).inserted
    decreases |steps|
  {
    if steps != [] {
      match steps[0] {
        case Client(task) => ExecGrows(st, task);
        case Run => RunDueGrows(st);
        case Wait(_) =>
      }
      ProgramGrows(Next(st, steps[0]), steps[1..]);
    }
  }

  /** The key a time means at the moment. */
  ghost predicate Means(when: When, now: int, ts: int) {
    match when
    case Abs(t) => ts == t
    case Rel(delay) => ts == now + delay
  }

  lemma NewEntry(st: State, task: Task)
    requires Inv(st) && (task.Insert? || task.Rearm?)
    ensures |st.inserted| < |Exec(st, task).inserted|
    ensures var e := Exec(st, task).inserted[|st.inserted|];
            && e.value == Job(|st.inserted|, if task.Rearm? then Some(task.name) else None, task.job)
            && Means(task.when, st.now, e.key)
  {
    ActTakes(st, task);
    ExecGrows(Act(st, task), Rest(st, task));
  }

  /** Whatever a program did before, and whatever it does afterwards: if the entry of an
      insertion fires at all, it fires with the job and the time it was inserted with. */
  lemma FiresAsInserted(now: int, before: seq<Step>, task: Task, later: seq<Step>, i: nat)
    requires task.Insert? || task.Rearm?
    requires var st := Program(Next(After(now, before), Client(task)), later);
             i < |st.executed| && st.executed[i].entry.value.id == |After(now, before).inserted|
    ensures var st := Program(Next(After(now, before), Client(task)), later);
            var f := st.executed[i];
            && f.entry.value.task == task.job
            && Means(task.when, After(now, before).now, f.entry.key)
            && f.entry.key <= f.at
  {
    Reachable(now, before);
    var st0 := After(now, before);
    NewEntry(st0, task);
    ExecKeeps(st0, task);
    var st1 := Exec(st0, task);
    ProgramKeeps(st1, later);
    ProgramGrows(st1, later);
    var st := Program(st1, later);
    assert IsInserted(st, st.executed[i].entry);
  }

  const NESTED := Task.Insert(1, Rel(5), Done, Task.Insert(2, Abs(7), Done, Done))
  const OUTER := Task.Insert(0, Abs(20), NESTED, Done)

  lemma OuterInserted()
    ensures Exec(Initial(10), OUTER) ==
            State(10, [Pair(20, Job(0, None, NESTED))], map[Handle(0) := TaskId(20, 0)],
                  [Pair(20, Job(0, None, NESTED))], [], {}, [], true)
  {
    var st := Put(Initial(10), Handle(0), 20, NESTED);
    assert Exec(Initial(10), OUTER) == Exec(st, Done) == st;
  }

  lemma NestedInserts(st: State)
    requires st.queue == [] && |st.inserted| == 1 && st.now == 20
    ensures var st' := Exec(st, NESTED);
            && st'.queue == [Pair(7, Job(2, None, Done)), Pair(25, Job(1, None, Done))]
            && st'.handles == st.handles[Handle(1) := TaskId(25, 1)][Handle(2) := TaskId(7, 2)]
            && st'.now == 20 && st'.executed == st.executed
  {
    var st1 := Put(st, Handle(1), 25, Done);
    var st2 := Put(st1, Handle(2), 7, Done);
    assert Exec(st, NESTED) == Exec(st1, NESTED.next) == Exec(st2, Done) == st2;
    assert st1.queue == [Pair(25, Job(1, None, Done))];
    assert UpperBound(st1.queue, 7) == 0;
  }

  lemma LastOneFires(st: State)
    requires st.queue == [Pair(7, Job(2, None, Done)), Pair(25, Job(1, None, Done))] && st.now == 20
    ensures RunDue(st) == Pop(st)
  {
    assert Exec(Pop(st), Done) == Pop(st);
    assert RunDue(st) == RunDue(Pop(st));
  }

  lemma OuterFires(st: State)
    requires st.queue == [Pair(20, Job(0, None, NESTED))] && |st.inserted| == 1 && st.now == 20 && st.executed == []
    requires st.handles == map[Handle(0) := TaskId(20, 0)]
    ensures var st' := RunDue(st);
            && st'.queue == [Pair(25, Job(1, None, Done))]
            && st'.executed == [Firing(Pair(20, Job(0, None, NESTED)), 20), Firing(Pair(7, Job(2, None, Done)), 20)]
            && st'.handles == map[Handle(0) := TaskId(20, 0), Handle(1) := TaskId(25, 1), Handle(2) := TaskId(7, 2)]
  {
    NestedInserts(Pop(st));
    LastOneFires(Exec(Pop(st), NESTED));
    hide Exec;
    assert RunDue(st) == RunDue(Exec(Pop(st), NESTED));
  }

  /** A job is inserted for 20, at 10. At 20 it fires, and inserts two others: one for 25,
      which stays, and one for a time that is over, which fires at once. */
  lemma NestedJob()
    ensures var st := After(10, [Client(OUTER), Wait(10), Run]);
            && st.queue == [Pair(25, Job(1, None, Done))]
            && st.executed == [Firing(Pair(20, Job(0, None, NESTED)), 20), Firing(Pair(7, Job(2, None, Done)), 20)]
            && st.handles == map[Handle(0) := TaskId(20, 0), Handle(1) := TaskId(25, 1), Handle(2) := TaskId(7, 2)]
  {
    hide Exec, RunDue, Program;
    OuterInserted();
    var st1 := Exec(Initial(10), OUTER);
    var st2 := st1.(now := 20);
    OuterFires(st2);
    FirstStep(Initial(10), Client(OUTER), [Wait(10), Run]);
    FirstStep(st1, Wait(10), [Run]);
    FirstStep(st2, Run, []);
    FirstStep(RunDue(st2), Run, []);
    assert [Client(OUTER), Wait(10), Run] == [Client(OUTER)] + [Wait(10), Run];
    assert [Wait(10), Run] == [Wait(10)] + [Run] && [Run] == [Run] + [];
  }
}
