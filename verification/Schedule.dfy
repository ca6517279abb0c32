/** include/ioxx/schedule.hpp: the queue object and the code that works on it in place. */
module Schedule {
  import opened Multimap
  import opened Timers
  import opened TimerTheorems
  import opened TimerSteps

  class Schedule {
    var now: int                       // the clock the schedule refers to
    var queue: seq<Entry>
    var next: nat                      // number of the next insertion
    var handles: map<Slot, TaskId>     // the variables of client code
    var broken: bool                   // a cancel call has left defined behaviour
    ghost var inserted: seq<Entry>
    ghost var executed: seq<Firing>
    ghost var cancelled: set<nat>
    ghost var calls: seq<Call>
    ghost var lawful: bool

    ghost function Model(): State
      reads this
    {
      State(now, queue, handles, inserted, executed, cancelled, calls, lawful)
    }

    ghost predicate Valid()
      reads this
    {
      next == |inserted| && Inv(Model()) && (broken <==> Broken(Model()))
    }

    constructor (now: int)
      ensures Valid() && Model() == Initial(now)
    {
      this.now, queue, next, handles, broken := now, [], 0, map[], false;
      inserted, executed, cancelled, calls, lawful := [], [], {}, [], true;
    }

    /** at, with the assignment of its result to the client's variable: the job itself is
        queued, behind everything that is not later. */
    method At(slot: Slot, ts: int, task: Task)
      requires Valid()
      requires lawful && slot.Timeout? ==> Unowned(Model(), slot.name)
      modifies this
      ensures Valid() && Model() == Put(old(Model()), slot, ts, task) && broken == old(broken)
      ensures PutBehind(old(queue), Pair(ts, Job(old(next), if slot.Timeout? then Some(slot.name) else None, task)), queue)
      ensures handles == old(handles)[slot := TaskId(ts, old(next))] && next == old(next) + 1
    {
      hide Inv, Broken, LawfulAt, Multimap.Insert, Unowned, PutBehind;
      PutInserts(Model(), slot, ts, task);
      PutKeeps(Model(), slot, ts, task);
      SameCalls(Model(), Put(Model(), slot, ts, task));
      var e := Pair(ts, Job(next, OwnerOf(slot), task));
      lawful, inserted := lawful && LawfulAt(Model(), ts), inserted + [e];
      queue, handles, next := Multimap.Insert(queue, e), handles[slot := TaskId(ts, next)], next + 1;
    }

    /** unsafe_cancel, on the task_id the client keeps in `slot`, of a pending task. */
    method UnsafeCancel(slot: Slot)
      requires slot in handles && handles[slot].ts != 0 && handles[slot].id in Ids(queue)
      modifies this
      ensures Model() == old(Model()).(queue := Remove(old(queue), old(handles)[slot].id),
                                       cancelled := old(cancelled) + {old(handles)[slot].id},
                                       handles := old(handles)[slot := old(handles)[slot].(ts := 0)])
      ensures next == old(next) && broken == old(broken)
    {
      var tid := handles[slot];
      var i := Find(queue, tid.id);
      queue := queue[..i] + queue[i + 1..];
      handles := handles[slot := tid.(ts := 0)];
      cancelled := cancelled + {tid.id};
    }

    /** cancel, on a task_id the client keeps in `slot`. The scan has no test for the end
        of the queue; where it would need one, the model stops with PastEnd, and where it
        would erase an iterator that is no longer in the queue, with Dangling: then the
        object is broken, and stays so. */
    method Cancel(slot: Slot) returns (verdict: Verdict)
      requires Valid()
      modifies this
      ensures Valid() && Model() == CancelSlot(old(Model()), slot)
      ensures verdict == VerdictOf(old(queue), HandleOf(old(Model()), slot))
      ensures broken <==> old(broken) || Stale(old(Model()), slot)
    {
      FaultExact(Model(), slot);
      CancelKeeps(Model(), slot);
      verdict := Search(slot);
      broken := broken || verdict == PastEnd || verdict == Dangling;
    }

    method Search(slot: Slot) returns (verdict: Verdict)
      requires next == |inserted| && Inv(Model())
      modifies this
      ensures next == |inserted| && broken == old(broken) && Model() == CancelSlot(old(Model()), slot)
      ensures verdict == VerdictOf(old(queue), HandleOf(old(Model()), slot))
    {
      ghost var st := Model();
      VerdictExact(st, slot);
      OrderedQueue(st);
      var tid := if slot in handles then handles[slot] else UNSET;
      calls := calls + [Call(VerdictOf(queue, tid), tid.ts != 0 && tid.id in Ids(queue))];
      if tid.ts == 0 || queue == [] {
        return NotPending;
      }
      assert Live(st, slot);
      assert forall i :: 0 <= i < |queue| ==> IsInserted(st, queue[i]);
      if tid.ts > queue[0].key {
        if tid.id !in Ids(queue) {
          return Dangling;
        }
        UnsafeCancel(slot);
        return Cancelled;
      }
      var i := 0;
      while i < |queue| && queue[i].key == tid.ts
        invariant 0 <= i <= |queue|
        invariant forall j :: 0 <= j < i ==> queue[j].key == tid.ts && queue[j].value.id != tid.id
        invariant Model() == st.(calls := CancelSlot(st, slot).calls) && next == |st.inserted| && broken == old(broken)
      {
        if queue[i].value.id == tid.id {
          assert tid.id in Ids(queue);
          UnsafeCancel(slot);
          return Cancelled;
        }
        i := i + 1;
      }
      forall k | 0 <= k < |queue| ensures queue[k].value.id != tid.id {
        assert i <= k ==> queue[i].key <= queue[k].key;
        assert k < i || queue[k].key != tid.ts;
      }
      return if i == |queue| then PastEnd else NotPending;
    }

    // timeout objects

    /** timeout::at */
    method TimeoutAt(name: nat, ts: int, task: Task) returns (wasCancelled: bool)
      requires Valid()
      modifies this
      ensures Valid()
      ensures Model() == Put(CancelSlot(old(Model()), Timeout(name)), Timeout(name), ts, task)
      ensures wasCancelled == Pending(old(Model()), Timeout(name))
      ensures Cancels(old(Model()), CancelSlot(old(Model()), Timeout(name)), Timeout(name))
      ensures PutBehind(CancelSlot(old(Model()), Timeout(name)).queue, Pair(ts, Job(old(next), Some(name), task)), queue)
      ensures Timeout(name) in handles && handles[Timeout(name)] == TaskId(ts, old(next))
      ensures broken <==> old(broken) || Stale(old(Model()), Timeout(name))
    {
      CancelCancels(Model(), Timeout(name));
      HitPending(Model(), Timeout(name));
      CancelKeeps(Model(), Timeout(name));
      hide Inv, Broken, Stale, Cancels, PutBehind, Pending;
      var verdict := Cancel(Timeout(name));
      At(Timeout(name), ts, task);
      return verdict == Cancelled;
    }

    /** timeout::in */
    method TimeoutIn(name: nat, delay: nat, task: Task) returns (wasCancelled: bool)
      requires Valid()
      modifies this
      ensures Valid()
      ensures Model() == Put(CancelSlot(old(Model()), Timeout(name)), Timeout(name), old(now) + delay, task)
      ensures wasCancelled == Pending(old(Model()), Timeout(name))
      ensures Cancels(old(Model()), CancelSlot(old(Model()), Timeout(name)), Timeout(name))
      ensures PutBehind(CancelSlot(old(Model()), Timeout(name)).queue,
                        Pair(old(now) + delay, Job(old(next), Some(name), task)), queue)
      ensures Timeout(name) in handles && handles[Timeout(name)] == TaskId(old(now) + delay, old(next))
      ensures broken <==> old(broken) || Stale(old(Model()), Timeout(name))
    {
      hide Inv, Broken, Stale, Put, CancelSlot, Cancels, PutBehind, Pending;
      wasCancelled := TimeoutAt(name, now + delay, task);
    }

    /** ~timeout */
    method DestroyTimeout(name: nat)
      requires Valid()
      modifies this
      ensures Valid() && Model() == Drop(CancelSlot(old(Model()), Timeout(name)), Timeout(name))
      ensures broken <==> old(broken) || Stale(old(Model()), Timeout(name))
    {
      CancelKeeps(Model(), Timeout(name));
      var _ := Cancel(Timeout(name));
      DropKeeps(Model(), name);
      SameCalls(Model(), Drop(Model(), Timeout(name)));
      hide Inv, Broken;
      handles := handles - {Timeout(name)};
    }

    /** The first thing client code does; `rest` is what it goes on with. */
    method Perform(task: Task) returns (rest: Task)
      requires Valid() && !task.Done?
      modifies this
      ensures Valid() && Model() == Act(old(Model()), task) && rest == Rest(old(Model()), task)
      ensures Takes(old(Model()), task, Model(), rest)
    {
      hide Takes, Pending, Cancels, PutBehind;
      hide Inv, Put, CancelSlot, Drop, VerdictOf, Broken;
      HitSlots(Model(), task);
      ActTakes(Model(), task);
      match task
      case Insert(name, when, job, next) =>
        At(Handle(name), Due(now, when), job);
        return next;
      case Cancel(slot, hit, miss) =>
        var verdict := Cancel(slot);
        return if verdict == Cancelled then hit else miss;
      case Rearm(name, Abs(ts), job, hit, miss) =>
        var wasCancelled := TimeoutAt(name, ts, job);
        return if wasCancelled then hit else miss;
      case Rearm(name, Rel(delay), job, hit, miss) =>
        var wasCancelled := TimeoutIn(name, delay, job);
        return if wasCancelled then hit else miss;
      case Destroy(name, next) =>
        DestroyTimeout(name);
        return next;
      case Socket(_, next) =>
        return next;
      case Query(_, next) =>
        return next;
    }

    /** Executes client code: the body of a task, or code outside of any. */
    method Execute(task: Task)
      requires Valid()
      modifies this
      ensures Valid() && Model() == Exec(old(Model()), task)
      ensures Leads(Config(old(Model()), task), Config(Model(), Done))
      decreases task
    {
      hide Inv, Broken, Leads, Takes;
      ExecLeads(Model(), task);
      if !task.Done? {
        var rest := Perform(task);
        Execute(rest);
      }
    }

    method Empty() returns (r: bool)
      ensures r <==> queue == []
    {
      r := queue == [];
    }

    /** The clock the schedule refers to has been looked at again. */
    method SetClock(now: int)
      requires Valid()
      modifies this`now
      ensures Valid() && Model() == old(Model()).(now := now)
    {
      hide Inv, Broken;
      WaitKeeps(Model(), now - this.now);
      SameCalls(Model(), Model().(now := now));
      this.now := now;
    }

    /** Takes the first entry off the queue, if it is due. */
    method TakeDue() returns (job: Option<Entry>)
      requires Valid()
      modifies this
      ensures Valid() && (job.Some? <==> old(queue) != [] && old(queue)[0].key <= now)
      ensures job.Some? ==> job.value == old(queue)[0] && queue == old(queue)[1..] && Model() == Pop(old(Model()))
      ensures job.None? ==> Model() == old(Model())
    {
      if queue != [] {
        var i := queue[0];
        if i.key <= now {
          PopKeeps(Model());
          SameCalls(Model(), Pop(Model()));
          queue := queue[1..];
          executed := executed + [Firing(i, now)];
          return Some(i);
        }
      }
      return None;
    }

    /** What run returns when nothing is due any more. */
    method Distance() returns (seconds: nat)
      ensures seconds == SecondsLeft(Model())
    {
      seconds := if queue == [] then 0 else (queue[0].key - now) % SECONDS_RANGE;
    }

    /** run, as far as it concerns the timers: what jobs do elsewhere is up to Core. */
    method Run() returns (seconds: nat)
      requires Valid()
      modifies this
      ensures Valid() && Model() == RunDue(old(Model()))
      ensures Leads(Config(old(Model()), Done), Config(Model(), Done))
      ensures seconds == SecondsLeft(Model())
      ensures forall i :: 0 <= i < |queue| ==> queue[i].key > now
      ensures queue != [] ==> seconds == (queue[0].key - now) % 0x1_0000_0000
    {
      hide Leads;
      ghost var st := Model();
      RunLeads(st);
      while true
        invariant Valid() && RunDue(Model()) == RunDue(st)
        decreases Work(queue)
      {
        ghost var before := Model();
        var job := TakeDue();
        if job.None? {
          OrderedQueue(before);
          break;
        }
        ExecShrinks(Pop(before), job.value.value.task);
        Execute(job.value.value.task);
      }
      seconds := Distance();
    }
  }
}
