/** What the timer queue guarantees over every run of every program. */
module TimerTheorems {
  import opened Multimap
  import opened Timers

  /** Execution order: by time stamp, then by insertion. */
  predicate Before(a: Entry, b: Entry) {
    a.key < b.key || (a.key == b.key && a.value.id < b.value.id)
  }

  ghost predicate IsInserted(st: State, e: Entry) {
    e.value.id < |st.inserted| && st.inserted[e.value.id] == e
  }

  ghost predicate QueueOk(st: State) {
    && (forall i, j :: 0 <= i < j < |st.queue| ==> Before(st.queue[i], st.queue[j]))
    && (forall i :: 0 <= i < |st.queue| ==> IsInserted(st, st.queue[i]))
  }

  function Below(n: nat): (s: set<nat>)
    ensures forall id: nat :: id in s <==> id < n
  {
    if n == 0 then {} else Below(n - 1) + {n - 1}
  }

  /** Conservation: every insertion is exactly one of pending, executed and cancelled. */
  ghost predicate Conserved(st: State) {
    && Ids(st.queue) !! Fired(st.executed) !! st.cancelled
    && Ids(st.queue) + Fired(st.executed) + st.cancelled == Below(|st.inserted|)
  }

  /** Every execution is of an inserted task, happens once, and not before its time. */
  ghost predicate Punctual(st: State) {
    && (forall i :: 0 <= i < |st.executed| ==>
          IsInserted(st, st.executed[i].entry) && st.executed[i].entry.key <= st.executed[i].at)
    && (forall i, j :: 0 <= i < j < |st.executed| ==>
          st.executed[i].entry.value.id != st.executed[j].entry.value.id)
  }

  ghost predicate Live(st: State, slot: Slot) {
    slot in st.handles && st.handles[slot].ts != 0
  }

  /** A live handle names an insertion of its own that was never cancelled; no two name
      the same. */
  ghost predicate HandlesOk(st: State) {
    && (forall s :: Live(st, s) ==>
          && st.handles[s].id < |st.inserted|
          && st.inserted[st.handles[s].id].key == st.handles[s].ts
          && st.inserted[st.handles[s].id].value.owner == OwnerOf(s)
          && st.handles[s].id !in st.cancelled)
    && (forall s, t :: Live(st, s) && Live(st, t) && s != t ==> st.handles[s].id != st.handles[t].id)
  }

  /** Executed tasks are in order, and none of them is later than a pending one. */
  ghost predicate OrderOk(st: State) {
    && (forall i, j :: 0 <= i < j < |st.executed| ==> Before(st.executed[i].entry, st.executed[j].entry))
    && (forall i, j :: 0 <= i < |st.executed| && 0 <= j < |st.queue| ==> Before(st.executed[i].entry, st.queue[j]))
    && (forall id :: 0 <= id < |st.inserted| ==> st.inserted[id].key != 0)
  }

  /** A pending entry armed by a timeout object is the one that object refers to. */
  ghost predicate OwnersOk(st: State) {
    forall i :: 0 <= i < |st.queue| && st.queue[i].value.owner.Some? ==>
      var s := Timeout(st.queue[i].value.owner.value);
      s in st.handles && st.handles[s] == TaskId(st.queue[i].key, st.queue[i].value.id)
  }

  /** Every cancel call hit exactly when its task was pending, and erased nothing else. */
  ghost predicate CallsOk(st: State) {
    forall i :: 0 <= i < |st.calls| ==>
      && (st.calls[i].verdict.Cancelled? <==> st.calls[i].wasPending)
      && !st.calls[i].verdict.Dangling?
  }

  ghost predicate Inv(st: State) {
    && QueueOk(st) && Conserved(st) && Punctual(st) && HandlesOk(st)
    && (st.lawful ==> OrderOk(st) && OwnersOk(st) && CallsOk(st))
  }

  ghost predicate Unowned(st: State, name: nat) {
    forall i :: 0 <= i < |st.queue| ==> st.queue[i].value.owner != Some(name)
  }

  // Facts about the queue alone

  lemma FindAt(q: seq<Entry>, i: nat)
    requires i < |q|
    requires forall j, k :: 0 <= j < k < |q| ==> q[j].value.id != q[k].value.id
    ensures Find(q, q[i].value.id) == i
  {
  }

  lemma DistinctIds(st: State)
    requires QueueOk(st)
    ensures forall j, k :: 0 <= j < k < |st.queue| ==> st.queue[j].value.id != st.queue[k].value.id
  {
    forall j, k | 0 <= j < k < |st.queue| ensures st.queue[j].value.id != st.queue[k].value.id {
      assert Before(st.queue[j], st.queue[k]);
      assert IsInserted(st, st.queue[j]) && IsInserted(st, st.queue[k]);
    }
  }

  lemma OrderedQueue(st: State)
    requires QueueOk(st)
    ensures Ordered(st.queue)
  {
    forall i, j | 0 <= i < j < |st.queue| ensures st.queue[i].key <= st.queue[j].key {
      assert Before(st.queue[i], st.queue[j]);
    }
  }

  /** Removing an entry takes out its own id and keeps the others, in their order. */
  lemma RemoveIds(st: State, id: nat)
    requires QueueOk(st) && id in Ids(st.queue)
    ensures Ids(Remove(st.queue, id)) == Ids(st.queue) - {id}
    ensures var i := Find(st.queue, id); i < |st.queue| && Remove(st.queue, id) == st.queue[..i] + st.queue[i + 1..]
  {
    DistinctIds(st);
    var i := Find(st.queue, id);
    assert i < |st.queue|;
    var r := Remove(st.queue, id);
    forall x | x in Ids(st.queue) - {id} ensures x in Ids(r) {
      var k: nat :| k < |st.queue| && st.queue[k].value.id == x;
      assert r[if k < i then k else k - 1] == st.queue[k];
    }
  }

  lemma InsertIds(q: seq<Entry>, e: Entry)
    ensures Ids(Multimap.Insert(q, e)) == Ids(q) + {e.value.id}
  {
    var p := UpperBound(q, e.key);
    var r := Multimap.Insert(q, e);
    assert r[p] == e;
    forall x | x in Ids(q) ensures x in Ids(r) {
      var k: nat :| k < |q| && q[k].value.id == x;
      assert r[if k < p then k else k + 1] == q[k];
    }
  }

  // Put

  lemma PutSorted(st: State, e: Entry)
    requires QueueOk(st) && e.value.id == |st.inserted|
    ensures var q' := Multimap.Insert(st.queue, e);
            forall i, j :: 0 <= i < j < |q'| ==> Before(q'[i], q'[j])
  {
    OrderedQueue(st);
    var p, q, q' := UpperBound(st.queue, e.key), st.queue, Multimap.Insert(st.queue, e);
    assert forall i :: 0 <= i < |q| ==> IsInserted(st, q[i]);
    InsertAt(q, e, 0);
    hide QueueOk, Multimap.Insert, UpperBound;
    forall i, j | 0 <= i < j < |q'| ensures Before(q'[i], q'[j]) {
      InsertAt(q, e, i);
      InsertAt(q, e, j);
      if i == p {
        assert q[p].key <= q[j - 1].key;
      }
    }
  }

  lemma PutQueue(st: State, slot: Slot, ts: int, job: Task)
    requires QueueOk(st)
    ensures QueueOk(Put(st, slot, ts, job))
  {
    var st' := Put(st, slot, ts, job);
    var e := st'.inserted[|st.inserted|];
    PutSorted(st, e);
    var p := UpperBound(st.queue, ts);
    forall i | 0 <= i < |st'.queue| ensures IsInserted(st', st'.queue[i]) {
      assert st'.queue[i] == if i < p then st.queue[i] else if i == p then e else st.queue[i - 1];
      assert i < p ==> IsInserted(st, st.queue[i]);
      assert i > p ==> IsInserted(st, st.queue[i - 1]);
    }
  }

  lemma PutLedger(st: State, slot: Slot, ts: int, job: Task)
    requires Conserved(st) && Punctual(st) && HandlesOk(st)
    ensures var st' := Put(st, slot, ts, job); Conserved(st') && Punctual(st') && HandlesOk(st')
  {
    var st' := Put(st, slot, ts, job);
    var e := st'.inserted[|st.inserted|];
    InsertIds(st.queue, e);
    forall i | 0 <= i < |st.executed| ensures IsInserted(st', st.executed[i].entry) {
      assert IsInserted(st, st.executed[i].entry);
    }
    forall s | Live(st', s)
      ensures s != slot ==> Live(st, s) && st'.handles[s] == st.handles[s]
    {
    }
  }

  lemma PutOrder(st: State, slot: Slot, ts: int, job: Task)
    requires QueueOk(st) && Punctual(st) && OrderOk(st) && LawfulAt(st, ts)
    ensures OrderOk(Put(st, slot, ts, job))
  {
    var st' := Put(st, slot, ts, job);
    var p := UpperBound(st.queue, ts);
    forall i, j | 0 <= i < |st.executed| && 0 <= j < |st'.queue|
      ensures Before(st.executed[i].entry, st'.queue[j])
    {
      assert IsInserted(st, st.executed[i].entry);
      assert j < p ==> st'.queue[j] == st.queue[j];
      assert j > p ==> st'.queue[j] == st.queue[j - 1];
    }
  }

  lemma PutOwners(st: State, slot: Slot, ts: int, job: Task)
    requires OwnersOk(st)
    requires slot.Timeout? ==> Unowned(st, slot.name)
    ensures OwnersOk(Put(st, slot, ts, job))
  {
    var st' := Put(st, slot, ts, job);
    var p := UpperBound(st.queue, ts);
    forall i | 0 <= i < |st'.queue| && st'.queue[i].value.owner.Some?
      ensures var s := Timeout(st'.queue[i].value.owner.value);
              s in st'.handles && st'.handles[s] == TaskId(st'.queue[i].key, st'.queue[i].value.id)
    {
      assert i < p ==> st'.queue[i] == st.queue[i];
      assert i > p ==> st'.queue[i] == st.queue[i - 1];
    }
  }

  lemma PutKeeps(st: State, slot: Slot, ts: int, job: Task)
    requires Inv(st)
    requires st.lawful && slot.Timeout? ==> Unowned(st, slot.name)
    ensures Inv(Put(st, slot, ts, job))
  {
    PutQueue(st, slot, ts, job);
    PutLedger(st, slot, ts, job);
    if Put(st, slot, ts, job).lawful {
      PutOrder(st, slot, ts, job);
      PutOwners(st, slot, ts, job);
    }
  }

  // Cancel

  /** The heart of the matter: time stamps alone tell a stale handle from a pending one. */
  lemma VerdictExact(st: State, slot: Slot)
    requires Inv(st)
    ensures var tid := HandleOf(st, slot);
            var v := VerdictOf(st.queue, tid);
            && (v.Cancelled? <==> tid.ts != 0 && tid.id in Ids(st.queue))
            && (st.lawful ==> !v.Dangling?)
  {
    var tid := HandleOf(st, slot);
    if Live(st, slot) && st.lawful && st.queue != [] && tid.id in Fired(st.executed) {
      var k: nat :| k < |st.executed| && st.executed[k].entry.value.id == tid.id;
      assert IsInserted(st, st.executed[k].entry);
      assert Before(st.executed[k].entry, st.queue[0]);
    }
  }

  lemma HitQueue(st: State, slot: Slot)
    requires QueueOk(st) && Hit(st, slot)
    ensures QueueOk(CancelSlot(st, slot))
    ensures OrderOk(st) ==> OrderOk(CancelSlot(st, slot))
  {
    var st' := CancelSlot(st, slot);
    RemoveIds(st, HandleOf(st, slot).id);
    var k := Find(st.queue, HandleOf(st, slot).id);
    forall i | 0 <= i < |st'.queue|
      ensures st'.queue[i] == st.queue[if i < k then i else i + 1] && IsInserted(st', st'.queue[i])
    {
      assert IsInserted(st, st.queue[if i < k then i else i + 1]);
    }
  }

  lemma HitLedger(st: State, slot: Slot)
    requires QueueOk(st) && Conserved(st) && Punctual(st) && HandlesOk(st) && Hit(st, slot)
    ensures var st' := CancelSlot(st, slot); Conserved(st') && Punctual(st') && HandlesOk(st')
  {
    var st' := CancelSlot(st, slot);
    RemoveIds(st, HandleOf(st, slot).id);
    assert Live(st, slot);
    assert forall e :: IsInserted(st, e) ==> IsInserted(st', e);
    forall s | Live(st', s) ensures s != slot && Live(st, s) && st'.handles[s] == st.handles[s] {
    }
  }

  lemma MissKeeps(st: State, slot: Slot)
    requires Inv(st) && !Hit(st, slot)
    ensures Inv(CancelSlot(st, slot))
  {
    VerdictExact(st, slot);
    var st' := CancelSlot(st, slot);
    assert forall e :: IsInserted(st, e) ==> IsInserted(st', e);
    assert forall s :: Live(st', s) ==> Live(st, s);
  }

  lemma CancelKeeps(st: State, slot: Slot)
    requires Inv(st)
    ensures Inv(CancelSlot(st, slot))
    ensures st.lawful && slot.Timeout? ==> Unowned(CancelSlot(st, slot), slot.name)
  {
    if Hit(st, slot) {
      VerdictExact(st, slot);
      HitQueue(st, slot);
      HitLedger(st, slot);
      if st.lawful {
        CancelOwners(st, slot);
      }
    } else {
      MissKeeps(st, slot);
      if st.lawful && slot.Timeout? {
        MissedUnowned(st, slot);
      }
    }
  }

  lemma RemainingOwner(st: State, slot: Slot, i: nat)
    requires QueueOk(st) && OwnersOk(st) && Hit(st, slot) && i < |CancelSlot(st, slot).queue|
    requires CancelSlot(st, slot).queue[i].value.owner.Some?
    ensures var e := CancelSlot(st, slot).queue[i];
            var s := Timeout(e.value.owner.value);
            s != slot && s in st.handles && st.handles[s] == TaskId(e.key, e.value.id)
  {
    var tid := HandleOf(st, slot);
    RemoveIds(st, tid.id);
    DistinctIds(st);
    var k := Find(st.queue, tid.id);
    var j := if i < k then i else i + 1;
    assert CancelSlot(st, slot).queue[i] == st.queue[j];
    assert st.queue[j].value.id != tid.id;
  }

  lemma CancelOwners(st: State, slot: Slot)
    requires QueueOk(st) && OwnersOk(st) && Hit(st, slot)
    ensures OwnersOk(CancelSlot(st, slot))
    ensures slot.Timeout? ==> Unowned(CancelSlot(st, slot), slot.name)
  {
    hide QueueOk, VerdictOf, Remove;
    var st' := CancelSlot(st, slot);
    forall i | 0 <= i < |st'.queue| && st'.queue[i].value.owner.Some?
      ensures var s := Timeout(st'.queue[i].value.owner.value);
              s != slot && s in st.handles && st.handles[s] == TaskId(st'.queue[i].key, st'.queue[i].value.id)
    {
      RemainingOwner(st, slot, i);
    }
  }

  lemma MissedUnowned(st: State, slot: Slot)
    requires Inv(st) && st.lawful && slot.Timeout? && !Hit(st, slot)
    ensures Unowned(st, slot.name)
  {
    VerdictExact(st, slot);
    forall i | 0 <= i < |st.queue| ensures st.queue[i].value.owner != Some(slot.name) {
      assert IsInserted(st, st.queue[i]);
      assert st.queue[i].value.id in Ids(st.queue);
    }
  }

  lemma DropKeeps(st: State, name: nat)
    requires Inv(st) && (st.lawful ==> Unowned(st, name))
    ensures Inv(Drop(st, Timeout(name)))
  {
    var st' := Drop(st, Timeout(name));
    forall i | 0 <= i < |st.queue| ensures IsInserted(st', st.queue[i]) {
      assert IsInserted(st, st.queue[i]);
    }
    forall i | 0 <= i < |st.executed| ensures IsInserted(st', st.executed[i].entry) {
      assert IsInserted(st, st.executed[i].entry);
    }
    forall s | Live(st', s) ensures Live(st, s) {
    }
  }

  // Running

  lemma PopIds(st: State)
    requires QueueOk(st) && HasDue(st)
    ensures Ids(Pop(st).queue) == Ids(st.queue) - {st.queue[0].value.id}
    ensures Fired(Pop(st).executed) == Fired(st.executed) + {st.queue[0].value.id}
  {
    DistinctIds(st);
    var st' := Pop(st);
    var n, id0 := |st.executed|, st.queue[0].value.id;
    forall x | x in Ids(st.queue) ensures x == id0 || x in Ids(st'.queue) {
      var k: nat :| k < |st.queue| && st.queue[k].value.id == x;
      assert k > 0 ==> st'.queue[k - 1] == st.queue[k];
    }
    assert st'.executed[n].entry.value.id == id0;
    forall x | x in Fired(st.executed) ensures x in Fired(st'.executed) {
      var k: nat :| k < n && st.executed[k].entry.value.id == x;
      assert st'.executed[k] == st.executed[k];
    }
  }

  lemma PopPunctual(st: State)
    requires QueueOk(st) && Conserved(st) && Punctual(st) && HasDue(st)
    ensures Punctual(Pop(st))
  {
    var st' := Pop(st);
    var n := |st.executed|;
    forall i | 0 <= i < |st'.executed|
      ensures IsInserted(st', st'.executed[i].entry) && st'.executed[i].entry.key <= st'.executed[i].at
      ensures i < n ==> st'.executed[i].entry.value.id != st.queue[0].value.id
    {
      if i < n {
        assert st'.executed[i] == st.executed[i] && IsInserted(st, st.executed[i].entry);
        assert st.executed[i].entry.value.id in Fired(st.executed);
        assert st.queue[0].value.id in Ids(st.queue);
      } else {
        assert IsInserted(st, st.queue[0]);
      }
    }
  }

  lemma PopKeeps(st: State)
    requires Inv(st) && HasDue(st)
    ensures Inv(Pop(st))
  {
    var st' := Pop(st);
    PopIds(st);
    PopPunctual(st);
    assert forall i :: 0 <= i < |st'.queue| ==> st'.queue[i] == st.queue[i + 1];
    assert forall e :: IsInserted(st, e) ==> IsInserted(st', e);
    assert forall s :: Live(st', s) ==> Live(st, s);
  }

  lemma ActKeeps(st: State, task: Task)
    requires Inv(st) && !task.Done?
    ensures Inv(Act(st, task))
  {
    match task
    case Insert(name, when, job, _) =>
      PutKeeps(st, Handle(name), Due(st.now, when), job);
    case Cancel(slot, _, _) =>
      CancelKeeps(st, slot);
    case Rearm(name, when, job, _, _) =>
      CancelKeeps(st, Timeout(name));
      PutKeeps(CancelSlot(st, Timeout(name)), Timeout(name), Due(st.now, when), job);
    case Destroy(name, _) =>
      CancelKeeps(st, Timeout(name));
      DropKeeps(CancelSlot(st, Timeout(name)), name);
    case Socket(_, _) =>
    case Query(_, _) =>
  }

  lemma {:induction false} ExecKeeps(st: State, task: Task)
    requires Inv(st)
    ensures Inv(Exec(st, task))
    decreases task
  {
    if !task.Done? {
      ActKeeps(st, task);
      ExecKeeps(Act(st, task), Rest(st, task));
    }
  }

  lemma {:induction false} RunDueKeeps(st: State)
    requires Inv(st)
    ensures Inv(RunDue(st))
    decreases Work(st.queue)
  {
    if HasDue(st) {
      PopKeeps(st);
      ExecKeeps(Pop(st), st.queue[0].value.task);
      ExecShrinks(Pop(st), st.queue[0].value.task);
      RunDueKeeps(Exec(Pop(st), st.queue[0].value.task));
    }
  }

  lemma WaitKeeps(st: State, elapsed: int)
    requires Inv(st)
    ensures Inv(Next(st, Wait(elapsed)))
  {
    var st' := Next(st, Wait(elapsed));
    assert forall e :: IsInserted(st, e) ==> IsInserted(st', e);
    assert forall s :: Live(st', s) ==> Live(st, s);
  }

  /** The invariant holds throughout every program, lawful or not. */
  lemma {:induction false} ProgramKeeps(st: State, steps: seq<Step>)
    requires Inv(st)
    ensures Inv(Program(st, steps))
    decreases |steps|
  {
    if steps != [] {
      match steps[0] {
        case Client(task) => ExecKeeps(st, task);
        case Run => RunDueKeeps(st);
        case Wait(elapsed) => WaitKeeps(st, elapsed);
      }
      ProgramKeeps(Next(st, steps[0]), steps[1..]);
    }
  }

  function After(now: int, steps: seq<Step>): State {
    Program(Initial(now), steps)
  }

  lemma Reachable(now: int, steps: seq<Step>)
    ensures Inv(After(now, steps))
  {
    ProgramKeeps(Initial(now), steps);
  }

  /** Cancelling, after any lawful program: the call hits exactly when the entry is still
      pending, then takes out that entry alone, and never erases a foreign one. */
  lemma CancelSound(now: int, steps: seq<Step>, slot: Slot)
    requires After(now, steps).lawful
    ensures var st := After(now, steps);
            var tid := HandleOf(st, slot);
            && (VerdictOf(st.queue, tid).Cancelled? <==> tid.ts != 0 && tid.id in Ids(st.queue))
            && !VerdictOf(st.queue, tid).Dangling?
            && (tid.ts != 0 && tid.id in Ids(st.queue) ==>
                  exists i :: 0 <= i < |st.queue| && st.queue[i].value.id == tid.id && st.queue[i].key == tid.ts
                              && CancelSlot(st, slot).queue == st.queue[..i] + st.queue[i + 1..])
            && (tid.ts == 0 || tid.id !in Ids(st.queue) ==> CancelSlot(st, slot).queue == st.queue)
  {
    Reachable(now, steps);
    var st := After(now, steps);
    VerdictExact(st, slot);
    if Hit(st, slot) {
      RemoveIds(st, HandleOf(st, slot).id);
      var i := Find(st.queue, HandleOf(st, slot).id);
      assert Live(st, slot) && IsInserted(st, st.queue[i]);
    }
  }

  /** The same for every cancel call that tasks and clients made on the way. */
  lemma CallsSound(now: int, steps: seq<Step>, i: nat)
    requires After(now, steps).lawful && i < |After(now, steps).calls|
    ensures var call := After(now, steps).calls[i];
            (call.verdict.Cancelled? <==> call.wasPending) && !call.verdict.Dangling?
  {
    Reachable(now, steps);
  }

  // When a cancel call leaves defined behaviour

  predicate Faulty(v: Verdict) { v.PastEnd? || v.Dangling? }

  /** Some cancel call has. */
  ghost predicate Broken(st: State) {
    exists i :: 0 <= i < |st.calls| && Faulty(st.calls[i].verdict)
  }

  /** The guard of the bad branches: the handle's task has been executed while something is
      pending, and the first key is smaller than its time stamp or every key equals it. */
  ghost predicate Stale(st: State, slot: Slot) {
    var tid := HandleOf(st, slot);
    && tid.ts != 0 && tid.id in Fired(st.executed) && st.queue != []
    && (st.queue[0].key < tid.ts || forall i :: 0 <= i < |st.queue| ==> st.queue[i].key == tid.ts)
  }

  lemma FaultExact(st: State, slot: Slot)
    requires Inv(st)
    ensures Faulty(VerdictOf(st.queue, HandleOf(st, slot))) <==> Stale(st, slot)
    ensures Broken(CancelSlot(st, slot)) <==> Broken(st) || Stale(st, slot)
  {
    VerdictExact(st, slot);
    if HandleOf(st, slot).ts != 0 {
      assert Live(st, slot);
    }
    OneMoreCall(st, CancelSlot(st, slot), VerdictOf(st.queue, HandleOf(st, slot)));
  }

  lemma SameCalls(st: State, st': State)
    requires st'.calls == st.calls
    ensures Broken(st') <==> Broken(st)
  {
  }

  lemma OneMoreCall(st: State, st': State, v: Verdict)
    requires |st'.calls| == |st.calls| + 1 && st.calls <= st'.calls && st'.calls[|st.calls|].verdict == v
    ensures Broken(st') <==> Broken(st) || Faulty(v)
  {
    if Broken(st) {
      var i :| 0 <= i < |st.calls| && Faulty(st.calls[i].verdict);
      assert st'.calls[i] == st.calls[i];
    }
    assert Faulty(v) ==> Faulty(st'.calls[|st.calls|].verdict);
    assert forall i :: 0 <= i < |st.calls| ==> st'.calls[i] == st.calls[i];
  }

  /** After any program whatsoever, the calls that do are exactly those with this guard. */
  lemma CancelFaults(now: int, steps: seq<Step>, slot: Slot)
    ensures var st := After(now, steps);
            Faulty(VerdictOf(st.queue, HandleOf(st, slot))) <==> Stale(st, slot)
  {
    Reachable(now, steps);
    FaultExact(After(now, steps), slot);
  }

  /** The clock is not behind what has been executed. */
  ghost predicate NotSetBack(st: State) {
    forall i :: 0 <= i < |st.executed| ==> st.executed[i].entry.key <= st.now
  }

  /** Right after a run, on a clock that was not set back, no cancel call can. */
  lemma NoFaultAfterRun(st: State, slot: Slot)
    requires Inv(st) && NotSetBack(st) && !HasDue(st)
    ensures !Stale(st, slot)
  {
    if Stale(st, slot) {
      ExecutedKey(st, slot);
    }
  }

  /** Later in the same turn a call does exactly for a task executed at its very second, if
      all that is pending is due in that second. */
  lemma FaultsLater(st: State, slot: Slot)
    requires Inv(st) && NotSetBack(st)
    requires forall i :: 0 <= i < |st.queue| ==> st.queue[i].key >= st.now
    ensures var tid := HandleOf(st, slot);
            Stale(st, slot) <==>
              && tid.ts == st.now != 0 && tid.id in Fired(st.executed) && st.queue != []
              && forall i :: 0 <= i < |st.queue| ==> st.queue[i].key == st.now
  {
    var tid := HandleOf(st, slot);
    if tid.ts != 0 && tid.id in Fired(st.executed) && st.queue != [] {
      ExecutedKey(st, slot);
      assert st.queue[0].key >= st.now;
    }
  }

  lemma ExecutedKey(st: State, slot: Slot)
    requires Inv(st) && HandleOf(st, slot).ts != 0 && HandleOf(st, slot).id in Fired(st.executed)
    ensures exists i :: 0 <= i < |st.executed| && st.executed[i].entry.key == HandleOf(st, slot).ts
  {
    var k: nat :| k < |st.executed| && st.executed[k].entry.value.id == HandleOf(st, slot).id;
    assert IsInserted(st, st.executed[k].entry) && Live(st, slot);
  }

  /** A timeout is armed for nine seconds and fires; cancelling it finds the queue empty and
      leaves the handle as it is; something is inserted for the same second. */
  function RefireSteps(name: nat, other: nat): seq<Step> {
    [Client(Rearm(name, Rel(9), Done, Done, Done)), Wait(9), Run, Client(Cancel(Timeout(name), Done, Done)),
     Client(Task.Insert(other, Rel(0), Done, Done))]
  }

  function FiredState(name: nat): State {
    var e := Pair(10, Job(0, Some(name), Done));
    State(10, [], map[Timeout(name) := TaskId(10, 0)], [e], [Firing(e, 10)], {}, [Call(NotPending, false)], true)
  }

  lemma ArmedAndFired(name: nat)
    ensures RunDue(Exec(Initial(1), Rearm(name, Rel(9), Done, Done, Done)).(now := 10)) == FiredState(name)
  {
    var st := Put(CancelSlot(Initial(1), Timeout(name)), Timeout(name), 10, Done);
    assert Exec(Initial(1), Rearm(name, Rel(9), Done, Done, Done)) == Exec(st, Done) == st;
    var st' := st.(now := 10);
    assert HasDue(st') && Exec(Pop(st'), Done) == Pop(st') == FiredState(name);
    assert RunDue(st') == RunDue(Pop(st'));
  }

  lemma StaleThen(name: nat, other: nat)
    ensures var st := Exec(FiredState(name), Cancel(Timeout(name), Done, Done));
            var st' := Exec(st, Task.Insert(other, Rel(0), Done, Done));
            Stale(st', Timeout(name)) && VerdictOf(st'.queue, HandleOf(st', Timeout(name))).PastEnd?
  {
    var st0 := FiredState(name);
    var st := CancelSlot(st0, Timeout(name));
    assert Exec(st0, Cancel(Timeout(name), Done, Done)) == Exec(st, Done) == st;
    var st' := Put(st, Handle(other), 10, Done);
    assert Exec(st, Task.Insert(other, Rel(0), Done, Done)) == Exec(st', Done) == st';
    assert st'.queue == [Pair(10, Job(1, None, Done))];
    assert st'.executed[0].entry.value.id == 0;
  }

  lemma RelativeRefire(name: nat, other: nat)
    ensures RelativeProgram(RefireSteps(name, other)) && After(1, RefireSteps(name, other)).lawful
  {
    RelativeIsLawful(Initial(1), RefireSteps(name, other));
  }

  /** Arming the timeout again then scans off the queue, although everything is relative to
      a clock that runs forwards. */
  lemma RearmFaults(name: nat, other: nat)
    ensures var steps := RefireSteps(name, other);
            && RelativeProgram(steps) && After(1, steps).lawful
            && Stale(After(1, steps), Timeout(name))
            && VerdictOf(After(1, steps).queue, HandleOf(After(1, steps), Timeout(name))).PastEnd?
  {
    var steps := RefireSteps(name, other);
    RelativeRefire(name, other);
    ArmedAndFired(name);
    StaleThen(name, other);
    hide RunDue, Exec, Stale, FiredState, VerdictOf;
    var st1 := Exec(Initial(1), Rearm(name, Rel(9), Done, Done, Done));
    var st4 := Exec(FiredState(name), Cancel(Timeout(name), Done, Done));
    ExecShrinks(Initial(1), Rearm(name, Rel(9), Done, Done, Done));
    hide Program;
    FirstStep(Initial(1), steps[0], [steps[1], Run, steps[3], steps[4]]);
    FirstStep(st1, steps[1], [Run, steps[3], steps[4]]);
    FirstStep(st1.(now := 10), Run, [steps[3], steps[4]]);
    FirstStep(FiredState(name), steps[3], [steps[4]]);
    FirstStep(st4, steps[4], []);
    FirstStep(Exec(st4, Task.Insert(other, Rel(0), Done, Done)), Run, []);
  }

  lemma FirstStep(st: State, step: Step, steps: seq<Step>)
    ensures Program(st, [step] + steps) == Program(Next(st, step), steps)
    ensures Program(st, []) == st
  {
    assert ([step] + steps)[1..] == steps;
  }

  /** A task is executed at time 10; another one is inserted for `ts`; then the handle of
      the first is cancelled. */
  function StaleCancel(ts: int): Verdict {
    var st := After(10, [Client(Task.Insert(0, Abs(10), Done, Done)), Run, Client(Task.Insert(1, Abs(ts), Done, Done))]);
    VerdictOf(st.queue, HandleOf(st, Handle(0)))
  }

  /** An insertion before a time stamp already executed is what breaks cancelling; and even
      a lawful program runs off the queue if all that is pending has the same time stamp. */
  lemma StaleCancelFaults(ts: int)
    ensures StaleCancel(ts) == if ts < 10 then Dangling else if ts == 10 then PastEnd else NotPending
  {
    var steps := [Client(Task.Insert(0, Abs(10), Done, Done)), Run, Client(Task.Insert(1, Abs(ts), Done, Done))];
    var st0 := Initial(10);
    var st1 := Put(st0, Handle(0), 10, Done);
    assert Next(st0, steps[0]) == Exec(st1, Done) == st1;
    var st2 := Pop(st1);
    assert HasDue(st1) && Exec(st2, Done) == st2 && !HasDue(st2);
    assert RunDue(st1) == RunDue(st2) == st2;
    var st3 := Put(st2, Handle(1), ts, Done);
    assert Next(st2, steps[2]) == Exec(st3, Done) == st3;
    assert steps[1..][0] == Run && steps[1..][1..] == [steps[2]];
    assert Program(st2, [steps[2]]) == st3;
    assert Program(st1, steps[1..]) == st3;
    assert st3.queue == [Pair(ts, Job(1, None, Done))];
  }

  /** Execution order and conservation, after any program; order needs it lawful. */
  lemma ExecutionOrder(now: int, steps: seq<Step>, i: nat, j: nat)
    requires i < j < |After(now, steps).executed|
    ensures var fs := After(now, steps).executed;
            && fs[i].entry.key <= fs[i].at
            && fs[i].entry.value.id != fs[j].entry.value.id
            && (After(now, steps).lawful ==> Before(fs[i].entry, fs[j].entry))
  {
    Reachable(now, steps);
  }

  lemma ExactlyOneFate(now: int, steps: seq<Step>, id: nat)
    requires id < |After(now, steps).inserted|
    ensures var st := After(now, steps);
            var pending, executed, cancelled := id in Ids(st.queue), id in Fired(st.executed), id in st.cancelled;
            && (pending || executed || cancelled)
            && !(pending && executed) && !(pending && cancelled) && !(executed && cancelled)
  {
    Reachable(now, steps);
    assert id in Below(|After(now, steps).inserted|);
  }

  /** run leaves nothing due, and returns the distance to the earliest pending task;
      the 32-bit cast spoils that exactly when the distance does not fit. */
  lemma {:induction false} RunDueExhausts(st: State)
    ensures !HasDue(RunDue(st)) && RunDue(st).now == st.now
    decreases Work(st.queue)
  {
    if HasDue(st) {
      ExecShrinks(Pop(st), st.queue[0].value.task);
      RunDueExhausts(Exec(Pop(st), st.queue[0].value.task));
    }
  }

  lemma RunResult(now: int, steps: seq<Step>)
    ensures var st := RunDue(After(now, steps));
            && (forall i :: 0 <= i < |st.queue| ==> st.queue[i].key > st.now)
            && (st.queue == [] ==> SecondsLeft(st) == 0)
            && (st.queue != [] ==>
                  && (forall i :: 0 <= i < |st.queue| ==> st.queue[0].key <= st.queue[i].key)
                  && (SecondsLeft(st) == st.queue[0].key - st.now <==> st.queue[0].key - st.now < 0x1_0000_0000))
  {
    Reachable(now, steps);
    RunDueKeeps(After(now, steps));
    RunDueExhausts(After(now, steps));
    OrderedQueue(RunDue(After(now, steps)));
  }

  // Timeout objects

  lemma OwnedEntry(st: State, name: nat, i: nat)
    requires Inv(st) && st.lawful && i < |st.queue| && st.queue[i].value.owner == Some(name)
    ensures HandleOf(st, Timeout(name)) == TaskId(st.queue[i].key, st.queue[i].value.id)
    ensures Hit(st, Timeout(name)) && Find(st.queue, st.queue[i].value.id) == i
    ensures CancelSlot(st, Timeout(name)).queue == st.queue[..i] + st.queue[i + 1..]
  {
    VerdictExact(st, Timeout(name));
    DistinctIds(st);
    assert IsInserted(st, st.queue[i]);
    assert st.queue[i].value.id in Ids(st.queue);
    FindAt(st.queue, i);
  }

  lemma NothingOwned(st: State, name: nat)
    requires Inv(st) && Unowned(st, name)
    ensures CancelSlot(st, Timeout(name)).queue == st.queue
  {
    if Hit(st, Timeout(name)) {
      HitOwned(st, name);
    }
  }

  lemma HitOwned(st: State, name: nat)
    requires Inv(st) && Hit(st, Timeout(name))
    ensures !Unowned(st, name)
  {
    VerdictExact(st, Timeout(name));
    var i: nat :| i < |st.queue| && st.queue[i].value.id == HandleOf(st, Timeout(name)).id;
    assert Live(st, Timeout(name)) && IsInserted(st, st.queue[i]);
  }

  /** A timeout object owns at most one pending entry, and cancelling through it, which is
      what its destructor does, leaves none of its own and takes nothing else away. */
  lemma TimeoutOwnership(now: int, steps: seq<Step>, name: nat)
    requires After(now, steps).lawful
    ensures var st := After(now, steps);
            var st' := Exec(st, Destroy(name, Done));
            && (forall i, j :: 0 <= i < |st.queue| && 0 <= j < |st.queue|
                  && st.queue[i].value.owner == st.queue[j].value.owner == Some(name)
                  ==> i == j)
            && Timeout(name) !in st'.handles && Unowned(st', name)
            && (Unowned(st, name) ==> st'.queue == st.queue)
            && (forall i :: 0 <= i < |st.queue| && st.queue[i].value.owner == Some(name) ==>
                  st'.queue == st.queue[..i] + st.queue[i + 1..])
  {
    Reachable(now, steps);
    var st := After(now, steps);
    CancelKeeps(st, Timeout(name));
    var st1 := CancelSlot(st, Timeout(name));
    assert Exec(st, Destroy(name, Done)) == Drop(st1, Timeout(name));
    hide Inv, CancelSlot, After, Exec, Hit;
    forall i | 0 <= i < |st.queue| && st.queue[i].value.owner == Some(name)
      ensures st1.queue == st.queue[..i] + st.queue[i + 1..] && Find(st.queue, HandleOf(st, Timeout(name)).id) == i
    {
      OwnedEntry(st, name, i);
    }
    if Unowned(st, name) {
      NothingOwned(st, name);
    }
  }

  // When programs are lawful

  /** Everything is armed relative to the current time. */
  predicate Relative(task: Task) {
    match task
    case Done => true
    case Insert(_, when, job, next) => when.Rel? && Relative(job) && Relative(next)
    case Cancel(_, hit, miss) => Relative(hit) && Relative(miss)
    case Rearm(_, when, job, hit, miss) => when.Rel? && Relative(job) && Relative(hit) && Relative(miss)
    case Destroy(_, next) => Relative(next)
    case Socket(_, next) => Relative(next)
    case Query(callback, next) => Relative(callback) && Relative(next)
  }

  ghost predicate AllRelative(st: State) {
    && st.lawful && st.now > 0
    && (forall i :: 0 <= i < |st.queue| ==> Relative(st.queue[i].value.task))
    && (forall i :: 0 <= i < |st.executed| ==> st.executed[i].entry.key <= st.now)
  }

  lemma PutRelative(st: State, slot: Slot, delay: nat, job: Task)
    requires AllRelative(st) && Relative(job)
    ensures AllRelative(Put(st, slot, st.now + delay, job))
  {
    var st' := Put(st, slot, st.now + delay, job);
    var p := UpperBound(st.queue, st.now + delay);
    forall i | 0 <= i < |st'.queue| ensures Relative(st'.queue[i].value.task) {
      assert i < p ==> st'.queue[i] == st.queue[i];
      assert i > p ==> st'.queue[i] == st.queue[i - 1];
    }
  }

  lemma CancelRelative(st: State, slot: Slot)
    requires AllRelative(st)
    ensures AllRelative(CancelSlot(st, slot)) && CancelSlot(st, slot).now == st.now
  {
    var k := Find(st.queue, HandleOf(st, slot).id);
    var st' := CancelSlot(st, slot);
    forall i | 0 <= i < |st'.queue| ensures Relative(st'.queue[i].value.task) {
      assert st'.queue[i] == st.queue[i] || st'.queue[i] == st.queue[i + 1];
    }
  }

  lemma ActRelative(st: State, task: Task)
    requires AllRelative(st) && Relative(task) && !task.Done?
    ensures AllRelative(Act(st, task)) && Relative(Rest(st, task))
  {
    hide Put, CancelSlot, Hit;
    match task
    case Insert(name, when, job, _) =>
      PutRelative(st, Handle(name), when.delay, job);
    case Cancel(slot, _, _) =>
      CancelRelative(st, slot);
    case Rearm(name, when, job, _, _) =>
      CancelRelative(st, Timeout(name));
      PutRelative(CancelSlot(st, Timeout(name)), Timeout(name), when.delay, job);
    case Destroy(name, _) =>
      CancelRelative(st, Timeout(name));
    case Socket(_, _) =>
    case Query(_, _) =>
  }

  lemma {:induction false} ExecRelative(st: State, task: Task)
    requires AllRelative(st) && Relative(task)
    ensures AllRelative(Exec(st, task))
    decreases task
  {
    if !task.Done? {
      ActRelative(st, task);
      ExecRelative(Act(st, task), Rest(st, task));
    }
  }

  lemma {:induction false} RunDueRelative(st: State)
    requires AllRelative(st)
    ensures AllRelative(RunDue(st))
    decreases Work(st.queue)
  {
    if HasDue(st) {
      assert forall i :: 0 <= i < |Pop(st).queue| ==> Pop(st).queue[i] == st.queue[i + 1];
      ExecRelative(Pop(st), st.queue[0].value.task);
      ExecShrinks(Pop(st), st.queue[0].value.task);
      RunDueRelative(Exec(Pop(st), st.queue[0].value.task));
    }
  }

  ghost predicate RelativeProgram(steps: seq<Step>) {
    forall i :: 0 <= i < |steps| ==>
      && (steps[i].Client? ==> Relative(steps[i].task))
      && (steps[i].Wait? ==> steps[i].elapsed >= 0)
  }

  /** Programs that only use `in`, on a clock that never runs backwards, are lawful. */
  lemma {:induction false} RelativeIsLawful(st: State, steps: seq<Step>)
    requires AllRelative(st) && RelativeProgram(steps)
    ensures AllRelative(Program(st, steps))
    decreases |steps|
  {
    if steps != [] {
      match steps[0] {
        case Client(task) => ExecRelative(st, task);
        case Run => RunDueRelative(st);
        case Wait(_) =>
      }
      RelativeIsLawful(Next(st, steps[0]), steps[1..]);
    }
  }

  // A future entry that is nobody else's business outlives a run

  /** What a layer keeps to itself: a timeout object, and the sockets of some descriptors. */
  datatype Private = Private(timeout: nat, fds: iset<nat>)

  /** The task, and everything it leaves behind to be called later, does without them. */
  ghost predicate Avoids(task: Task, own: Private) {
    match task
    case Done => true
    case Insert(_, _, job, next) => Avoids(job, own) && Avoids(next, own)
    case Cancel(slot, hit, miss) => slot != Timeout(own.timeout) && Avoids(hit, own) && Avoids(miss, own)
    case Rearm(n, _, job, hit, miss) =>
      n != own.timeout && Avoids(job, own) && Avoids(hit, own) && Avoids(miss, own)
    case Destroy(n, next) => n != own.timeout && Avoids(next, own)
    case Socket(op, next) => op.fd !in own.fds && Avoids(next, own)
    case Query(callback, next) => Avoids(callback, own) && Avoids(next, own)
  }

  ghost predicate AllAvoid(q: seq<Entry>, own: Private) {
    forall i :: 0 <= i < |q| ==> Avoids(q[i].value.task, own)
  }

  /** The timeout object's handle refers to the pending entry `e`. */
  ghost predicate Armed(st: State, name: nat, e: Entry) {
    && e in st.queue && e.key != 0
    && Timeout(name) in st.handles && st.handles[Timeout(name)] == TaskId(e.key, e.value.id)
  }

  lemma PutAvoids(st: State, slot: Slot, ts: int, job: Task, own: Private)
    requires AllAvoid(st.queue, own) && Avoids(job, own) && slot != Timeout(own.timeout)
    ensures var st' := Put(st, slot, ts, job);
            && AllAvoid(st'.queue, own) && HandleOf(st', Timeout(own.timeout)) == HandleOf(st, Timeout(own.timeout))
            && forall e :: Armed(st, own.timeout, e) ==> Armed(st', own.timeout, e)
  {
    var st' := Put(st, slot, ts, job);
    var p := UpperBound(st.queue, ts);
    forall i | 0 <= i < |st'.queue| ensures Avoids(st'.queue[i].value.task, own) {
      assert i < p ==> st'.queue[i] == st.queue[i];
      assert i > p ==> st'.queue[i] == st.queue[i - 1];
    }
    forall e | e in st.queue ensures e in st'.queue {
      var k :| 0 <= k < |st.queue| && st.queue[k] == e;
      assert st'.queue[if k < p then k else k + 1] == e;
    }
  }

  lemma RemoveAvoids(q: seq<Entry>, id: nat, own: Private)
    requires AllAvoid(q, own)
    ensures AllAvoid(Remove(q, id), own)
    ensures forall e :: e in q && e.value.id != id ==> e in Remove(q, id)
  {
    var k, r := Find(q, id), Remove(q, id);
    forall i | 0 <= i < |r| ensures Avoids(r[i].value.task, own) {
      assert r[i] == q[if i < k then i else i + 1];
    }
    forall e | e in q && e.value.id != id ensures e in r {
      var j :| 0 <= j < |q| && q[j] == e;
      assert r[if j < k then j else j - 1] == e;
    }
  }

  lemma CancelAvoids(st: State, slot: Slot, own: Private)
    requires Inv(st) && AllAvoid(st.queue, own) && slot != Timeout(own.timeout)
    ensures var st' := CancelSlot(st, slot);
            && AllAvoid(st'.queue, own) && HandleOf(st', Timeout(own.timeout)) == HandleOf(st, Timeout(own.timeout))
            && forall e :: Armed(st, own.timeout, e) ==> Armed(st', own.timeout, e)
  {
    RemoveAvoids(st.queue, HandleOf(st, slot).id, own);
    var st' := CancelSlot(st, slot);
    assert HandlesOk(st);
    hide Inv, AllAvoid, Remove, VerdictOf;
    forall e | Armed(st, own.timeout, e) ensures Armed(st', own.timeout, e) {
      assert Live(st, Timeout(own.timeout));
      assert Hit(st, slot) ==> Live(st, slot);
    }
  }

  lemma ActAvoids(st: State, task: Task, own: Private)
    requires Inv(st) && AllAvoid(st.queue, own) && Avoids(task, own) && !task.Done?
    ensures var st' := Act(st, task);
            && AllAvoid(st'.queue, own) && HandleOf(st', Timeout(own.timeout)) == HandleOf(st, Timeout(own.timeout))
            && forall e :: Armed(st, own.timeout, e) ==> Armed(st', own.timeout, e)
    ensures Avoids(Rest(st, task), own)
  {
    match task
    case Insert(n, when, job, _) =>
      PutAvoids(st, Handle(n), Due(st.now, when), job, own);
    case Cancel(slot, _, _) =>
      CancelAvoids(st, slot, own);
    case Rearm(n, when, job, _, _) =>
      CancelAvoids(st, Timeout(n), own);
      PutAvoids(CancelSlot(st, Timeout(n)), Timeout(n), Due(st.now, when), job, own);
    case Destroy(n, _) =>
      CancelAvoids(st, Timeout(n), own);
      var st1 := CancelSlot(st, Timeout(n));
      assert forall e :: Armed(st1, own.timeout, e) ==> Armed(Drop(st1, Timeout(n)), own.timeout, e);
    case Socket(_, _) =>
    case Query(_, _) =>
  }

  lemma {:induction false} ExecAvoids(st: State, task: Task, own: Private)
    requires Inv(st) && AllAvoid(st.queue, own) && Avoids(task, own)
    ensures var st' := Exec(st, task);
            && AllAvoid(st'.queue, own) && HandleOf(st', Timeout(own.timeout)) == HandleOf(st, Timeout(own.timeout))
            && forall e :: Armed(st, own.timeout, e) ==> Armed(st', own.timeout, e)
    decreases task
  {
    if !task.Done? {
      ActKeeps(st, task);
      ActAvoids(st, task, own);
      ExecAvoids(Act(st, task), Rest(st, task), own);
    }
  }

  /** An entry that is not due yet survives run, if no task touches the timeout object
      that armed it; and that object still refers to it. */
  lemma {:induction false} FutureSurvives(st: State, own: Private, e: Entry)
    requires Inv(st) && AllAvoid(st.queue, own) && Armed(st, own.timeout, e) && e.key > st.now
    ensures Armed(RunDue(st), own.timeout, e) && AllAvoid(RunDue(st).queue, own)
    decreases Work(st.queue)
  {
    if HasDue(st) {
      PopKeeps(st);
      var k :| 0 <= k < |st.queue| && st.queue[k] == e;
      assert Pop(st).queue[k - 1] == e;
      assert forall i :: 0 <= i < |Pop(st).queue| ==> Pop(st).queue[i] == st.queue[i + 1];
      var task := st.queue[0].value.task;
      ExecKeeps(Pop(st), task);
      ExecAvoids(Pop(st), task, own);
      ExecShrinks(Pop(st), task);
      FutureSurvives(Exec(Pop(st), task), own, e);
    }
  }
}
