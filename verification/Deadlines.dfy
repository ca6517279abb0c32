/** How long the resolver's timeout stays armed, and what that means for the sleep at the end
    of a turn. */
module Deadlines {
  import opened Multimap
  import opened Sockets
  import opened Timers
  import opened TimerTheorems
  import opened Queries
  import opened ClientCode
  import opened Turns

  lemma ArmQueue(st: State, ts: int, own: Private)
    requires AllAvoid(st.queue, own)
    ensures AllAvoid(CancelSlot(st, Timeout(TIMEOUT)).queue, own)
    ensures var st1 := CancelSlot(st, Timeout(TIMEOUT));
            var st' := Put(st1, Timeout(TIMEOUT), ts, Done);
            AllAvoid(st'.queue, own) && Pair(ts, Job(|st1.inserted|, Some(TIMEOUT), Done)) in st'.queue
  {
    RemoveAvoids(st.queue, HandleOf(st, Timeout(TIMEOUT)).id, own);
    var st1 := CancelSlot(st, Timeout(TIMEOUT));
    var st' := Put(st1, Timeout(TIMEOUT), ts, Done);
    var e := Pair(ts, Job(|st1.inserted|, Some(TIMEOUT), Done));
    hide CancelSlot, Remove;
    var p := UpperBound(st1.queue, ts);
    assert st'.queue[p] == e;
    forall i | 0 <= i < |st'.queue| ensures Avoids(st'.queue[i].value.task, own) {
      assert st'.queue[i] == if i < p then st1.queue[i] else if i == p then e else st1.queue[i - 1];
    }
  }

  /** Arming the resolver's timeout object puts one entry, its only one, into the queue. */
  lemma ArmKeeps(st: State, ts: int, own: Private)
    requires TimersOk(st, own)
    ensures TimersOk(CancelSlot(st, Timeout(TIMEOUT)), own)
    ensures var st' := Put(CancelSlot(st, Timeout(TIMEOUT)), Timeout(TIMEOUT), ts, Done);
            TimersOk(st', own) && ArmedFor(st', ts)
  {
    hide TimerTheorems.Inv, AllAvoid, VerdictOf, Remove;
    ArmQueue(st, ts, own);
    CancelKeeps(st, Timeout(TIMEOUT));
    var st1 := CancelSlot(st, Timeout(TIMEOUT));
    PutKeeps(st1, Timeout(TIMEOUT), ts, Done);
    var st' := Put(st1, Timeout(TIMEOUT), ts, Done);
    var e := Pair(ts, Job(|st1.inserted|, Some(TIMEOUT), Done));
    assert ts != 0 ==> Armed(st', TIMEOUT, e);
    SoleEntry(st', e);
  }

  lemma ArmKeepsTime(st: State, ts: int)
    ensures Put(CancelSlot(st, Timeout(TIMEOUT)), Timeout(TIMEOUT), ts, Done).now == st.now
  {
  }

  /** No other entry was armed by the resolver's timeout object. */
  ghost predicate Sole(st: State, e: Entry) {
    forall i :: 0 <= i < |st.queue| && st.queue[i].value.owner == Some(TIMEOUT) ==> st.queue[i] == e
  }

  /** The resolver's timeout object refers to a pending entry for `ts`; in a lawful program
      it is the only one the object armed. */
  ghost predicate ArmedFor(st: State, ts: int) {
    exists e: Entry :: e.key == ts
                && (ts != 0 ==> Armed(st, TIMEOUT, e))
                && (st.lawful ==> Sole(st, e))
  }

  lemma OwnerOfArmed(st: State, e: Entry)
    requires TimerTheorems.Inv(st) && Armed(st, TIMEOUT, e)
    ensures e.value.owner == Some(TIMEOUT)
  {
    var k :| 0 <= k < |st.queue| && st.queue[k] == e;
    assert IsInserted(st, st.queue[k]) && Live(st, Timeout(TIMEOUT));
  }

  lemma SoleEntry(st: State, e: Entry)
    requires TimerTheorems.Inv(st) && e in st.queue && e.value.owner == Some(TIMEOUT)
    ensures st.lawful ==> Sole(st, e)
  {
    var k :| 0 <= k < |st.queue| && st.queue[k] == e;
    forall i | 0 <= i < |st.queue| && st.lawful && st.queue[i].value.owner == Some(TIMEOUT) ensures st.queue[i] == e {
      assert IsInserted(st, st.queue[i]) && IsInserted(st, st.queue[k]);
    }
  }

  /** Cancelling makes nothing due. */
  lemma CancelNotDue(st: State, slot: Slot)
    requires TimerTheorems.Inv(st) && !HasDue(st)
    ensures !HasDue(CancelSlot(st, slot))
  {
    OrderedQueue(st);
    var i := Find(st.queue, HandleOf(st, slot).id);
    var q := CancelSlot(st, slot).queue;
    assert q != [] ==> q[0] == st.queue[0] || (|st.queue| > 1 && q[0] == st.queue[1]);
  }

  // Complete turns

  /** The rounds of a complete turn: `n` visits, jobs up to the m-th round, the resolver,
      and jobs again. */
  ghost predicate InOrder(rounds: seq<Round>, n: nat, m: nat, asked: int) {
    && n <= m < |rounds|
    && (forall i :: 0 <= i < n ==> rounds[i].cause.Visited? && rounds[i].cause.k == i)
    && (forall i :: n <= i < m ==> rounds[i].cause.Fired?)
    && rounds[m].cause == Resolved(asked)
    && (forall i :: m < i < |rounds| ==> rounds[i].cause.Fired?)
  }

  ghost predicate AllFired(rounds: seq<Round>) {
    forall i :: 0 <= i < |rounds| ==> rounds[i].cause.Fired?
  }

  lemma ThenJobs(rounds: seq<Round>, n: nat, m: nat, asked: int)
    requires InOrder(rounds, n, m, asked)
    ensures m < |rounds| && rounds[m].cause == Resolved(asked)
    ensures AllFired(rounds[m + 1..])
  {
  }

  lemma {:induction false} HistorySuffix(rounds: seq<Round>, i: nat, first: Snapshot, last: Snapshot, hs: Reactions, own: Private)
    requires History(rounds, first, last, hs, own, true) && i < |rounds|
    ensures Sound(rounds[i], hs, own, true) && History(rounds[i + 1..], rounds[i].after, last, hs, own, true)
    decreases |rounds|
  {
    hide Sound;
    var k := |rounds| - 1;
    if i == k {
      assert rounds[i + 1..] == [];
    } else {
      HistorySuffix(rounds[..k], i, first, rounds[k].before, hs, own);
      HistorySnoc(rounds[..k][i + 1..], rounds[i].after, rounds[k], hs, own, true);
      assert rounds[i + 1..] == rounds[..k][i + 1..] + [rounds[k]];
    }
  }

  lemma {:induction false} HistoryFirst(rounds: seq<Round>, first: Snapshot, last: Snapshot, hs: Reactions, own: Private)
    requires History(rounds, first, last, hs, own, true) && rounds != []
    ensures rounds[0].before == first && Sound(rounds[0], hs, own, true)
    decreases |rounds|
  {
    hide Sound;
    if |rounds| > 1 {
      HistoryFirst(rounds[..|rounds| - 1], first, rounds[|rounds| - 1].before, hs, own);
    } else {
      assert rounds[..0] == [];
    }
  }

  lemma HistoryLast(rounds: seq<Round>, first: Snapshot, last: Snapshot, hs: Reactions, own: Private)
    requires History(rounds, first, last, hs, own, true) && rounds != []
    ensures Consistent(last, own)
  {
  }

  /** Where nothing is due, no job fires. */
  lemma NothingFires(rounds: seq<Round>, first: Snapshot, last: Snapshot, hs: Reactions, own: Private)
    requires History(rounds, first, last, hs, own, true) && !HasDue(first.world.timers)
    requires forall i :: 0 <= i < |rounds| ==> rounds[i].cause.Fired?
    ensures rounds == [] && last == first
  {
    if rounds != [] {
      HistoryFirst(rounds, first, last, hs, own);
    }
  }

  lemma NothingResolved(r: Round, hs: Reactions, own: Private)
    requires Sound(r, hs, own, true) && r.cause.Resolved?
    requires r.before.ledger.pending == map[] && !HasDue(r.before.world.timers)
    ensures r.after.ledger.pending == map[] && !HasDue(r.after.world.timers)
  {
    CancelNotDue(r.before.world.timers, Timeout(TIMEOUT));
  }

  /** If queries are outstanding at the end of a turn, some were when the resolver ran. */
  lemma ResolvedInTime(rounds: seq<Round>, n: nat, m: nat, asked: int, first: Snapshot, last: Snapshot,
                       hs: Reactions, own: Private)
    requires InOrder(rounds, n, m, asked) && History(rounds, first, last, hs, own, true)
    requires !HasDue(rounds[m].before.world.timers) && last.ledger.pending != map[]
    ensures rounds[m].before.ledger.pending != map[]
  {
    HistorySuffix(rounds, m, first, last, hs, own);
    hide Sound, History, HasDue;
    if rounds[m].before.ledger.pending == map[] {
      NothingResolved(rounds[m], hs, own);
      NothingFires(rounds[m + 1..], rounds[m].after, last, hs, own);
    }
  }

  /** The timers when the resolver is about to arm its own. */
  lemma CallbacksDone(s: Snapshot, s': Snapshot, own: Private)
    requires Consistent(s, own) && Consistent(s', own) && own.timeout == TIMEOUT
    requires s.ledger.delivered <= s'.ledger.delivered
    ensures var w1 := DoAll(Disarmed(s.world), Since(s, s'));
            TimersOk(w1.timers, own) && w1.timers.now == s.world.timers.now
  {
    hide AllAvoid, TimerTheorems.Inv, ArmedFor, Armed, Avoids, VerdictOf, Remove;
    CallbacksAvoid(s, s', own);
    ArmKeeps(s.world.timers, 0, own);
    var w := Disarmed(s.world);
    AllRan(w, Since(s, s'));
    RanAllLeaves(w, DoAll(w, Since(s, s')), Since(s, s'), true, own);
  }

  lemma JustArmed(r: Round, hs: Reactions, own: Private)
    requires Sound(r, hs, own, true) && r.cause.Resolved? && r.before.ledger.pending != map[] && own.timeout == TIMEOUT
    ensures r.cause.asked > 0 && r.after.world.timers.now == r.before.world.timers.now
    ensures ArmedFor(r.after.world.timers, r.before.world.timers.now + CeilSeconds(r.cause.asked))
  {
    hide VisitOk, FiringOk, RanAll, OnlyTimeouts, Consistent, ArmedFor, Put, CancelSlot, DoAll, Since;
    var ts := r.before.world.timers.now + CeilSeconds(r.cause.asked);
    var w1 := DoAll(Disarmed(r.before.world), Since(r.before, r.after));
    assert r.after.world == Rearmed(w1, ts);
    hide Resolution, Sound, TimersOk, Disarmed;
    CallbacksDone(r.before, r.after, own);
    ArmKeeps(w1.timers, ts, own);
    ArmKeepsTime(w1.timers, ts);
  }

  /** Which of the resolver's own two cancel calls in a run leave defined behaviour: exactly
      those whose guard says so. The first one never does right after schedule::run on a clock
      that was not set back. */
  lemma ResolverCancels(r: Round, hs: Reactions, own: Private)
    requires Sound(r, hs, own, true) && r.cause.Resolved? && own.timeout == TIMEOUT
    ensures var w := Disarmed(r.before.world);
            && (Broken(w.timers) <==> Broken(r.before.world.timers) || Stale(r.before.world.timers, Timeout(TIMEOUT)))
            && (!HasDue(r.before.world.timers) && NotSetBack(r.before.world.timers) ==>
                  !Stale(r.before.world.timers, Timeout(TIMEOUT)))
            && (r.before.ledger.pending != map[] ==>
                  var w1 := DoAll(w, Since(r.before, r.after));
                  Broken(r.after.world.timers) <==> Broken(w1.timers) || Stale(w1.timers, Timeout(TIMEOUT)))
  {
    var st := r.before.world.timers;
    var w := Disarmed(r.before.world);
    FaultExact(st, Timeout(TIMEOUT));
    if !HasDue(st) && NotSetBack(st) {
      NoFaultAfterRun(st, Timeout(TIMEOUT));
    }
    if r.before.ledger.pending != map[] {
      var w1 := DoAll(w, Since(r.before, r.after));
      CallbacksDone(r.before, r.after, own);
      hide Broken, Stale;
      FaultExact(w1.timers, Timeout(TIMEOUT));
      SameCalls(CancelSlot(w1.timers, Timeout(TIMEOUT)), r.after.world.timers);
    }
  }

  /** A timeout of the resolver that lies in the future survives schedule::run. */
  lemma ArmedSurvives(rounds: seq<Round>, first: Snapshot, last: Snapshot, hs: Reactions, own: Private, ts: int)
    requires History(rounds, first, last, hs, own, true) && own.timeout == TIMEOUT
    requires forall i :: 0 <= i < |rounds| ==> rounds[i].cause.Fired?
    requires Consistent(last, own) && ArmedFor(first.world.timers, ts) && ts != 0 && ts > first.world.timers.now
    ensures last.world.timers.now == first.world.timers.now && ArmedFor(last.world.timers, ts)
    ensures exists i :: 0 <= i < |last.world.timers.queue| && last.world.timers.queue[i].key == ts
  {
    var e: Entry :| e.key == ts && Armed(first.world.timers, TIMEOUT, e);
    FiringsKeep(rounds, first, last, hs, own, e);
    OwnerOfArmed(last.world.timers, e);
    SoleEntry(last.world.timers, e);
  }

  lemma SameClock(rounds: seq<Round>, first: Snapshot, last: Snapshot, hs: Reactions, own: Private)
    requires History(rounds, first, last, hs, own, true) && own.timeout == TIMEOUT
    requires forall i :: 0 <= i < |rounds| ==> rounds[i].cause.Fired?
    ensures last.world.timers.now == first.world.timers.now
  {
    FiringsKeep(rounds, first, last, hs, own, Pair(0, Job(0, None, Done)));
  }

  /** The timeout the resolver armed for ADNS is still armed at the end of the turn. */
  lemma StillArmed(rounds: seq<Round>, n: nat, m: nat, asked: int, first: Snapshot, last: Snapshot,
                   hs: Reactions, own: Private)
    requires InOrder(rounds, n, m, asked) && History(rounds, first, last, hs, own, true) && own.timeout == TIMEOUT
    requires rounds[m].before.ledger.pending != map[]
    ensures asked > 0
    ensures var ts := last.world.timers.now + CeilSeconds(asked);
            ts != 0 ==>
              && ArmedFor(last.world.timers, ts)
              && exists i :: 0 <= i < |last.world.timers.queue| && last.world.timers.queue[i].key == ts
  {
    hide Sound, History, ArmedFor, Consistent, InOrder;
    ThenJobs(rounds, n, m, asked);
    HistorySuffix(rounds, m, first, last, hs, own);
    HistoryLast(rounds, first, last, hs, own);
    JustArmed(rounds[m], hs, own);
    var jobs, mid := rounds[m + 1..], rounds[m].after;
    SameClock(jobs, mid, last, hs, own);
    var ts := last.world.timers.now + CeilSeconds(asked);
    if ts != 0 {
      ArmedSurvives(jobs, mid, last, hs, own, ts);
    }
  }
}
