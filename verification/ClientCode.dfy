/** What client code does to everything it has access to, and how much work is left in what
    it leaves behind. */
module ClientCode {
  import opened Multimap
  import opened Sockets
  import opened Timers
  import opened TimerTheorems
  import opened TimerSteps

  /** All that client code can affect: the timers, the sockets that are not the resolver's,
      and the callbacks of the queries submitted so far. */
  datatype World = World(timers: State, sockets: Table, submitted: seq<Task>)

  /** The first thing a task does. */
  function ActOn(w: World, task: Task): World
    requires !task.Done?
  {
    match task
    case Socket(op, _) => w.(sockets := Apply(w.sockets, op))
    case Query(callback, _) => w.(submitted := w.submitted + [callback])
    case _ => w.(timers := Act(w.timers, task))
  }

  function Do(w: World, task: Task): World
    decreases task
  {
    if task.Done? then w else Do(ActOn(w, task), Rest(w.timers, task))
  }

  /** At most the first `n` actions. */
  function DoSome(w: World, task: Task, n: nat): World
    decreases task
  {
    if n == 0 || task.Done? then w else DoSome(ActOn(w, task), Rest(w.timers, task), n - 1)
  }

  /** One task after the other. */
  function DoAll(w: World, tasks: seq<Task>): World
    decreases |tasks|
  {
    if tasks == [] then w else Do(DoAll(w, tasks[..|tasks| - 1]), tasks[|tasks| - 1])
  }

  /** The task ran from `w` to `w'`: to its end, or until an exception. */
  ghost predicate Ran(w: World, w': World, task: Task, ok: bool) {
    if ok then w' == Do(w, task) else exists n: nat :: w' == DoSome(w, task, n)
  }

  /** So did these tasks, one after the other; an exception can only be in the last one, or
      after it. */
  ghost predicate RanAll(w: World, w': World, tasks: seq<Task>, ok: bool) {
    if tasks == [] then w' == w
    else Ran(DoAll(w, tasks[..|tasks| - 1]), w', tasks[|tasks| - 1], ok)
  }

  lemma RestSmaller(st: State, task: Task)
    requires !task.Done?
    ensures Size(Rest(st, task)) < Size(task)
  {
  }

  lemma {:induction false} Complete(w: World, task: Task)
    ensures DoSome(w, task, Size(task)) == Do(w, task)
    decreases task
  {
    hide Size, Rest, ActOn;
    if !task.Done? {
      var rest := Rest(w.timers, task);
      RestSmaller(w.timers, task);
      Complete(ActOn(w, task), rest);
      Enough(ActOn(w, task), rest, Size(task) - 1);
    }
  }

  lemma {:induction false} Enough(w: World, task: Task, n: nat)
    requires n >= Size(task)
    ensures DoSome(w, task, n) == DoSome(w, task, Size(task))
    decreases task
  {
    hide Size, Rest, ActOn;
    if !task.Done? {
      var rest := Rest(w.timers, task);
      RestSmaller(w.timers, task);
      Enough(ActOn(w, task), rest, n - 1);
      Enough(ActOn(w, task), rest, Size(task) - 1);
    }
  }

  /** An exception may come when everything is done already. */
  lemma RanThrough(w: World, w': World, tasks: seq<Task>, ok: bool)
    requires RanAll(w, w', tasks, true)
    ensures RanAll(w, w', tasks, ok) && w' == DoAll(w, tasks)
  {
    if tasks != [] {
      Complete(DoAll(w, tasks[..|tasks| - 1]), tasks[|tasks| - 1]);
    }
  }

  lemma {:induction false} DoAllConcat(w: World, a: seq<Task>, b: seq<Task>)
    ensures DoAll(w, a + b) == DoAll(DoAll(w, a), b)
    decreases |b|
  {
    if b == [] {
      assert a + b == a;
    } else {
      DoAllConcat(w, a, b[..|b| - 1]);
      assert (a + b)[..|a + b| - 1] == a + b[..|b| - 1];
    }
  }

  lemma RanCompose(w: World, w1: World, w2: World, a: seq<Task>, b: seq<Task>, ok: bool)
    requires RanAll(w, w1, a, true) && RanAll(w1, w2, b, ok)
    ensures RanAll(w, w2, a + b, ok)
  {
    RanThrough(w, w1, a, ok);
    if b == [] {
      assert a + b == a;
    } else {
      DoAllConcat(w, a, b[..|b| - 1]);
      assert (a + b)[..|a + b| - 1] == a + b[..|b| - 1];
    }
  }

  /** The first action, and then the rest. */
  lemma RanStep(w: World, w': World, task: Task, ok: bool)
    requires !task.Done? && Ran(ActOn(w, task), w', Rest(w.timers, task), ok)
    ensures Ran(w, w', task, ok)
  {
    if !ok {
      var n: nat :| w' == DoSome(ActOn(w, task), Rest(w.timers, task), n);
      assert w' == DoSome(w, task, n + 1);
    }
  }

  lemma RanNothing(w: World, task: Task)
    ensures Ran(w, w, task, false) && RanAll(w, w, [], true) && RanAll(w, w, [], false)
    ensures task.Done? ==> Ran(w, w, task, true)
  {
    assert w == DoSome(w, task, 0);
  }

  lemma RanOne(w: World, w': World, task: Task, ok: bool)
    requires Ran(w, w', task, ok)
    ensures RanAll(w, w', [task], ok)
  {
    assert [task][..0] == [];
  }

  // The same action by action

  /** One action, in terms of what it does to timers, sockets and queries. */
  ghost predicate Acts(w: World, task: Task, w': World, rest: Task) {
    match task
    case Done => false
    case Socket(op, next) =>
      && Effect(w.sockets, op, w'.sockets) && rest == next
      && w'.timers == w.timers && w'.submitted == w.submitted
    case Query(callback, next) =>
      && w'.submitted == w.submitted + [callback] && rest == next
      && w'.timers == w.timers && w'.sockets == w.sockets
    case _ =>
      && Takes(w.timers, task, w'.timers, rest)
      && w'.sockets == w.sockets && w'.submitted == w.submitted
  }

  lemma ActOnActs(w: World, task: Task)
    requires Inv(w.timers) && !task.Done?
    ensures Acts(w, task, ActOn(w, task), Rest(w.timers, task)) && Inv(ActOn(w, task).timers)
  {
    hide Inv, Takes, Effect;
    ActTakes(w.timers, task);
    ActKeeps(w.timers, task);
    if task.Socket? {
      ApplyEffect(w.sockets, task.op);
    }
  }

  datatype Point = Point(world: World, task: Task)

  ghost predicate Path(ps: seq<Point>) {
    ps != [] && forall i :: 0 < i < |ps| ==> Acts(ps[i - 1].world, ps[i - 1].task, ps[i].world, ps[i].task)
  }

  /** Actions of the task, one after the other, lead from `w` to `w'`: all of them if it
      came to its end. */
  ghost predicate Performs(w: World, task: Task, w': World, ok: bool) {
    exists ps: seq<Point> :: Path(ps) && ps[0] == Point(w, task) && ps[|ps| - 1].world == w' && (ok ==> ps[|ps| - 1].task.Done?)
  }

  lemma PathOn(p: Point, ps: seq<Point>)
    requires Path(ps) && Acts(p.world, p.task, ps[0].world, ps[0].task)
    ensures Path([p] + ps)
  {
    hide Acts;
    var r := [p] + ps;
    forall i | 0 < i < |r| ensures Acts(r[i - 1].world, r[i - 1].task, r[i].world, r[i].task) {
      if i > 1 {
        assert Acts(ps[i - 2].world, ps[i - 2].task, ps[i - 1].world, ps[i - 1].task);
      }
    }
  }

  lemma {:induction false} DoSomePerforms(w: World, task: Task, n: nat)
    requires Inv(w.timers)
    ensures Performs(w, task, DoSome(w, task, n), n >= Size(task))
    decreases task
  {
    hide Inv, Acts, ActOn, Rest, Size;
    if n == 0 || task.Done? {
      assert Path([Point(w, task)]);
      assert n >= Size(task) ==> task.Done? by { SizePositive(task); }
    } else {
      var w1, rest := ActOn(w, task), Rest(w.timers, task);
      ActOnActs(w, task);
      RestSmaller(w.timers, task);
      DoSomePerforms(w1, rest, n - 1);
      var ps: seq<Point> :| Path(ps) && ps[0] == Point(w1, rest) && ps[|ps| - 1].world == DoSome(w1, rest, n - 1)
                && (n - 1 >= Size(rest) ==> ps[|ps| - 1].task.Done?);
      PathOn(Point(w, task), ps);
      var r := [Point(w, task)] + ps;
      assert r[|r| - 1] == ps[|ps| - 1];
    }
  }

  lemma SizePositive(task: Task)
    ensures Size(task) > 0
  {
  }

  /** What client code did before it came to its end, or to an exception, are its actions. */
  lemma RanPerforms(w: World, w': World, task: Task, ok: bool)
    requires Inv(w.timers) && Ran(w, w', task, ok)
    ensures Performs(w, task, w', ok)
  {
    if ok {
      Complete(w, task);
      DoSomePerforms(w, task, Size(task));
    } else {
      var n: nat :| w' == DoSome(w, task, n);
      DoSomePerforms(w, task, n);
      assert Performs(w, task, w', n >= Size(task));
    }
  }

  // What client code that keeps out of somebody's private things leaves alone

  /** Nobody who is going to be called by the schedule touches what is `own`. */
  ghost predicate TimersOk(st: State, own: Private) {
    Inv(st) && AllAvoid(st.queue, own)
  }

  ghost predicate Untouched(st: State, st': State, own: Private) {
    && TimersOk(st', own) && st'.now == st.now && st'.executed == st.executed
    && forall e :: Armed(st, own.timeout, e) ==> Armed(st', own.timeout, e)
  }

  lemma ActOnLeaves(w: World, task: Task, own: Private)
    requires TimersOk(w.timers, own) && Avoids(task, own) && !task.Done?
    ensures Untouched(w.timers, ActOn(w, task).timers, own) && Avoids(Rest(w.timers, task), own)
  {
    if task.Socket? || task.Query? {
    } else {
      ActKeeps(w.timers, task);
      ActAvoids(w.timers, task, own);
      ActKeepsTime(w.timers, task);
    }
  }

  lemma ActKeepsTime(st: State, task: Task)
    requires !task.Done?
    ensures Act(st, task).now == st.now && Act(st, task).executed == st.executed
  {
  }

  lemma {:induction false} DoSomeLeaves(w: World, task: Task, n: nat, own: Private)
    requires TimersOk(w.timers, own) && Avoids(task, own)
    ensures Untouched(w.timers, DoSome(w, task, n).timers, own)
    decreases task
  {
    hide Inv, AllAvoid, Armed, Avoids;
    if n > 0 && !task.Done? {
      ActOnLeaves(w, task, own);
      DoSomeLeaves(ActOn(w, task), Rest(w.timers, task), n - 1, own);
    }
  }

  lemma RanLeaves(w: World, w': World, task: Task, ok: bool, own: Private)
    requires TimersOk(w.timers, own) && Avoids(task, own) && Ran(w, w', task, ok)
    ensures Untouched(w.timers, w'.timers, own)
  {
    hide TimersOk, Avoids, Untouched;
    if ok {
      Complete(w, task);
      DoSomeLeaves(w, task, Size(task), own);
    } else {
      var n: nat :| w' == DoSome(w, task, n);
      DoSomeLeaves(w, task, n, own);
    }
  }

  lemma {:induction false} RanAllLeaves(w: World, w': World, tasks: seq<Task>, ok: bool, own: Private)
    requires TimersOk(w.timers, own) && (forall i :: 0 <= i < |tasks| ==> Avoids(tasks[i], own))
    requires RanAll(w, w', tasks, ok)
    ensures Untouched(w.timers, w'.timers, own)
    decreases |tasks|
  {
    hide Inv, AllAvoid, Armed, Avoids, Ran;
    if tasks != [] {
      var k := |tasks| - 1;
      var w1 := DoAll(w, tasks[..k]);
      assert RanAll(w, w1, tasks[..k], true) by { AllRan(w, tasks[..k]); }
      RanAllLeaves(w, w1, tasks[..k], true, own);
      RanLeaves(w1, w', tasks[k], ok, own);
    }
  }

  lemma AllRan(w: World, tasks: seq<Task>)
    ensures RanAll(w, DoAll(w, tasks), tasks, true)
  {
  }

  // The work in a table of callbacks

  ghost function CallbackWork(m: map<nat, Task>): nat
    decreases |m|
  {
    if m == map[] then 0
    else
      var q :| q in m;
      assert (m - {q}).Keys == m.Keys - {q};
      Size(m[q]) + CallbackWork(m - {q})
  }

  lemma {:induction false} CallbackWorkRemove(m: map<nat, Task>, k: nat)
    requires k in m
    ensures CallbackWork(m) == Size(m[k]) + CallbackWork(m - {k})
    decreases |m|
  {
    var q :| q in m && CallbackWork(m) == Size(m[q]) + CallbackWork(m - {q});
    if q != k {
      assert (m - {q}).Keys == m.Keys - {q};
      CallbackWorkRemove(m - {q}, k);
      assert (m - {k}).Keys == m.Keys - {k};
      CallbackWorkRemove(m - {k}, q);
      assert m - {q} - {k} == m - {k} - {q};
    }
  }

  lemma CallbackWorkAdd(m: map<nat, Task>, k: nat, cb: Task)
    requires k !in m
    ensures CallbackWork(m[k := cb]) == CallbackWork(m) + Size(cb)
  {
    CallbackWorkRemove(m[k := cb], k);
    assert m[k := cb] - {k} == m;
  }

  // The resolver's share of the sockets, and everybody else's

  ghost function OwnPart(t: Table, own: iset<nat>): Table {
    map fd | fd in t && fd in own :: t[fd]
  }

  ghost function ClientPart(t: Table, own: iset<nat>): Table {
    map fd | fd in t && fd !in own :: t[fd]
  }

  lemma BothParts(t: Table, own: iset<nat>)
    ensures OwnPart(t, own) + ClientPart(t, own) == t
  {
  }

  lemma ClientOp(t: Table, op: Op, own: iset<nat>)
    requires op.fd !in own
    ensures ClientPart(Apply(t, op), own) == Apply(ClientPart(t, own), op)
    ensures OwnPart(Apply(t, op), own) == OwnPart(t, own)
  {
  }

  lemma OwnOp(t: Table, op: Op, own: iset<nat>)
    requires op.fd in own
    ensures ClientPart(Apply(t, op), own) == ClientPart(t, own)
    ensures OwnPart(Apply(t, op), own) == Apply(OwnPart(t, own), op)
  {
  }
}
