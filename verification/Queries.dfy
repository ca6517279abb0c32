/** The ledger of DNS queries: which submission each entry of the resolver's query table
    stands for, and which callbacks have fired. */
module Queries {

  /** One submission: the id ADNS gave it, and the callback of the client. */
  datatype Ticket<C> = Ticket(qid: nat, callback: C)

  /** One call of a callback, with the answer to query `qid`. */
  datatype Delivered<C> = Delivered(ticket: nat, qid: nat, callback: C)

  datatype Ledger<C> = Ledger(
    tickets: seq<Ticket<C>>,
    pending: map<nat, nat>,        // from query ids to tickets
    delivered: seq<Delivered<C>>)

  /** The callbacks of tickets, and those that have been called. */
  function Callbacks<C>(tickets: seq<Ticket<C>>): seq<C> {
    seq(|tickets|, i requires 0 <= i < |tickets| => tickets[i].callback)
  }

  function CalledBack<C>(ds: seq<Delivered<C>>): seq<C> {
    seq(|ds|, i requires 0 <= i < |ds| => ds[i].callback)
  }

  lemma CallbacksSnoc<C>(tickets: seq<Ticket<C>>, t: Ticket<C>)
    ensures Callbacks(tickets + [t]) == Callbacks(tickets) + [t.callback]
  {
  }

  /** What has been called since `a` was called since then up to `b`, or since `b`. */
  lemma CalledBackConcat<C>(a: seq<Delivered<C>>, b: seq<Delivered<C>>, c: seq<Delivered<C>>)
    requires a <= b <= c
    ensures a <= c && CalledBack(c[|a|..]) == CalledBack(b[|a|..]) + CalledBack(c[|b|..])
  {
  }

  function Submitted<C>(l: Ledger<C>, qid: nat, callback: C): Ledger<C> {
    l.(tickets := l.tickets + [Ticket(qid, callback)], pending := l.pending[qid := |l.tickets|])
  }

  /** The answer to `qid` has come, and `callback` gets it. */
  function Answered<C>(l: Ledger<C>, qid: nat, callback: C): Ledger<C>
    requires qid in l.pending
  {
    l.(pending := l.pending - {qid}, delivered := l.delivered + [Delivered(l.pending[qid], qid, callback)])
  }

  predicate IsPending<C>(l: Ledger<C>, ticket: nat)
    requires ticket < |l.tickets|
  {
    var qid := l.tickets[ticket].qid;
    qid in l.pending && l.pending[qid] == ticket
  }

  function Tickets<C>(ds: seq<Delivered<C>>): set<nat> {
    set i | 0 <= i < |ds| :: ds[i].ticket
  }

  /** Every delivery is the one of its ticket; no ticket is delivered twice, or delivered
      and pending; every ticket is one or the other. */
  ghost predicate Inv<C>(l: Ledger<C>) {
    && (forall q :: q in l.pending ==> l.pending[q] < |l.tickets| && l.tickets[l.pending[q]].qid == q)
    && (forall i :: 0 <= i < |l.delivered| ==>
          var d := l.delivered[i];
          d.ticket < |l.tickets| && l.tickets[d.ticket] == Ticket(d.qid, d.callback))
    && (forall i, j :: 0 <= i < j < |l.delivered| ==> l.delivered[i].ticket != l.delivered[j].ticket)
    && (forall i, q :: 0 <= i < |l.delivered| && q in l.pending ==> l.delivered[i].ticket != l.pending[q])
    && (forall t :: 0 <= t < |l.tickets| ==> t in Tickets(l.delivered) || IsPending(l, t))
    && |l.tickets| == |l.delivered| + |l.pending|
  }

  lemma SubmittedKeeps<C>(l: Ledger<C>, qid: nat, callback: C)
    requires Inv(l) && qid !in l.pending
    ensures Inv(Submitted(l, qid, callback))
  {
  }

  lemma AnsweredCovers<C>(l: Ledger<C>, qid: nat)
    requires Inv(l) && qid in l.pending
    ensures var l' := Answered(l, qid, l.tickets[l.pending[qid]].callback);
            forall t :: 0 <= t < |l.tickets| ==> t in Tickets(l'.delivered) || IsPending(l', t)
  {
    var l' := Answered(l, qid, l.tickets[l.pending[qid]].callback);
    var n := |l.delivered|;
    forall t | 0 <= t < |l.tickets| ensures t in Tickets(l'.delivered) || IsPending(l', t) {
      if t in Tickets(l.delivered) {
        var i :| 0 <= i < n && l.delivered[i].ticket == t;
        assert l'.delivered[i].ticket == t;
      } else if l.tickets[t].qid == qid {
        assert IsPending(l, t) && l'.delivered[n].ticket == t;
      }
    }
  }

  lemma AnsweredKeeps<C>(l: Ledger<C>, qid: nat)
    requires Inv(l) && qid in l.pending
    ensures Inv(Answered(l, qid, l.tickets[l.pending[qid]].callback))
  {
    var l' := Answered(l, qid, l.tickets[l.pending[qid]].callback);
    AnsweredCovers(l, qid);
    assert l'.pending.Keys == l.pending.Keys - {qid};
    assert |l'.pending| == |l.pending| - 1;
    var n := |l.delivered|;
    assert forall i :: 0 <= i < n ==> l'.delivered[i] == l.delivered[i];
    forall q | q in l'.pending ensures l'.pending[q] != l.pending[qid] {
      assert l.tickets[l.pending[q]].qid == q;
    }
  }

  /** Each entry of the query table is the callback of the submission it stands for. */
  ghost predicate Entries<C>(table: map<nat, C>, l: Ledger<C>) {
    && Inv(l)
    && l.pending.Keys == table.Keys
    && forall q :: q in table ==> l.pending[q] < |l.tickets| && table[q] == l.tickets[l.pending[q]].callback
  }

  lemma NothingPending<C>(table: map<nat, C>, l: Ledger<C>)
    requires l.pending.Keys == table.Keys
    ensures table == map[] <==> l.pending == map[]
  {
    assert table == map[] <==> table.Keys == {};
    assert l.pending == map[] <==> l.pending.Keys == {};
  }

  lemma SubmittedEntries<C>(table: map<nat, C>, l: Ledger<C>, qid: nat, callback: C)
    requires Entries(table, l) && qid !in table
    ensures Entries(table[qid := callback], Submitted(l, qid, callback))
  {
    SubmittedKeeps(l, qid, callback);
  }

  lemma AnsweredEntries<C>(table: map<nat, C>, l: Ledger<C>, qid: nat)
    requires Entries(table, l) && qid in table
    ensures Entries(table - {qid}, Answered(l, qid, table[qid]))
  {
    AnsweredKeeps(l, qid);
    assert Answered(l, qid, table[qid]).pending.Keys == l.pending.Keys - {qid};
  }

  // Whole runs

  /** ADNS accepts a query under an id not in use, or has the answer to one. */
  datatype Step<C> = Submit(qid: nat, callback: C) | Answer(qid: nat)

  function Next<C>(l: Ledger<C>, step: Step<C>): Ledger<C>
    requires Inv(l)
  {
    match step
    case Submit(qid, callback) => if qid in l.pending then l else Submitted(l, qid, callback)
    case Answer(qid) => if qid in l.pending then Answered(l, qid, l.tickets[l.pending[qid]].callback) else l
  }

  lemma NextKeeps<C>(l: Ledger<C>, step: Step<C>)
    requires Inv(l)
    ensures Inv(Next(l, step))
  {
    match step
    case Submit(qid, callback) => if qid !in l.pending { SubmittedKeeps(l, qid, callback); }
    case Answer(qid) => if qid in l.pending { AnsweredKeeps(l, qid); }
  }

  function Run<C>(l: Ledger<C>, steps: seq<Step<C>>): Ledger<C>
    requires Inv(l)
    decreases |steps|
  {
    if steps == [] then l
    else
      NextKeeps(l, steps[0]);
      Run(Next(l, steps[0]), steps[1..])
  }

  lemma {:induction false} RunKeeps<C>(l: Ledger<C>, steps: seq<Step<C>>)
    requires Inv(l)
    ensures Inv(Run(l, steps))
    decreases |steps|
  {
    if steps != [] {
      NextKeeps(l, steps[0]);
      RunKeeps(Next(l, steps[0]), steps[1..]);
    }
  }

  /** Exactly once: after any run, every ticket is pending under its query id or has been
      delivered, not both; delivered at most once, to its own callback, with its own answer;
      and the numbers add up. */
  lemma ExactlyOnce<C>(l: Ledger<C>, steps: seq<Step<C>>, ticket: nat)
    requires Inv(l) && ticket < |Run(l, steps).tickets|
    ensures var l' := Run(l, steps);
            && (ticket in Tickets(l'.delivered) <==> !IsPending(l', ticket))
            && (forall i, j :: 0 <= i < |l'.delivered| && 0 <= j < |l'.delivered|
                  && l'.delivered[i].ticket == l'.delivered[j].ticket
                  ==> i == j)
            && (forall i :: 0 <= i < |l'.delivered| && l'.delivered[i].ticket == ticket ==>
                  l'.tickets[ticket] == Ticket(l'.delivered[i].qid, l'.delivered[i].callback))
            && |l'.tickets| == |l'.delivered| + |l'.pending|
  {
    RunKeeps(l, steps);
  }
}
