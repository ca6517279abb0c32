/** What the resolver may rely on from GNU ADNS: an environment that answers as it likes,
    within these contracts. Only the contracts matter to the resolver; the bodies are one
    library that meets them. */
module AdnsLibrary {
  import opened Multimap
  import opened Sockets

  /** A pollfd: the key is the descriptor. */
  type Pollfd = Pair<set<Event>>

  const EINTR := 4
  const ESRCH := 3
  const EAGAIN := 11
  const ERANGE := 34

  /** Distinct descriptors of the library's own, each with something to wait for. */
  ghost predicate Sane(fds: seq<Pollfd>, own: iset<nat>) {
    && (forall i :: 0 <= i < |fds| ==> fds[i].key >= 0 && fds[i].key in own && fds[i].value != {})
    && (forall i, j :: 0 <= i < j < |fds| ==> fds[i].key != fds[j].key)
  }

  /** Work the library has been told to do. */
  datatype Processing = Readable(fd: nat) | Writable(fd: nat) | Exceptional(fd: nat) | Timeouts

  class Adns {
    ghost const own: iset<nat>          // the descriptors ADNS opens
    var outstanding: set<nat>     // queries submitted and not returned by Check
    var answered: set<nat>        // those of them that are complete
    var wanted: seq<Pollfd>       // what BeforePoll would report
    var overdue: nat              // bound on the rounds of overdue work left
    var interrupts: nat           // bound on the signals still to come
    ghost var processed: seq<Processing>
    ghost var asked: int          // the timeout BeforePoll reported last

    ghost predicate Valid()
      reads this
    {
      answered <= outstanding && Sane(wanted, own)
    }

    /** adns_submit, adns_submit_reverse */
    method Submit() returns (rc: int, qid: nat)
      requires Valid()
      modifies this
      ensures Valid() && overdue == old(overdue) && interrupts == old(interrupts) && processed == old(processed)
      ensures asked == old(asked)
      ensures rc == 0 ==> qid !in old(outstanding) && outstanding == old(outstanding) + {qid}
      ensures rc != 0 ==> outstanding == old(outstanding)
      ensures old(answered) <= answered
    {
      qid := 0;
      ghost var rest := outstanding;
      while qid in outstanding
        invariant forall q :: q in outstanding && q >= qid ==> q in rest
        decreases rest
      {
        rest := rest - {qid};
        qid := qid + 1;
      }
      outstanding := outstanding + {qid};
      rc := 0;
    }

    /** adns_check, for any query */
    method Check() returns (rc: int, qid: nat)
      requires Valid()
      modifies this
      ensures Valid() && overdue == old(overdue) && wanted == old(wanted) && processed == old(processed)
      ensures asked == old(asked)
      ensures rc == EINTR ==> interrupts < old(interrupts)
      ensures interrupts <= old(interrupts)
      ensures rc == 0 ==> qid in old(answered)
      ensures rc == 0 ==> answered == old(answered) - {qid} && outstanding == old(outstanding) - {qid}
      ensures rc != 0 ==> answered == old(answered) && outstanding == old(outstanding)
      ensures rc == ESRCH ==> outstanding == {}
      ensures rc == EAGAIN ==> outstanding != {} && answered == {}
    {
      if outstanding == {} {
        return ESRCH, 0;
      } else if answered == {} {
        return EAGAIN, 0;
      }
      qid :| qid in answered;
      answered, outstanding := answered - {qid}, outstanding - {qid};
      rc := 0;
    }

    /** adns_beforepoll, with room for `capacity` descriptors in `buffer`. */
    method BeforePoll(buffer: seq<Pollfd>, capacity: nat)
      returns (rc: int, filled: seq<Pollfd>, nfds: nat, timeout: int)
      requires Valid() && capacity <= |buffer|
      modifies this`asked
      ensures rc == 0 ==> asked == timeout
      ensures rc == ERANGE ==> nfds == |wanted| > capacity && filled == buffer
      ensures rc == 0 ==> nfds == |wanted| <= capacity && filled == wanted + buffer[nfds..]
      ensures rc == 0 ==> timeout >= 0 && (timeout == 0 ==> overdue > 0)
      ensures rc != 0 ==> timeout == -1
    {
      if |wanted| > capacity {
        return ERANGE, buffer, |wanted|, -1;
      }
      timeout := if overdue > 0 then 0 else 1;
      asked := timeout;
      return 0, wanted + buffer[|wanted|..], |wanted|, timeout;
    }

    /** adns_processtimeouts */
    method ProcessTimeouts()
      requires Valid()
      modifies this
      ensures Valid() && outstanding == old(outstanding) && old(answered) <= answered
      ensures interrupts == old(interrupts) && processed == old(processed) + [Timeouts] && asked == old(asked)
      ensures overdue < old(overdue) || overdue == old(overdue) == 0
    {
      overdue := if overdue > 0 then overdue - 1 else 0;
      answered := outstanding;
      processed := processed + [Timeouts];
    }

    /** adns_processreadable, adns_processwriteable, adns_processexceptional */
    method ProcessFd(what: Processing) returns (rc: int)
      requires Valid() && !what.Timeouts?
      modifies this
      ensures Valid() && outstanding == old(outstanding) && old(answered) <= answered
      ensures interrupts == old(interrupts) && overdue == old(overdue)
      ensures processed == old(processed) + [what] && asked == old(asked)
    {
      answered := outstanding;
      processed := processed + [what];
      rc := 0;
    }
  }
}
