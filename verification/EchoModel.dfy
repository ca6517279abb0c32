/** The echo service of test/echo.hpp as a state machine, and what it guarantees over every
    run. Echo.dfy proves the code that works on the buffer in place equal to it. */
module EchoModel {
  import opened Multimap
  import opened Sockets

  type Byte = bv8

  const CAPACITY := 1024

  /** What read(2) did; no bytes means the end of the input. At most as much is read as
      there is room for. */
  datatype Read = Received(bytes: seq<Byte>) | ReadBlocked | ReadFailed

  /** What write(2) did; no bytes means the peer has gone. At most as much is written as
      there is. */
  datatype Write = Wrote(n: nat) | WriteBlocked | WriteFailed

  /** What happens to a connection: the host name query is answered, events are delivered,
      the timeout fires. */
  datatype Input =
    | Start(now: int)
    | Ready(events: set<Event>, now: int, read: Read, write: Write)
    | Expired(now: int)

  datatype State = State(
    open: bool,
    started: bool,
    interest: set<Event>,
    data: seq<Byte>,           // the range of the buffer still to be written
    deadline: Option<int>,     // what the timeout is armed for
    // history
    received: seq<Byte>,
    sent: seq<Byte>,
    ended: bool,               // the input has come to its end
    begun: int,                // when start was called
    active: Option<int>)       // when events were served last

  const INITIAL := State(true, false, {}, [], None, [], [], false, 0, None)

  function Min(a: nat, b: nat): nat { if a < b then a else b }

  function Shut(st: State): State {
    st.(open := false, deadline := None, interest := {})
  }

  function OnReadable(st: State, read: Read): State {
    match read
    case ReadFailed => Shut(st)
    case ReadBlocked => st
    case Received(bytes) =>
      if bytes == [] then Shut(st).(ended := true)
      else
        var got := bytes[..Min(|bytes|, CAPACITY)];
        st.(data := got, interest := {Writable}, received := st.received + got)
  }

  function OnWritable(st: State, write: Write): State {
    match write
    case WriteFailed => Shut(st)
    case WriteBlocked => st
    case Wrote(n) =>
      if n == 0 then Shut(st)
      else
        var m := Min(n, |st.data|);
        st.(data := st.data[m..], sent := st.sent + st.data[..m],
            interest := if m == |st.data| then {Readable} else st.interest)
  }

  /** run */
  function OnEvents(st: State, events: set<Event>, now: int, read: Read, write: Write): State {
    var st1 := if Readable in events then OnReadable(st, read) else st;
    var st2 := if st1.open && Writable in events then OnWritable(st1, write) else st1;
    if st2.open then st2.(deadline := Some(now + 5), active := Some(now)) else st2
  }

  /** Events reach only a live, started connection, and only those it has asked for. */
  function Next(st: State, input: Input): State {
    match input
    case Start(now) =>
      if st.open && !st.started
      then st.(started := true, interest := {Readable}, deadline := Some(now + 10), begun := now)
      else st
    case Ready(events, now, read, write) =>
      if st.open && st.started && events <= st.interest then OnEvents(st, events, now, read, write) else st
    case Expired(now) =>
      if st.deadline.Some? && st.deadline.value <= now then Shut(st) else st
  }

  function Serve(st: State, inputs: seq<Input>): State
    decreases |inputs|
  {
    if inputs == [] then st else Serve(Next(st, inputs[0]), inputs[1..])
  }

  /** How long a connection may be quiet. */
  function Patience(st: State): int {
    match st.active
    case None => st.begun + 10
    case Some(t) => t + 5
  }

  /** While the connection lives, what was sent and what is buffered is what was received;
      no more than the buffer is in flight; it waits to read exactly when there is nothing
      to write; and a timeout is running. Afterwards, nothing was sent that was not received,
      everything was if the input simply ended, and no timeout is left. */
  ghost predicate Inv(st: State) {
    && |st.data| <= CAPACITY
    && st.sent + st.data == st.received
    && (st.open && st.started ==>
          && st.interest == (if st.data == [] then {Readable} else {Writable})
          && st.deadline == Some(Patience(st)))
    && (st.open && !st.started ==>
          st.active == None && st.data == [] && st.interest == {} && st.deadline == None && !st.ended)
    && (!st.open ==> st.deadline == None && st.interest == {})
    && (st.ended ==> !st.open && st.sent == st.received)
  }

  lemma ReadableKeeps(st: State, read: Read)
    requires Inv(st) && st.open && st.started && st.interest == {Readable}
    ensures Inv(OnReadable(st, read))
  {
  }

  lemma WritableKeeps(st: State, write: Write)
    requires Inv(st) && st.open && st.started
    ensures Inv(OnWritable(st, write))
  {
    if write.Wrote? && write.n > 0 {
      var m := Min(write.n, |st.data|);
      assert st.data == st.data[..m] + st.data[m..];
      assert (st.sent + st.data[..m]) + st.data[m..] == st.sent + st.data;
    }
  }

  lemma NextKeeps(st: State, input: Input)
    requires Inv(st)
    ensures Inv(Next(st, input))
  {
    if input.Ready? && st.open && st.started && input.events <= st.interest {
      if Readable in input.events {
        assert st.interest == {Readable};
        assert Writable !in input.events;
        ReadableKeeps(st, input.read);
      } else if Writable in input.events {
        WritableKeeps(st, input.write);
      }
    }
  }

  // What single inputs do to a connection

  /** It starts to wait for input, for ten seconds. */
  lemma Started(st: State, now: int)
    requires Inv(st) && st.open && !st.started
    ensures var st' := Next(st, Start(now));
            && st'.open && st'.started && st'.interest == {Readable} && st'.deadline == Some(now + 10)
            && st'.data == st.data && st'.received == st.received && st'.sent == st.sent
  {
  }

  /** Input has come, was expected, and is read: it is buffered, and nothing else is; or the
      connection is closed; or, if there was none after all, it stays as it was. */
  lemma ReadServed(st: State, events: set<Event>, now: int, read: Read, write: Write)
    requires Inv(st) && st.open && st.started && events <= st.interest && Readable in events
    ensures var st' := Next(st, Ready(events, now, read, write));
            && st'.sent == st.sent && (st'.open ==> st'.deadline == Some(now + 5))
            && match read
               case Received(bytes) =>
                 if bytes == [] then !st'.open && st'.ended && st'.received == st.received
                 else
                   var got := if |bytes| <= 1024 then bytes else bytes[..1024];
                   && st'.open && st'.received == st.received + got
                   && st'.data == got && st'.interest == {Writable}
               case ReadBlocked =>
                 st'.open && st'.received == st.received && st'.data == st.data && st'.interest == st.interest
               case ReadFailed =>
                 !st'.open && !st'.ended && st'.received == st.received
  {
    assert st.interest == {Readable};
    assert Writable !in events;
  }

  /** There is room for output, it was expected, and what is buffered is written, as much as
      write(2) takes: that much leaves the buffer, in order; or the connection is closed; or,
      if there was no room after all, it stays as it was. */
  lemma WriteServed(st: State, events: set<Event>, now: int, read: Read, write: Write)
    requires Inv(st) && st.open && st.started && events <= st.interest && Writable in events
    ensures var st' := Next(st, Ready(events, now, read, write));
            && st'.received == st.received && !st'.ended && (st'.open ==> st'.deadline == Some(now + 5))
            && match write
               case Wrote(n) =>
                 if n == 0 then !st'.open && st'.sent == st.sent
                 else
                   var m := if n <= |st.data| then n else |st.data|;
                   && st'.open && st'.sent == st.sent + st.data[..m] && st'.data == st.data[m..]
                   && st'.interest == (if m == |st.data| then {Readable} else {Writable})
               case WriteBlocked =>
                 st'.open && st'.sent == st.sent && st'.data == st.data && st'.interest == st.interest
               case WriteFailed =>
                 !st'.open && st'.sent == st.sent
  {
    assert st.data != [] && st.interest == {Writable};
    assert Readable !in events;
  }

  /** A call without events only puts the timeout off. */
  lemma NothingServed(st: State, now: int, read: Read, write: Write)
    requires st.open && st.started
    ensures Next(st, Ready({}, now, read, write)) == st.(deadline := Some(now + 5), active := Some(now))
  {
  }

  /** What does not concern a connection leaves it alone: events it has not asked for, any
      event before the start or after the end, and a second start. */
  lemma Unconcerned(st: State, input: Input)
    requires input.Start? ==> !st.open || st.started
    requires input.Ready? ==> !st.open || !st.started || !(input.events <= st.interest)
    requires input.Expired? ==> st.deadline == None
    ensures Next(st, input) == st
  {
  }

  /** What is read on an input, if it is accepted, and how much is written. */
  function BytesRead(st: State, input: Input): seq<Byte> {
    if input.Ready? && st.open && st.started && input.events <= st.interest
       && Readable in input.events && input.read.Received?
    then if |input.read.bytes| <= 1024 then input.read.bytes else input.read.bytes[..1024]
    else []
  }

  function BytesWritten(st: State, input: Input): nat {
    if input.Ready? && st.open && st.started && input.events <= st.interest
       && Writable in input.events && input.write.Wrote?
    then if input.write.n <= |st.data| then input.write.n else |st.data|
    else 0
  }

  function AllRead(st: State, inputs: seq<Input>): seq<Byte>
    decreases |inputs|
  {
    if inputs == [] then [] else BytesRead(st, inputs[0]) + AllRead(Next(st, inputs[0]), inputs[1..])
  }

  function AllWritten(st: State, inputs: seq<Input>): nat
    decreases |inputs|
  {
    if inputs == [] then 0 else BytesWritten(st, inputs[0]) + AllWritten(Next(st, inputs[0]), inputs[1..])
  }

  lemma NextTransfers(st: State, input: Input)
    requires Inv(st)
    ensures Next(st, input).received == st.received + BytesRead(st, input)
    ensures |Next(st, input).sent| == |st.sent| + BytesWritten(st, input)
  {
    if input.Ready? && st.open && st.started && input.events <= st.interest {
      if Readable in input.events {
        assert Writable !in input.events;
        ReadServed(st, input.events, input.now, input.read, input.write);
      } else if Writable in input.events {
        WriteServed(st, input.events, input.now, input.read, input.write);
      }
    }
  }

  /** Over a whole life, what was received is what was read, piece by piece, and as much was
      sent as was written. */
  lemma {:induction false} ServeTransfers(st: State, inputs: seq<Input>)
    requires Inv(st)
    ensures Serve(st, inputs).received == st.received + AllRead(st, inputs)
    ensures |Serve(st, inputs).sent| == |st.sent| + AllWritten(st, inputs)
    decreases |inputs|
  {
    if inputs != [] {
      NextTransfers(st, inputs[0]);
      NextKeeps(st, inputs[0]);
      ServeTransfers(Next(st, inputs[0]), inputs[1..]);
      Regroup(st.received, BytesRead(st, inputs[0]), AllRead(Next(st, inputs[0]), inputs[1..]));
    }
  }

  lemma {:induction false} ServeKeeps(st: State, inputs: seq<Input>)
    requires Inv(st)
    ensures Inv(Serve(st, inputs))
    decreases |inputs|
  {
    if inputs != [] {
      NextKeeps(st, inputs[0]);
      ServeKeeps(Next(st, inputs[0]), inputs[1..]);
    }
  }

  /** The stream guarantee, for every sequence of short reads and writes, would-blocks,
      errors and timeouts. */
  lemma EchoStream(inputs: seq<Input>)
    ensures var st := Serve(INITIAL, inputs);
            && st.received == AllRead(INITIAL, inputs) && |st.sent| == AllWritten(INITIAL, inputs)
            && st.sent <= st.received
            && (st.open ==> st.sent + st.data == st.received && |st.data| <= CAPACITY)
            && (st.open && st.started ==>
                  (st.interest == {Readable} <==> st.data == []) && st.deadline == Some(Patience(st)))
            && (st.ended ==> st.sent == st.received)
            && (!st.open ==> st.deadline == None)
  {
    ServeKeeps(INITIAL, inputs);
    ServeTransfers(INITIAL, inputs);
    assert {Readable} != {Writable} by { assert Readable !in {Writable}; }
  }

  /** The timeout shuts down a connection exactly when it has been quiet for too long:
      ten seconds after the start, five after the last events. */
  lemma QuietConnection(inputs: seq<Input>, now: int)
    requires var st := Serve(INITIAL, inputs); st.open && st.started
    ensures var st := Serve(INITIAL, inputs);
            var st' := Next(st, Expired(now));
            (!st'.open <==> Patience(st) <= now) && (st'.open ==> st' == st)
  {
    ServeKeeps(INITIAL, inputs);
  }
}
