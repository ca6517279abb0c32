/** test/echo.hpp, working on its buffer in place. */
module Echo {
  import opened Multimap
  import opened Sockets
  import opened EchoModel

  class Echo {
    const buf: array<Byte>
    var dataBegin: nat
    var dataEnd: nat
    var sock: bool                      // the socket object exists
    var started: bool
    var interest: set<Event>            // what the socket has requested
    var timeout: Option<int>
    ghost var received: seq<Byte>
    ghost var sent: seq<Byte>
    ghost var ended: bool
    ghost var begun: int
    ghost var active: Option<int>

    ghost predicate Shape()
      reads this, buf
    {
      buf.Length == CAPACITY && dataBegin <= dataEnd <= CAPACITY
    }

    ghost function Model(): State
      requires Shape()
      reads this, buf
    {
      State(sock, started, interest, buf[dataBegin..dataEnd], timeout, received, sent, ended, begun, active)
    }

    ghost predicate Valid()
      reads this, buf
    {
      Shape() && Inv(Model())
    }

    constructor ()
      ensures Valid() && Model() == INITIAL && fresh(buf)
    {
      buf := new Byte[CAPACITY];
      dataBegin, dataEnd, sock, started, interest, timeout := 0, 0, true, false, {}, None;
      received, sent, ended, begun, active := [], [], false, 0, None;
    }

    /** start, the answer to the host name query */
    method Start(now: int)
      requires Valid() && sock && !started
      modifies this
      ensures Valid() && Model() == Next(old(Model()), Input.Start(now))
    {
      NextKeeps(Model(), Input.Start(now));
      started := true;
      interest := {Readable};
      timeout := Some(now + 10);
      begun := now;
    }

    /** shutdown */
    method Shutdown()
      requires Shape()
      modifies this`timeout, this`sock, this`interest
      ensures Shape() && Model() == Shut(old(Model()))
      ensures !sock && timeout == None && interest == {}
    {
      timeout := None;
      sock := false;
      interest := {};
    }

    /** The readable half of run; false if it shut the connection down. */
    method ReadInput(read: Read) returns (alive: bool)
      requires Shape() && sock && dataBegin == dataEnd && interest == {Readable}
      modifies this, buf
      ensures Shape() && Model() == OnReadable(old(Model()), read) && alive == sock
      ensures sock <==> read.ReadBlocked? || (read.Received? && read.bytes != [])
      ensures read.Received? && read.bytes != [] ==>
                var got := if |read.bytes| <= 1024 then read.bytes else read.bytes[..1024];
                buf[dataBegin..dataEnd] == got && received == old(received) + got && interest == {Writable}
    {
      dataBegin := 0;
      dataEnd := 0;
      match read {
        case ReadFailed =>
          Shutdown();
        case ReadBlocked =>
        case Received(bytes) =>
          if bytes == [] {
            ended := true;
            Shutdown();
            return false;
          }
          var n := Min(|bytes|, CAPACITY);
          forall i | 0 <= i < n {
            buf[i] := bytes[i];
          }
          assert buf[..n] == bytes[..n];
          dataEnd := n;
          received := received + bytes[..n];
          if dataBegin != dataEnd {
            interest := {Writable};
          }
      }
      return sock;
    }

    /** The writable half of run; false if it shut the connection down. */
    method WriteOutput(write: Write) returns (alive: bool)
      requires Shape() && sock && dataBegin < dataEnd
      modifies this
      ensures Shape() && Model() == OnWritable(old(Model()), write) && alive == sock
      ensures sock <==> write.WriteBlocked? || (write.Wrote? && write.n > 0)
      ensures write.Wrote? && write.n > 0 ==>
                var data := old(buf[dataBegin..dataEnd]);
                var m := if write.n <= |data| then write.n else |data|;
                sent == old(sent) + data[..m] && buf[dataBegin..dataEnd] == data[m..]
    {
      match write {
        case WriteFailed =>
          Shutdown();
        case WriteBlocked =>
        case Wrote(n) =>
          if n == 0 {
            Shutdown();
            return false;
          }
          var m := Min(n, dataEnd - dataBegin);
          ghost var data := buf[dataBegin..dataEnd];
          assert buf[dataBegin..dataBegin + m] == data[..m] && buf[dataBegin + m..dataEnd] == data[m..];
          sent := sent + buf[dataBegin..dataBegin + m];
          dataBegin := dataBegin + m;
          if dataBegin == dataEnd {
            dataBegin, dataEnd := 0, 0;
            interest := {Readable};
          }
      }
      return sock;
    }

    /** run, called with events the socket has asked for. */
    method Run(ev: set<Event>, now: int, read: Read, write: Write)
      requires Valid() && sock && started && ev <= interest
      modifies this, buf
      ensures Valid() && Model() == Next(old(Model()), Ready(ev, now, read, write))
    {
      ghost var st := Model();
      NextKeeps(st, Ready(ev, now, read, write));
      var alive := true;
      if Readable in ev {
        assert interest == {Readable};
        alive := ReadInput(read);
        assert Writable !in ev;
      }
      if alive && Writable in ev {
        assert interest == {Writable};
        alive := WriteOutput(write);
      }
      if alive {
        timeout := Some(now + 5);
        active := Some(now);
      }
    }

    /** The timeout fires. */
    method Expire(now: int)
      requires Valid() && timeout.Some? && timeout.value <= now
      modifies this
      ensures Valid() && Model() == Next(old(Model()), Expired(now))
    {
      NextKeeps(Model(), Expired(now));
      Shutdown();
    }

    /** The life of a connection. */
    method Live(inputs: seq<Input>)
      requires Valid()
      modifies this, buf
      ensures Valid() && Model() == Serve(old(Model()), inputs)
      decreases |inputs|
    {
      if inputs != [] {
        match inputs[0] {
          case Start(now) =>
            if sock && !started { Start(now); }
          case Ready(events, now, read, write) =>
            if sock && started && events <= interest { Run(events, now, read, write); }
          case Expired(now) =>
            if timeout.Some? && timeout.value <= now { Expire(now); }
        }
        Live(inputs[1..]);
      }
    }
  }
}
