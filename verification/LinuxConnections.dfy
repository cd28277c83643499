/** The sending half of a connection on Linux: a queue of buffers, any number of threads that send, and
    one event thread.  Each method is a section under the connection's lock; the event thread leaves it
    between transmitting the first buffer, taking it off the queue and disarming EPOLLOUT, so the
    others come in between.  Buffers are not shared: a buffer is its readable bytes. */
module LinuxConnections {
  import opened Bytes

  /** What a call of the socket's `send` comes to: it takes some bytes, the system's buffer is full, or
      it fails. */
  datatype Outcome = Takes(bytes: nat) | WouldBlock | Fails

  type Socket = nat -> Outcome

  /** What the event thread does next with an EPOLLOUT event. */
  datatype Point = Waiting | Popping | Disarming | Failing | Leaving

  /** How many of `n` bytes the socket takes, from its call number `k` on, before it takes no more. */
  function Accepted(n: nat, socket: Socket, k: nat): (r: nat)
    ensures r <= n
    decreases n
  {
    if n == 0 then 0
    else
      match socket(k)
      case Takes(m) => var some := 1 + m % n; some + Accepted(n - some, socket, k + 1)
      case _ => 0
  }

  /** Why it takes no more: there are none left, or its last answer. */
  function Answer(n: nat, socket: Socket, k: nat): Outcome
    decreases n
  {
    if n == 0 then Takes(0)
    else
      match socket(k)
      case Takes(m) => Answer(n - 1 - m % n, socket, k + 1)
      case other => other
  }

  lemma OneCall(n: nat, socket: Socket, k: nat)
    requires n > 0
    ensures match socket(k)
            case Takes(m) =>
              var some := 1 + m % n;
              && Accepted(n, socket, k) == some + Accepted(n - some, socket, k + 1)
              && Answer(n, socket, k) == Answer(n - some, socket, k + 1)
            case other => Accepted(n, socket, k) == 0 && Answer(n, socket, k) == other
  {
  }

  lemma NoCall(socket: Socket, k: nat)
    ensures Accepted(0, socket, k) == 0 && Answer(0, socket, k) == Takes(0)
  {
  }

  ghost predicate Sound(socket: Socket) {
    forall k: nat :: !socket(k).Fails?
  }

  ghost predicate Willing(socket: Socket) {
    forall k: nat :: socket(k).Takes?
  }

  lemma {:induction false} SoundAnswers(n: nat, socket: Socket, k: nat)
    ensures Sound(socket) ==> !Answer(n, socket, k).Fails?
    ensures Willing(socket) ==> Answer(n, socket, k).Takes?
    ensures Answer(n, socket, k).Takes? <==> Accepted(n, socket, k) == n
    decreases n
  {
    if n > 0 && socket(k).Takes? {
      SoundAnswers(n - 1 - socket(k).bytes % n, socket, k + 1);
    }
  }

  lemma {:induction false} JoinedMore(buffers: seq<seq<byte>>, buffer: seq<byte>)
    ensures Joined(buffers + [buffer]) == Joined(buffers) + buffer
  {
    if buffers == [] {
      assert Joined([buffer]) == buffer + Joined([]) == buffer;
      assert buffers + [buffer] == [buffer];
    } else {
      assert (buffers + [buffer])[1..] == buffers[1..] + [buffer];
      JoinedMore(buffers[1..], buffer);
      Associated(buffers[0], Joined(buffers[1..]), buffer);
    }
  }

  /** Bytes of the first buffer go to the socket. */
  lemma FrontGiven(given: seq<byte>, buffers: seq<seq<byte>>, n: nat)
    requires buffers != [] && n <= |buffers[0]|
    ensures var left := [buffers[0][n..]] + buffers[1..];
            && (given + buffers[0][..n]) + Joined(left) == given + Joined(buffers)
            && |Joined(left)| == |Joined(buffers)| - n
            && left[0] == buffers[0][n..] && left[1..] == buffers[1..]
  {
    var front := buffers[0];
    var left := [front[n..]] + buffers[1..];
    assert left[1..] == buffers[1..];
    assert front == front[..n] + front[n..];
    Associated(front[..n], front[n..], Joined(buffers[1..]));
    Associated(given, front[..n], front[n..] + Joined(buffers[1..]));
  }

  class Connection {
    var connected: bool
    var disconnecting: bool
    /** EPOLLOUT is in the event mask. */
    var armed: bool
    var tasksSend: seq<seq<byte>>
    var numBytesPending: int
    var point: Point

    /** All the bytes handed to `send` and to the socket while connected; whether the socket failed; and
        how often `onDisconnected` was called. */
    ghost var submitted: seq<byte>
    ghost var given: seq<byte>
    ghost var failed: bool
    ghost var farewells: nat

    ghost predicate Valid()
      reads this
    {
      && (connected ==> given + Joined(tasksSend) == submitted)
      && numBytesPending == |Joined(tasksSend)|
      && (forall k | 0 <= k < |tasksSend| :: tasksSend[k] == [] <==> k == 0 && point == Popping)
      && (point == Popping ==> tasksSend != [])
      && (point in {Popping, Failing} ==> connected)
      && (point == Leaving ==> !connected)
      && (disconnecting ==> connected || point == Leaving)
      && (tasksSend != [] ==> connected && (armed || failed))
      && (point == Failing ==> failed)
      && (failed && connected ==> disconnecting || point == Failing)
      && farewells == (if connected || point == Leaving then 0 else 1)
    }

    constructor ()
      ensures Valid() && connected && !disconnecting && !armed && tasksSend == [] && point == Waiting
      ensures submitted == [] && given == [] && !failed
    {
      connected, disconnecting, armed, tasksSend, numBytesPending, point := true, false, false, [], 0, Waiting;
      submitted, given, failed, farewells := [], [], false, 0;
    }

    /** The socket takes `k` bytes of the front buffer, of which it had the first `m`. */
    method GiveSome(k: nat, ghost was: seq<byte>, ghost front: seq<byte>, ghost m: nat)
      requires m < |front| && 0 < k <= |front| - m
      requires tasksSend != [] && tasksSend[0] == front[m..] && given == was + front[..m]
      modifies `given, `tasksSend, `numBytesPending
      ensures tasksSend == [front[m + k..]] + old(tasksSend)[1..] && given == was + front[..m + k]
      ensures numBytesPending == old(numBytesPending) - k
    {
      var buffer := tasksSend[0];
      assert front[..m] + buffer[..k] == front[..m + k];
      Associated(was, front[..m], buffer[..k]);
      given := given + buffer[..k];
      tasksSend := tasksSend[0 := buffer[k..]];
      numBytesPending := numBytesPending - k;
    }

    /** The loop over the first buffer: give the socket bytes until there are none, it takes no more, or
        it fails. */
    method Transmit(socket: Socket) returns (ok: bool)
      requires tasksSend != []
      modifies `armed, `tasksSend, `numBytesPending, `given, `failed
      ensures var front := old(tasksSend)[0];
              var n, answer := Accepted(|front|, socket, 0), Answer(|front|, socket, 0);
              && tasksSend == [front[n..]] + old(tasksSend)[1..] && given == old(given) + front[..n]
              && numBytesPending == old(numBytesPending) - n
              && armed == (old(armed) || answer == WouldBlock) && failed == (old(failed) || answer == Fails)
              && ok == (answer != Fails)
    {
      hide Accepted, Answer;
      var calls := 0;
      ghost var front := tasksSend[0];
      ghost var n: nat, m: nat := Accepted(|front|, socket, 0), 0;
      while tasksSend[0] != []
        invariant m <= n <= |front| && tasksSend == [front[m..]] + old(tasksSend)[1..]
        invariant given == old(given) + front[..m]
        invariant m + Accepted(|front| - m, socket, calls) == n
        invariant Answer(|front| - m, socket, calls) == Answer(|front|, socket, 0)
        invariant numBytesPending == old(numBytesPending) - m
        invariant armed == old(armed) && failed == old(failed)
        decreases |tasksSend[0]|
      {
        var outcome := socket(calls);
        OneCall(|front| - m, socket, calls);
        match outcome {
          case Fails =>
            failed := true;
            return false;
          case WouldBlock =>
            armed := true;
            return true;
          case Takes(bytes) =>
            var k := 1 + bytes % |tasksSend[0]|;
            GiveSome(k, old(given), front, m);
            calls := calls + 1;
            m := m + k;
        }
      }
      NoCall(socket, calls);
      return true;
    }

    /** The buffer at the front has nothing left: what waits is the same without it. */
    method PopFirstTask()
      modifies `tasksSend
      ensures tasksSend == if old(tasksSend) == [] then [] else old(tasksSend)[1..]
      ensures old(tasksSend) != [] && old(tasksSend)[0] == [] ==> Joined(tasksSend) == Joined(old(tasksSend))
    {
      if tasksSend == [] {
        return;
      }
      assert tasksSend[0] == [] ==> Joined(tasksSend) == [] + Joined(tasksSend[1..]) == Joined(tasksSend[1..]);
      tasksSend := tasksSend[1..];
    }

    /** A thread sends a buffer.  Only a buffer that finds the queue empty is given to the socket here. */
    method Send(buffer: seq<byte>, socket: Socket)
      requires Valid()
      modifies this
      ensures Valid() && connected == old(connected) && point == old(point)
      ensures submitted == old(submitted) + (if connected then buffer else [])
      ensures !connected || buffer == [] ==>
                given == old(given) && tasksSend == old(tasksSend) && armed == old(armed) && failed == old(failed)
      ensures connected && buffer != [] && old(tasksSend) != [] ==>
                && given == old(given) && tasksSend == old(tasksSend) + [buffer]
                && failed == old(failed) && armed == old(armed)
      ensures connected && buffer != [] && old(tasksSend) == [] ==>
                var n := Accepted(|buffer|, socket, 0);
                && given == old(given) + buffer[..n]
                && tasksSend == (if n == |buffer| then [] else [buffer[n..]])
                && failed == (old(failed) || Answer(|buffer|, socket, 0).Fails?)
                && (n == |buffer| ==> !armed)
      ensures old(disconnecting) ==> disconnecting
      ensures Sound(socket) ==> failed == old(failed) && disconnecting == old(disconnecting)
    {
      if buffer == [] || !connected {
        assert submitted + [] == submitted;
        return;
      }
      var v := numBytesPending;
      numBytesPending := v + |buffer|;
      assert v >= 0;
      var isEmpty := tasksSend == [];
      Associated(given, Joined(tasksSend), buffer);
      JoinedMore(tasksSend, buffer);
      tasksSend := tasksSend + [buffer];
      submitted := submitted + buffer;
      if isEmpty {
        assert v == 0;
        var ok := SendAlone(buffer, socket);
        if !ok && !disconnecting {
          disconnecting := true;
        }
      }
    }

    /** `send0` for a buffer that is alone in the queue, and what follows it in `send`. */
    method SendAlone(buffer: seq<byte>, socket: Socket) returns (ok: bool)
      requires connected && buffer != [] && tasksSend == [buffer]
      requires given + Joined(tasksSend) == submitted && numBytesPending == |Joined(tasksSend)|
      modifies `armed, `tasksSend, `numBytesPending, `given, `failed
      ensures given + Joined(tasksSend) == submitted && numBytesPending == |Joined(tasksSend)|
      ensures var n := Accepted(|buffer|, socket, 0);
              && given == old(given) + buffer[..n]
              && tasksSend == (if n == |buffer| then [] else [buffer[n..]])
              && failed == (old(failed) || Answer(|buffer|, socket, 0).Fails?)
              && (n == |buffer| ==> !armed) && (tasksSend != [] ==> armed || failed)
              && ok == !Answer(|buffer|, socket, 0).Fails?
      ensures Sound(socket) ==> ok && failed == old(failed)
    {
      ghost var n := Accepted(|buffer|, socket, 0);
      FrontGiven(given, tasksSend, n);
      SoundAnswers(|buffer|, socket, 0);
      ok := Transmit(socket);
      if tasksSend[0] == [] {
        PopFirstTask();
      }
      if ok && tasksSend == [] && armed {
        armed := false;
      }
    }

    /** The event thread, first: transmit the buffer at the front, if there is one. */
    method EventTransmit(socket: Socket)
      requires Valid() && point == Waiting
      modifies this
      ensures Valid() && connected == old(connected) && submitted == old(submitted)
      ensures disconnecting == old(disconnecting) && farewells == old(farewells)
      ensures if old(tasksSend) == [] then
                && point == Disarming && tasksSend == []
                && given == old(given) && armed == old(armed) && failed == old(failed)
              else
                var front := old(tasksSend)[0];
                var n := Accepted(|front|, socket, 0);
                && given == old(given) + front[..n] && tasksSend == [front[n..]] + old(tasksSend)[1..]
                && failed == (old(failed) || Answer(|front|, socket, 0).Fails?)
                && point == (if Answer(|front|, socket, 0).Fails? then Failing
                             else if n == |front| then Popping else Disarming)
      ensures Sound(socket) ==> point != Failing && failed == old(failed)
      ensures Willing(socket) ==> point == if tasksSend == [] then Disarming else Popping
    {
      if tasksSend == [] {
        point := Disarming;
        return;
      }
      FrontGiven(given, tasksSend, Accepted(|tasksSend[0]|, socket, 0));
      SoundAnswers(|tasksSend[0]|, socket, 0);
      var ok := Transmit(socket);
      point := if !ok then Failing else if tasksSend[0] == [] then Popping else Disarming;
    }

    /** Second: take the buffer off, if it was completed. */
    method EventPop()
      requires Valid() && point == Popping
      modifies `tasksSend, `point
      ensures Valid() && point == Disarming && Joined(tasksSend) == old(Joined(tasksSend))
      ensures tasksSend == old(tasksSend)[1..]
    {
      PopFirstTask();
      point := Disarming;
    }

    /** Third: disarm EPOLLOUT if the queue is empty by now. */
    method EventDisarm()
      requires Valid() && point == Disarming
      modifies `armed, `point
      ensures Valid() && point == Waiting
      ensures armed == (old(armed) && tasksSend != [])
    {
      if tasksSend == [] {
        armed := false;
      }
      point := Waiting;
    }

    /** A thread disconnects. */
    method Disconnect()
      requires Valid()
      modifies `disconnecting
      ensures Valid()
      ensures disconnecting == (old(disconnecting) || connected)
    {
      if disconnecting || !connected {
        return;
      }
      disconnecting := true;
    }

    /** The event thread, last: close the connection if it is to be closed. */
    method EventEnd()
      requires Valid() && point in {Waiting, Failing}
      modifies `connected, `numBytesPending, `tasksSend, `point
      ensures Valid()
      ensures if connected then old(connected) && !disconnecting && old(point) == Waiting
              else old(connected) ==> disconnecting || old(point) == Failing
      ensures if connected == old(connected)
              then point == Waiting && tasksSend == old(tasksSend) && numBytesPending == old(numBytesPending)
              else point == Leaving && tasksSend == [] && numBytesPending == 0
    {
      if (disconnecting || point == Failing) && connected {
        connected := false;
        numBytesPending := 0;
        tasksSend := [];
        point := Leaving;
      } else {
        point := Waiting;
      }
    }

    /** After closing, without the lock: `onDisconnected`, and then the mark is cleared. */
    method EventLeave()
      requires Valid() && point == Leaving
      modifies `disconnecting, `point, `farewells
      ensures Valid() && point == Waiting && !disconnecting && farewells == old(farewells) + 1
    {
      farewells := farewells + 1;
      disconnecting := false;
      point := Waiting;
    }

    /** The event loop calls the event thread for as long as EPOLLOUT is armed.  If the socket is
        willing, that empties the queue: every byte handed to `send` reaches the socket, in order. */
    method Drain(sockets: nat -> Socket)
      requires Valid() && connected && !disconnecting && !failed && point == Waiting
      requires forall i: nat :: Willing(sockets(i))
      modifies this
      ensures Valid() && connected && tasksSend == [] && !armed && numBytesPending == 0
      ensures given == submitted == old(submitted)
    {
      var i := 0;
      while armed
        invariant Valid() && connected && !disconnecting && !failed && point == Waiting && submitted == old(submitted)
        decreases |tasksSend|, armed
      {
        WillingIsSound(sockets(i));
        EventTransmit(sockets(i));
        if point == Popping {
          EventPop();
        }
        EventDisarm();
        i := i + 1;
      }
      assert given + [] == given;
    }
  }

  lemma WillingIsSound(socket: Socket)
    ensures Willing(socket) ==> Sound(socket)
  {
  }

  datatype Op = DoSend(buffer: seq<byte>) | DoTransmit | DoPop | DoDisarm | DoDisconnect | DoEnd | DoLeave

  /** All that the threads hand to `send`, in the order in which they get the lock. */
  function Handed(ops: seq<Op>): seq<byte> {
    if ops == [] then []
    else Handed(ops[..|ops| - 1]) + (match ops[|ops| - 1] case DoSend(buffer) => buffer case _ => [])
  }

  /** Nobody disconnects, and the socket never fails. */
  ghost predicate Undisturbed(ops: seq<Op>, sockets: nat -> Socket) {
    && (forall k | 0 <= k < |ops| :: ops[k] != DoDisconnect)
    && (forall k: nat :: Sound(sockets(k)))
  }

  /** One step of a run, if it is one that can be taken. */
  method Take(c: Connection, op: Op, socket: Socket)
    requires c.Valid()
    modifies c
    ensures c.Valid()
    ensures c.connected ==> old(c.connected)
    ensures c.connected ==> c.submitted == old(c.submitted) + (match op case DoSend(buffer) => buffer case _ => [])
    ensures op != DoDisconnect && Sound(socket) && old(c.connected && !c.disconnecting && !c.failed) ==>
              c.connected && !c.disconnecting && !c.failed
  {
    assert c.submitted + [] == c.submitted;
    match op {
      case DoSend(buffer) => c.Send(buffer, socket);
      case DoTransmit => if c.point == Waiting { c.EventTransmit(socket); }
      case DoPop => if c.point == Popping { c.EventPop(); }
      case DoDisarm => if c.point == Disarming { c.EventDisarm(); }
      case DoDisconnect => c.Disconnect();
      case DoEnd => if c.point in {Waiting, Failing} { c.EventEnd(); }
      case DoLeave => if c.point == Leaving { c.EventLeave(); }
    }
  }

  /** Over any run, while the connection lives, nothing that was handed to `send` is lost, repeated or
      reordered: it went to the socket or waits in the queue; what waits is what is counted; while
      anything waits EPOLLOUT is armed, unless the socket failed.  The connection lives unless a thread
      disconnects it or the socket fails, and one farewell is said when it is over. */
  method AnyRun(ops: seq<Op>, sockets: nat -> Socket) returns (c: Connection)
    ensures fresh(c) && c.Valid()
    ensures c.connected ==> c.given + Joined(c.tasksSend) == Handed(ops)
    ensures c.numBytesPending == |Joined(c.tasksSend)|
    ensures c.tasksSend != [] && !c.failed ==> c.armed
    ensures c.farewells == if c.connected || c.point == Leaving then 0 else 1
    ensures Undisturbed(ops, sockets) ==> c.connected && !c.disconnecting && !c.failed
  {
    c := new Connection();
    var i := 0;
    assert ops[..0] == [];
    while i < |ops|
      invariant i <= |ops|
      invariant fresh(c) && c.Valid()
      invariant c.connected ==> c.submitted == Handed(ops[..i])
      invariant Undisturbed(ops, sockets) ==> c.connected && !c.disconnecting && !c.failed
    {
      assert ops[..i + 1][..i] == ops[..i];
      Take(c, ops[i], sockets(i));
      i := i + 1;
    }
    assert ops[..|ops|] == ops;
  }

  /** Whatever an undisturbed run left waiting, a willing socket takes: in the end it has had every byte
      handed to `send`, in order. */
  method RunAndDrain(ops: seq<Op>, sockets: nat -> Socket, willing: nat -> Socket) returns (c: Connection)
    requires Undisturbed(ops, sockets) && forall k: nat :: Willing(willing(k))
    ensures fresh(c) && c.Valid() && c.connected
    ensures c.given == Handed(ops) && c.tasksSend == [] && !c.armed
  {
    hide Undisturbed, Handed, Joined, Willing;
    c := AnyRun(ops, sockets);
    assert c.submitted == Handed(ops);
    if c.point == Popping {
      c.EventPop();
    }
    if c.point == Disarming {
      c.EventDisarm();
    }
    c.Drain(willing);
  }
}
