/** Disconnecting on Windows, where operations overlap: one completion thread, any number of other
    threads, and a count of the operations that are posted.  A section under the connection's lock is
    one step.  Of a buffer to send there is how many bytes are left; the list of those to fill is its
    length. */
module WinConnections {
  import opened Sums

  /** What the completion thread does next with the operation it was handed.  `Closing` is the end of
      `whenSendDone` and `whenRecvDone`; `ErrorMark` and `ErrorEnd` are the two sections of the
      `disconnect0` called by `whenError`. */
  datatype Completer =
    | Idle
    | SendCount(n: nat) | SendPop | SendPost | RecvPop | RecvPost
    | Closing(broken: bool)
    | ErrorMark | ErrorEnd
    | Farewell | Decrease

  /** Where another thread is: outside, or before a section of `disconnect0`. */
  datatype Caller = Outside | Mark | End | Bidding

  /** `posted` is `m_countPost` and `pending` is `m_numBytesPending`; `sends` and `recvs` are the operations
      the system has. */
  datatype Connection = Connection(connected: bool, disconnecting: bool, handle: bool, posted: nat, pending: int,
                                   sends: nat, recvs: nat, tasksSend: seq<nat>, tasksRecv: nat,
                                   completer: Completer, callers: seq<Caller>, farewells: nat)
  {
    function Overlapped(): nat {
      sends + recvs
    }
  }

  /** How an operation ends: with so many bytes, or in error. */
  datatype Ending = Bytes(n: nat) | InError

  /** `ok` says whether the system takes a post; it never does when the handle is closed.  `finished` says
      whether the buffer of a receive is full. */
  datatype Action =
    | CallSend(thread: nat, len: nat, ok: bool)
    | CallRecv(thread: nat, ok: bool)
    | CallDisconnect(thread: nat)
    | Continue(thread: nat)
    | SendEnds(ending: Ending)
    | RecvEnds(ending: Ending, finished: bool)
    | Complete(ok: bool)

  function Initial(threads: nat): Connection {
    Connection(true, false, true, 0, 0, 0, 0, [], 0, Idle, seq(threads, _ => Outside), 0)
  }

  /** First section of `disconnect0`. */
  function Marked(s: Connection): Connection {
    if s.disconnecting || !s.connected then s else s.(disconnecting := true, handle := false)
  }

  /** Second section: is this the thread to say farewell? */
  predicate Last(s: Connection, decrease: bool) {
    s.connected && (if decrease then s.posted <= 1 else s.posted == 0)
  }

  function Closed(s: Connection): Connection {
    s.(connected := false, tasksSend := [], tasksRecv := 0, pending := 0, farewells := s.farewells + 1)
  }

  function Posted(s: Connection, send: bool): Connection {
    if send then s.(posted := s.posted + 1, sends := s.sends + 1) else s.(posted := s.posted + 1, recvs := s.recvs + 1)
  }

  function CallerAt(s: Connection, i: nat, at: Caller): Connection
    requires i < |s.callers|
  {
    s.(callers := s.callers[i := at])
  }

  /** Post the only task there is. */
  function Posting(s: Connection, i: nat, send: bool, ok: bool): Connection
    requires i < |s.callers|
  {
    if ok && s.handle then Posted(s, send) else CallerAt(s, i, Mark)
  }

  /** `send`: an empty buffer is not sent. */
  function SendCalled(s: Connection, i: nat, len: nat, ok: bool): Connection
    requires i < |s.callers|
  {
    if len == 0 || !s.connected then s
    else
      var s1 := s.(tasksSend := s.tasksSend + [len], pending := s.pending + len);
      if s.tasksSend == [] then Posting(s1, i, true, ok) else s1
  }

  /** `recv` */
  function RecvCalled(s: Connection, i: nat, ok: bool): Connection
    requires i < |s.callers|
  {
    if !s.connected then s
    else
      var s1 := s.(tasksRecv := s.tasksRecv + 1);
      if s.tasksRecv == 0 then Posting(s1, i, false, ok) else s1
  }

  function Continued(s: Connection, i: nat): Connection
    requires i < |s.callers|
  {
    match s.callers[i]
    case Outside => s
    case Mark => CallerAt(Marked(s), i, End)
    case End => if Last(s, false) then CallerAt(Closed(s), i, Bidding) else CallerAt(s, i, Outside)
    case Bidding => CallerAt(s.(disconnecting := false), i, Outside)
  }

  /** `send0` and `recv0` of the completion thread. */
  function Reposted(s: Connection, send: bool, ok: bool): Connection {
    if (if send then s.tasksSend == [] else s.tasksRecv == 0) then s.(completer := Closing(false))
    else if ok && s.handle then Posted(s, send).(completer := Closing(false))
    else s.(completer := Closing(true))
  }

  function EndSection(s: Connection): Connection {
    if Last(s, true) then Closed(s).(completer := Farewell) else s.(completer := Decrease)
  }

  function Completed(s: Connection, ok: bool): Connection {
    match s.completer
    case Idle => s
    case SendCount(n) =>
      if s.tasksSend == [] || n > s.tasksSend[0] then s
      else
        var left := s.tasksSend[0] - n;
        s.(pending := s.pending - n, tasksSend := s.tasksSend[0 := left],
           completer := if left == 0 then SendPop else SendPost)
    case SendPop =>
      var rest := if s.tasksSend == [] then [] else s.tasksSend[1..];
      s.(tasksSend := rest, completer := if rest != [] then SendPost else Closing(false))
    case RecvPop => s.(tasksRecv := if s.tasksRecv > 0 then s.tasksRecv - 1 else 0, completer := RecvPost)
    case SendPost => Reposted(s, true, ok)
    case RecvPost => Reposted(s, false, ok)
    case Closing(broken) =>
      if s.disconnecting || broken then EndSection(Marked(s))
      else s.(completer := Idle, posted := if s.posted > 0 then s.posted - 1 else 0)
    case ErrorMark => Marked(s).(completer := ErrorEnd)
    case ErrorEnd => EndSection(s)
    case Farewell => s.(disconnecting := false, completer := Decrease)
    case Decrease => s.(completer := Idle, posted := if s.posted > 0 then s.posted - 1 else 0)
  }

  function Ended(ending: Ending, more: Completer): Completer {
    match ending
    case Bytes(n) => if n == 0 then Closing(true) else more
    case InError => ErrorMark
  }

  /** The system sends no more bytes than it is given. */
  predicate CanSend(s: Connection, ending: Ending) {
    ending.Bytes? ==> s.tasksSend == [] || ending.n <= s.tasksSend[0]
  }

  function Step(s: Connection, a: Action): Connection {
    match a
    case CallSend(i, len, ok) => if i < |s.callers| && s.callers[i] == Outside then SendCalled(s, i, len, ok) else s
    case CallRecv(i, ok) => if i < |s.callers| && s.callers[i] == Outside then RecvCalled(s, i, ok) else s
    case CallDisconnect(i) => if i < |s.callers| && s.callers[i] == Outside then CallerAt(s, i, Mark) else s
    case Continue(i) => if i < |s.callers| then Continued(s, i) else s
    case SendEnds(ending) =>
      if s.completer == Idle && s.sends > 0 && CanSend(s, ending)
      then s.(sends := s.sends - 1, completer := Ended(ending, SendCount(if ending.Bytes? then ending.n else 0)))
      else s
    case RecvEnds(ending, finished) =>
      if s.completer == Idle && s.recvs > 0
      then s.(recvs := s.recvs - 1, completer := Ended(ending, if finished then RecvPop else RecvPost))
      else s
    case Complete(ok) => Completed(s, ok)
  }

  function Run(s: Connection, actions: seq<Action>): Connection
    decreases |actions|
  {
    if actions == [] then s else Run(Step(s, actions[0]), actions[1..])
  }

  /** A thread is about to see whether it is the last. */
  ghost predicate SomeoneEnding(callers: seq<Caller>) {
    exists i | 0 <= i < |callers| :: callers[i] == End
  }

  ghost predicate Controlled(s: Connection) {
    && s.posted == s.Overlapped() + (if s.completer == Idle then 0 else 1)
    && s.farewells == (if s.connected then 0 else 1)
    && (s.handle <==> s.connected && !s.disconnecting)
    && (!s.connected ==> s.Overlapped() == 0 && s.completer in {Idle, Farewell, Decrease})
    && (!s.connected ==> s.tasksSend == [] && s.tasksRecv == 0)
    && (s.completer == Farewell ==> !s.connected)
    && (forall i | 0 <= i < |s.callers| :: s.callers[i] == Bidding ==> !s.connected)
    && (forall i | 0 <= i < |s.callers| :: s.callers[i] == End && s.connected ==> s.disconnecting)
    && (s.connected && s.completer == Decrease ==> s.Overlapped() > 0)
    && (s.connected && s.completer == ErrorEnd ==> s.disconnecting)
    && (s.connected && s.disconnecting ==> s.posted > 0 || SomeoneEnding(s.callers))
  }

  /** At most one send is in the hands of the system or of the completion thread; its task is at the front
      of the list, and only that task can have nothing left to send. */
  predicate OneSend(s: Connection) {
    && s.sends <= 1
    && (s.sends == 1 ==> s.tasksSend != [] && !s.completer.SendCount? && s.completer !in {SendPop, SendPost})
    && (s.completer.SendCount? ==> s.tasksSend != [] && 0 < s.completer.n <= s.tasksSend[0])
    && (s.completer in {SendPop, SendPost} ==> s.tasksSend != [])
    && (s.completer == SendPop ==> s.tasksSend[0] == 0)
    && (forall k | 0 <= k < |s.tasksSend| :: s.tasksSend[k] > 0 || (k == 0 && s.completer == SendPop))
  }

  ghost predicate Sending(s: Connection) {
    OneSend(s) && s.pending == Sum(s.tasksSend)
  }

  ghost predicate Inv(s: Connection) {
    Controlled(s) && Sending(s)
  }

  lemma InitialInv(threads: nat)
    ensures Inv(Initial(threads))
  {
  }

  lemma EndingStays(callers: seq<Caller>, i: nat, at: Caller)
    requires i < |callers| && SomeoneEnding(callers) && callers[i] != End
    ensures SomeoneEnding(callers[i := at])
  {
    var j :| 0 <= j < |callers| && callers[j] == End;
    assert callers[i := at][j] == End;
  }

  /** Who else is about to see whether it is the last does not change with thread `i`'s step. */
  lemma Endings(callers: seq<Caller>, i: nat, at: Caller)
    requires i < |callers|
    ensures SomeoneEnding(callers) && callers[i] != End ==> SomeoneEnding(callers[i := at])
    ensures at == End ==> SomeoneEnding(callers[i := at])
  {
    if SomeoneEnding(callers) && callers[i] != End {
      EndingStays(callers, i, at);
    }
    if at == End {
      assert callers[i := at][i] == End;
    }
  }

  lemma CallControlled(s: Connection, a: Action)
    requires Inv(s) && (a.CallSend? || a.CallRecv? || a.CallDisconnect?)
    ensures Controlled(Step(s, a))
  {
    hide SomeoneEnding, Sending;
    var i, s' := a.thread, Step(s, a);
    if i < |s.callers| {
      Endings(s.callers, i, s'.callers[i]);
      assert s'.callers == s.callers[i := s'.callers[i]];
    }
  }

  lemma ContinueControlled(s: Connection, i: nat)
    requires Inv(s)
    ensures Controlled(Step(s, Continue(i)))
  {
    hide SomeoneEnding, Sending;
    var s' := Step(s, Continue(i));
    if i < |s.callers| {
      Endings(s.callers, i, s'.callers[i]);
      assert s'.callers == s.callers[i := s'.callers[i]];
    }
  }

  lemma EndControlled(s: Connection, a: Action)
    requires Inv(s) && (a.SendEnds? || a.RecvEnds?)
    ensures Controlled(Step(s, a))
  {
    hide SomeoneEnding, Sum;
  }

  lemma CompleteControlled(s: Connection, ok: bool)
    requires Inv(s)
    ensures Controlled(Completed(s, ok))
  {
    hide SomeoneEnding, Sum;
  }

  lemma SendCalledSends(s: Connection, i: nat, len: nat, ok: bool)
    requires Sending(s) && i < |s.callers|
    ensures Sending(SendCalled(s, i, len, ok))
  {
    hide Sum;
    SumMore(s.tasksSend, len);
    if len > 0 && s.connected {
      var s' := SendCalled(s, i, len, ok);
      assert s'.tasksSend == s.tasksSend + [len] && s'.completer == s.completer;
      assert s'.sends == s.sends || (s'.sends == s.sends + 1 && s.tasksSend == []);
      assert forall k | 0 <= k < |s.tasksSend| :: s'.tasksSend[k] == s.tasksSend[k];
    }
  }

  lemma RecvCalledSends(s: Connection, i: nat, ok: bool)
    requires Sending(s) && i < |s.callers|
    ensures Sending(RecvCalled(s, i, ok))
  {
    hide Sum;
  }

  lemma CompleteSends(s: Connection, ok: bool)
    requires Inv(s)
    ensures Sending(Completed(s, ok))
  {
    if s.completer.SendCount? {
      SumUpdate(s.tasksSend, 0, s.tasksSend[0] - s.completer.n);
    }
  }

  lemma StepSends(s: Connection, a: Action)
    requires Inv(s)
    ensures Sending(Step(s, a))
  {
    hide SendCalled, RecvCalled, Completed;
    match a {
      case CallSend(i, len, ok) => if i < |s.callers| { SendCalledSends(s, i, len, ok); }
      case CallRecv(i, ok) => if i < |s.callers| { RecvCalledSends(s, i, ok); }
      case Complete(ok) => CompleteSends(s, ok);
      case _ =>
    }
  }

  lemma StepInv(s: Connection, a: Action)
    requires Inv(s)
    ensures Inv(Step(s, a))
  {
    StepSends(s, a);
    match a {
      case SendEnds(_) => EndControlled(s, a);
      case RecvEnds(_, _) => EndControlled(s, a);
      case Complete(ok) => CompleteControlled(s, ok);
      case Continue(i) => ContinueControlled(s, i);
      case _ => CallControlled(s, a);
    }
    hide *;
  }

  lemma {:induction false} RunInv(s: Connection, actions: seq<Action>)
    requires Inv(s)
    ensures Inv(Run(s, actions))
    decreases |actions|
  {
    if actions != [] {
      StepInv(s, actions[0]);
      RunInv(Step(s, actions[0]), actions[1..]);
    }
  }

  /** Over every run, with any number of threads: `onDisconnected` is called at most once; when it is, no
      operation is with the system; and the connection cannot be left half closed, that is, connected
      and disconnecting with nothing posted, unless a thread is about to finish the job. */
  lemma DisconnectsOnce(threads: nat, actions: seq<Action>)
    ensures var s := Run(Initial(threads), actions);
            && s.farewells <= 1
            && (s.farewells == 1 <==> !s.connected)
            && (s.farewells == 1 ==> s.Overlapped() == 0)
            && (s.connected && s.disconnecting && s.posted == 0 ==> SomeoneEnding(s.callers))
  {
    InitialInv(threads);
    RunInv(Initial(threads), actions);
  }

  /** The step that says farewell is taken with nothing in flight but, if it is the completion thread's,
      the operation it is completing; and the handle is closed by then. */
  lemma FarewellIsLast(s: Connection, a: Action)
    requires Inv(s) && Step(s, a).farewells != s.farewells
    ensures s.connected && s.Overlapped() == 0 && s.posted == (if a.Complete? then 1 else 0)
    ensures !Step(s, a).connected && !Step(s, a).handle && Step(s, a).farewells == s.farewells + 1
  {
  }

  /** The assertion in `popFirstTask` holds of sends: over every run, a send that completes finds its
      task in the list. */
  lemma SentTaskIsThere(threads: nat, actions: seq<Action>)
    requires Run(Initial(threads), actions).completer == SendPop
    ensures Run(Initial(threads), actions).tasksSend != []
  {
    InitialInv(threads);
    RunInv(Initial(threads), actions);
  }

  /** The other assertions on the way of a send: over every run the bytes pending are those of the buffers in
      the list, so there are none when a send finds it empty, and a send that completes leaves no fewer
      than none. */
  lemma PendingIsWhatWaits(threads: nat, actions: seq<Action>)
    ensures var s := Run(Initial(threads), actions);
            && s.pending == Sum(s.tasksSend) && (s.tasksSend == [] ==> s.pending == 0)
            && (s.completer.SendCount? ==> s.pending >= s.completer.n)
  {
    InitialInv(threads);
    RunInv(Initial(threads), actions);
  }

  ghost predicate SomeoneAt(callers: seq<Caller>, at: Caller) {
    exists i | 0 <= i < |callers| :: callers[i] == at
  }

  lemma StaysAt(callers: seq<Caller>, i: nat, x: Caller, at: Caller)
    requires i < |callers|
    ensures SomeoneAt(callers, at) && callers[i] != at ==> SomeoneAt(callers[i := x], at)
    ensures x == at ==> SomeoneAt(callers[i := x], at)
  {
    if SomeoneAt(callers, at) && callers[i] != at {
      var j :| 0 <= j < |callers| && callers[j] == at;
      assert callers[i := x][j] == at;
    }
    if x == at {
      assert callers[i := x][i] == at;
    }
  }

  /** The connection is about to be marked for closing. */
  ghost predicate Breaking(s: Connection) {
    s.completer in {Closing(true), ErrorMark} || SomeoneAt(s.callers, Mark)
  }

  /** Nothing is forgotten: as long as the handle is open, something that waits to be sent is with the
      system, or on the completion thread's way back to it, or the connection is about to be closed; and so
      is a buffer that waits to be filled. */
  ghost predicate Alive(s: Connection) {
    && (s.handle && s.tasksSend != [] ==>
          s.sends == 1 || s.completer.SendCount? || s.completer in {SendPop, SendPost} || Breaking(s))
    && (s.handle && s.tasksRecv > 0 ==> s.recvs > 0 || s.completer in {RecvPop, RecvPost} || Breaking(s))
    && (s.disconnecting && !s.connected ==> s.completer == Farewell || SomeoneAt(s.callers, Bidding))
  }

  lemma CallStaysAlive(s: Connection, a: Action)
    requires Inv(s) && Alive(s) && (a.CallSend? || a.CallRecv? || a.CallDisconnect?)
    ensures Alive(Step(s, a))
  {
    hide SomeoneAt, SomeoneEnding, Sum;
    var i, s' := a.thread, Step(s, a);
    if i < |s.callers| {
      assert s'.callers == s.callers[i := s'.callers[i]];
      StaysAt(s.callers, i, s'.callers[i], Mark);
      StaysAt(s.callers, i, s'.callers[i], Bidding);
    }
  }

  lemma ContinueStaysAlive(s: Connection, i: nat)
    requires Inv(s) && Alive(s)
    ensures Alive(Step(s, Continue(i)))
  {
    hide SomeoneAt, SomeoneEnding, Sum, OneSend;
    var s' := Step(s, Continue(i));
    if i < |s.callers| {
      assert s'.callers == s.callers[i := s'.callers[i]];
      StaysAt(s.callers, i, s'.callers[i], Mark);
      StaysAt(s.callers, i, s'.callers[i], Bidding);
      match s.callers[i] {
        case Outside => assert s' == s;
        case Mark => assert !s'.handle;
        case End => assert !s'.handle || s' == CallerAt(s, i, Outside);
        case Bidding => assert !s'.handle;
      }
    }
  }

  lemma CompleteStaysAlive(s: Connection, a: Action)
    requires Inv(s) && Alive(s) && (a.SendEnds? || a.RecvEnds? || a.Complete?)
    ensures Alive(Step(s, a))
  {
    hide SomeoneAt, SomeoneEnding, Sum;
  }

  lemma {:induction false} RunStaysAlive(s: Connection, actions: seq<Action>)
    requires Inv(s) && Alive(s)
    ensures Alive(Run(s, actions))
    decreases |actions|
  {
    if actions != [] {
      var a := actions[0];
      StepInv(s, a);
      match a {
        case CallSend(_, _, _) => CallStaysAlive(s, a);
        case CallRecv(_, _) => CallStaysAlive(s, a);
        case CallDisconnect(_) => CallStaysAlive(s, a);
        case Continue(i) => ContinueStaysAlive(s, i);
        case _ => CompleteStaysAlive(s, a);
      }
      RunStaysAlive(Step(s, a), actions[1..]);
    }
  }

  /** Over every run, with any number of threads. */
  lemma NothingIsForgotten(threads: nat, actions: seq<Action>)
    ensures Inv(Run(Initial(threads), actions)) && Alive(Run(Initial(threads), actions))
  {
    InitialInv(threads);
    RunInv(Initial(threads), actions);
    RunStaysAlive(Initial(threads), actions);
  }

  /** The handle is open, and nobody is about to close it. */
  ghost predicate Well(s: Connection) {
    s.connected && s.handle && !Breaking(s)
  }

  /** Nobody disconnects, the system takes what it is given, and no operation ends without bytes. */
  predicate Calm(a: Action) {
    match a
    case CallSend(_, _, ok) => ok
    case CallRecv(_, ok) => ok
    case CallDisconnect(_) => false
    case Continue(_) => true
    case SendEnds(ending) => ending.Bytes? && ending.n > 0
    case RecvEnds(ending, _) => ending.Bytes? && ending.n > 0
    case Complete(ok) => ok
  }

  lemma CalmStaysWell(s: Connection, a: Action)
    requires Inv(s) && Well(s) && Calm(a)
    ensures Well(Step(s, a))
  {
    hide SomeoneEnding, Sum, OneSend;
    assert forall i | 0 <= i < |s.callers| :: s.callers[i] != Mark;
  }

  lemma {:induction false} CalmRunStaysWell(s: Connection, actions: seq<Action>)
    requires Inv(s) && Well(s) && forall k | 0 <= k < |actions| :: Calm(actions[k])
    ensures Well(Run(s, actions))
    decreases |actions|
  {
    if actions != [] {
      StepInv(s, actions[0]);
      CalmStaysWell(s, actions[0]);
      CalmRunStaysWell(Step(s, actions[0]), actions[1..]);
    }
  }

  /** How far the completion thread is from being handed the next operation. */
  function Rank(completer: Completer): nat {
    match completer
    case SendCount(_) => 0
    case Idle => 1
    case SendPop => 5
    case SendPost => 4
    case RecvPop => 5
    case RecvPost => 4
    case Closing(_) => 3
    case ErrorMark => 5
    case ErrorEnd => 4
    case Farewell => 3
    case Decrease => 2
  }

  /** What happens next if the system and the completion thread go on with sending; the system takes `takes`
      bytes, if there are as many, and at least one. */
  function Next(s: Connection, takes: nat): Action {
    if s.completer == Idle && s.tasksSend != [] && s.tasksSend[0] > 0 then SendEnds(Bytes(1 + takes % s.tasksSend[0]))
    else Complete(true)
  }

  lemma NextSends(s: Connection, takes: nat)
    requires Inv(s) && Alive(s) && Well(s) && s.tasksSend != []
    ensures var s' := Step(s, Next(s, takes));
            && Inv(s') && Alive(s') && Well(s')
            && (|s'.tasksSend| < |s.tasksSend|
                || (&& |s'.tasksSend| == |s.tasksSend| && s'.pending <= s.pending
                    && (s'.pending < s.pending || Rank(s'.completer) < Rank(s.completer))))
  {
    hide SomeoneEnding, SomeoneAt;
    StepInv(s, Next(s, takes));
    CompleteStaysAlive(s, Next(s, takes));
  }

  /** A system that takes what it is given has taken every byte there is to send in the end, however it cuts
      them up. */
  lemma {:induction false} Drain(s: Connection, takes: nat -> nat, calls: nat) returns (actions: seq<Action>)
    requires Inv(s) && Alive(s) && Well(s)
    ensures var s' := Run(s, actions); Well(s') && s'.tasksSend == [] && s'.pending == 0
    decreases |s.tasksSend|, s.pending, Rank(s.completer)
  {
    hide Inv, Alive, Well, Step;
    if s.tasksSend == [] {
      PendingOfNone(s);
      actions := [];
    } else {
      NextSends(s, takes(calls));
      PendingOfNone(s);
      PendingOfNone(Step(s, Next(s, takes(calls))));
      var rest := Drain(Step(s, Next(s, takes(calls))), takes, calls + 1);
      actions := [Next(s, takes(calls))] + rest;
      assert actions[1..] == rest;
    }
  }

  lemma PendingOfNone(s: Connection)
    requires Inv(s)
    ensures s.pending >= 0 && (s.tasksSend == [] ==> s.pending == 0)
  {
  }

  /** Over every calm run, and then on. */
  lemma RunAndDrain(threads: nat, actions: seq<Action>, takes: nat -> nat) returns (more: seq<Action>)
    requires forall k | 0 <= k < |actions| :: Calm(actions[k])
    ensures var s := Run(Run(Initial(threads), actions), more);
            s.connected && s.handle && s.tasksSend == [] && s.pending == 0
  {
    NothingIsForgotten(threads, actions);
    InitialInv(threads);
    CalmRunStaysWell(Initial(threads), actions);
    more := Drain(Run(Initial(threads), actions), takes, 0);
  }

  /** How far the completion thread is from being handed the next buffer that was filled. */
  function FillRank(s: Connection): nat {
    10 * s.recvs + match s.completer
                   case SendCount(_) => 6
                   case RecvPost => 14
                   case completer => Rank(completer)
  }

  /** What happens next if the system fills one buffer after the other. */
  function NextFilled(s: Connection): Action {
    if s.completer == Idle && s.recvs > 0 then RecvEnds(Bytes(1), true) else Complete(true)
  }

  lemma NextFills(s: Connection)
    requires Inv(s) && Alive(s) && Well(s) && s.tasksRecv > 0
    ensures var s' := Step(s, NextFilled(s));
            && Inv(s') && Alive(s') && Well(s')
            && (s'.tasksRecv < s.tasksRecv || (s'.tasksRecv == s.tasksRecv && FillRank(s') < FillRank(s)))
  {
    hide SomeoneEnding, SomeoneAt, Sum;
    StepInv(s, NextFilled(s));
    CompleteStaysAlive(s, NextFilled(s));
  }

  /** A system that fills the buffers it is given has filled each of them in the end. */
  lemma {:induction false} Fill(s: Connection) returns (actions: seq<Action>)
    requires Inv(s) && Alive(s) && Well(s)
    ensures Well(Run(s, actions)) && Run(s, actions).tasksRecv == 0
    decreases s.tasksRecv, FillRank(s)
  {
    hide Inv, Alive, Well, Step, FillRank;
    if s.tasksRecv == 0 {
      actions := [];
    } else {
      NextFills(s);
      var rest := Fill(Step(s, NextFilled(s)));
      actions := [NextFilled(s)] + rest;
      assert actions[1..] == rest;
    }
  }

  lemma RunAndFill(threads: nat, actions: seq<Action>) returns (more: seq<Action>)
    requires forall k | 0 <= k < |actions| :: Calm(actions[k])
    ensures var s := Run(Run(Initial(threads), actions), more); s.connected && s.handle && s.tasksRecv == 0
  {
    NothingIsForgotten(threads, actions);
    InitialInv(threads);
    CalmRunStaysWell(Initial(threads), actions);
    more := Fill(Run(Initial(threads), actions));
  }

  /** What happens next once the handle is closed: the operations end in error, one after the other, and the
      threads go on. */
  lemma NextCloses(s: Connection) returns (a: Action)
    requires Inv(s) && Alive(s) && !s.handle && (s.connected || s.disconnecting)
    ensures var s' := Step(s, a);
            && Inv(s') && Alive(s') && !s'.handle
            && (|| (s.connected && !s'.connected)
                || (!s'.connected && !s'.disconnecting)
                || (s'.connected == s.connected
                    && (|| s'.Overlapped() < s.Overlapped()
                        || (&& s'.Overlapped() == s.Overlapped() && s'.pending <= s.pending
                            && (s'.pending < s.pending || Rank(s'.completer) < Rank(s.completer))))))
  {
    if s.completer != Idle {
      a := Complete(false);
      CompleteStaysAlive(s, a);
    } else if s.sends > 0 {
      a := SendEnds(InError);
      CompleteStaysAlive(s, a);
    } else if s.recvs > 0 {
      a := RecvEnds(InError, false);
      CompleteStaysAlive(s, a);
    } else if s.connected {
      var i :| 0 <= i < |s.callers| && s.callers[i] == End;
      a := Continue(i);
      ContinueStaysAlive(s, i);
    } else {
      var i :| 0 <= i < |s.callers| && s.callers[i] == Bidding;
      a := Continue(i);
      ContinueStaysAlive(s, i);
    }
    StepInv(s, a);
    hide Inv, Alive, Sum;
  }

  /** So a connection whose handle is closed is disconnected in the end, and its mark cleared. */
  lemma {:induction false} FinishClosing(s: Connection) returns (actions: seq<Action>)
    requires Inv(s) && Alive(s) && !s.handle
    ensures var s' := Run(s, actions); !s'.connected && !s'.disconnecting && s'.farewells == 1
    decreases s.connected, s.Overlapped(), s.pending, Rank(s.completer)
  {
    if !s.connected && !s.disconnecting {
      actions := [];
    } else {
      var a := NextCloses(s);
      hide Alive;
      if !Step(s, a).connected && !Step(s, a).disconnecting {
        actions := [a];
        assert Run(Step(s, a), []) == Step(s, a);
      } else {
        var rest := FinishClosing(Step(s, a));
        actions := [a] + rest;
        assert actions[1..] == rest;
      }
    }
  }

  /** After any run a thread that is free can disconnect the connection: it is closed in the end, and one
      farewell said. */
  lemma DisconnectCloses(threads: nat, actions: seq<Action>, i: nat) returns (more: seq<Action>)
    requires i < |Run(Initial(threads), actions).callers| && Run(Initial(threads), actions).callers[i] == Outside
    ensures var s := Run(Run(Initial(threads), actions), [CallDisconnect(i), Continue(i)] + more);
            !s.connected && !s.disconnecting && s.farewells == 1
  {
    NothingIsForgotten(threads, actions);
    var s := Run(Initial(threads), actions);
    var s1 := Step(s, CallDisconnect(i));
    var s2 := Step(s1, Continue(i));
    StepInv(s, CallDisconnect(i));
    CallStaysAlive(s, CallDisconnect(i));
    StepInv(s1, Continue(i));
    ContinueStaysAlive(s1, i);
    assert !s2.handle;
    more := FinishClosing(s2);
    var all := [CallDisconnect(i), Continue(i)] + more;
    assert all[1..] == [Continue(i)] + more && all[1..][1..] == more;
    hide Step;
    assert Run(s, all) == Run(s1, all[1..]) == Run(s2, more);
  }

  /** Another thread's `recv` finds the list empty while the completion thread, having taken a task off,
      is about to post the next: it posts, and the completion thread posts the same task again. */
  predicate PostsTwice(s: Connection, a: Action) {
    && a.CallRecv? && a.thread < |s.callers| && s.callers[a.thread] == Outside
    && s.completer == RecvPost && s.connected && s.tasksRecv == 0 && a.ok && s.handle
  }

  predicate Polite(s: Connection, actions: seq<Action>)
    decreases |actions|
  {
    actions == [] || (!PostsTwice(s, actions[0]) && Polite(Step(s, actions[0]), actions[1..]))
  }

  ghost predicate OneRecv(s: Connection) {
    && s.recvs <= 1
    && (s.recvs == 1 ==> s.tasksRecv > 0 && s.completer !in {RecvPop, RecvPost})
    && (s.completer == RecvPop ==> s.tasksRecv > 0)
  }

  lemma {:induction false} PoliteRunOneRecv(s: Connection, actions: seq<Action>)
    requires Inv(s) && OneRecv(s) && Polite(s, actions)
    ensures OneRecv(Run(s, actions))
    decreases |actions|
  {
    if actions != [] {
      StepInv(s, actions[0]);
      OneRecvStays(s, actions[0]);
      PoliteRunOneRecv(Step(s, actions[0]), actions[1..]);
    }
  }

  lemma OneRecvStays(s: Connection, a: Action)
    requires Inv(s) && OneRecv(s) && !PostsTwice(s, a)
    ensures OneRecv(Step(s, a))
  {
  }

  /** The assertion in `popFirstTask` holds of receives as long as no thread posts in that gap. */
  lemma ReceivedTaskIsThere(threads: nat, actions: seq<Action>)
    requires Polite(Initial(threads), actions) && Run(Initial(threads), actions).completer == RecvPop
    ensures Run(Initial(threads), actions).tasksRecv > 0
  {
    InitialInv(threads);
    PoliteRunOneRecv(Initial(threads), actions);
  }

  /** Once one does, two more buffers' worth of bytes make the assertion fail. */
  function Overtaken(a: Action): seq<Action> {
    [a, Complete(true), Complete(true), RecvEnds(Bytes(1), true), Complete(true), Complete(true), Complete(true),
     RecvEnds(Bytes(1), true)]
  }

  lemma PostingTwiceFails(s: Connection, a: Action)
    requires Inv(s) && OneRecv(s) && PostsTwice(s, a)
    ensures var s' := Run(s, Overtaken(a));
            s'.completer == RecvPop && s'.tasksRecv == 0
  {
    var actions := Overtaken(a);
    var s1 := Step(s, a);
    var s2 := s1.(recvs := 2, posted := s.posted + 2, completer := Closing(false));
    var s3 := s2.(posted := s.posted + 1, completer := Idle);
    var s4 := s3.(recvs := 1, completer := RecvPop);
    var s5 := s4.(tasksRecv := 0, completer := RecvPost);
    var s6 := s5.(completer := Closing(false));
    var s7 := s6.(posted := s.posted, completer := Idle);
    var s8 := s7.(recvs := 0, completer := RecvPop);
    assert s1.recvs == 1 && s1.tasksRecv == 1;
    assert Completed(s1, true) == s2 && Completed(s2, true) == s3;
    assert Step(s3, RecvEnds(Bytes(1), true)) == s4;
    assert Completed(s4, true) == s5 && Completed(s5, true) == s6 && Completed(s6, true) == s7;
    assert Step(s7, RecvEnds(Bytes(1), true)) == s8;
    FollowsStates(actions, [s, s1, s2, s3, s4, s5, s6, s7, s8], 0);
    assert actions[0..] == actions;
  }

  lemma {:induction false} FollowsStates(actions: seq<Action>, states: seq<Connection>, i: nat)
    requires |states| == |actions| + 1 && i <= |actions|
    requires forall k | 0 <= k < |actions| :: Step(states[k], actions[k]) == states[k + 1]
    ensures Run(states[i], actions[i..]) == states[|actions|]
    decreases |actions| - i
  {
    if i < |actions| {
      assert actions[i..][1..] == actions[i + 1..];
      FollowsStates(actions, states, i + 1);
    }
  }
}
