/** A file transfer between a viewer, who started it, and a guard: both sides' tasks, the guard's
    file handlers and the viewer's message glue.

    A section under a task's mutex is one step.  What it announces afterwards is sent in a step of its
    own, so stops, resumes and timeouts come in between.  Messages are never taken out of a channel:
    any of them may be delayed, overtaken, lost or delivered again, which covers what one connection
    after another can do.  Time is not counted: a task may expire whenever it is being used. */
module Transfers {
  import opened Bytes
  import opened FileTasks

  datatype ToGuard =
    | Open(seek: nat)
    | Close
    | AskBlock(seek: nat, len: nat)
    | SendBlock(seek: nat, data: seq<byte>)

  datatype ToViewer =
    | OpenReply(error: Error)
    | BlockReply(seek: nat, data: seq<byte>)
    | ReadReply(error: Error)
    | WriteReply(error: Error, afterSeek: nat)

  /** `opening`, `closing`, `starting`, `asking` and `sending` are what the viewer has yet to announce;
      `known` says that the guard has the task in its map.  `opens` and `begins` count the times the guard
      opened its file and the viewer began to transmit because of it. */
  datatype System = System(viewer: Task, guard: Task, known: bool,
                           toGuard: set<ToGuard>, toViewer: set<ToViewer>,
                           opening: bool, closing: bool, starting: bool, asking: set<nat>, sending: set<ToGuard>,
                           begins: nat, opens: nat)

  datatype Action =
    | Start(opens: bool, seeks: bool) | Expire | Stop | Resume
    | NotifyOpen | NotifyClose | NotifyAsk(len: nat) | NotifySend(block: ToGuard) | BeginWriting(n: nat, seeks: bool)
    | OpenReplied(error: Error)
    | BlockReplied(seek: nat, data: seq<byte>, seeks: bool)
    | ReadReplied(error: Error)
    | WriteReplied(error: Error, afterSeek: nat, n: nat, seeks: bool)
    | GuardOpens(seek: nat, opens: bool, seeks: bool)
    | GuardCloses
    | GuardReads(seek: nat, len: nat, n: nat, seeks: bool)
    | GuardWrites(seek: nat, data: seq<byte>, seeks: bool)
    | GuardExpires | GuardDrops

  /** A task of the viewer's and the file it is to write, at whichever side, before the transfer. */
  datatype Before = Before(overrides: bool, present: bool, file: seq<byte>, progress: nat)

  /** The viewer has a file, or wants one; the guard's side of the path may be there or not. */
  function Initial(direction: Direction, overrides: bool, progress: nat, mine: bool, own: seq<byte>,
                   theirs: bool, other: seq<byte>): System {
    System(Task(Self, direction, overrides, WaitingForStart, NoError, progress, Closed, 0, mine, own),
           Task(Partner, direction, overrides, Stopped, NoError, 0, Closed, 0, theirs, other), false,
           {}, {}, false, false, false, {}, {}, 0, 0)
  }

  /** The beginning of a download. */
  function Fetching(was: Before, source: seq<byte>): System {
    Initial(ReadFile, was.overrides, was.progress, was.present, was.file, true, source)
  }

  /** A task with progress goes on in a file that has as much of the source, unless it is not let into it. */
  predicate Continues(was: Before, source: seq<byte>) {
    was.progress > 0 && (was.present ==> was.overrides) ==>
      was.present && was.progress <= |was.file| && was.file <= source
  }

  /** `successReadRemoteFileBlock`, without its last line. */
  function BlockHandled(s: System, seek: nat, data: seq<byte>, seeks: bool): (s': System)
    ensures s'.guard == s.guard && s'.known == s.known && s'.begins == s.begins && s'.opens == s.opens
  {
    var (t, e) := WroteBlock(s.viewer, seek, data, seeks);
    if e == NoError then s.(viewer := t, asking := s.asking + {|data|})
    else s.(viewer := t, closing := s.closing || t != s.viewer)
  }

  /** `successWriteRemoteFileBlock`, without the sending of the block. */
  function NextRead(s: System, seek: nat, n: nat, seeks: bool): (s': System)
    ensures s'.guard == s.guard && s'.known == s.known && s'.begins == s.begins && s'.opens == s.opens
  {
    var (t, e, data) := ReadBlock(s.viewer, seek, BLOCK_SIZE, n, seeks);
    if e == NoError then s.(viewer := t, sending := s.sending + {SendBlock(seek, data)})
    else s.(viewer := t, closing := s.closing || t != s.viewer)
  }

  /** The guard's task goes out of the map, and its file is closed. */
  function Dropped(s: System): (s': System)
    ensures s'.viewer == s.viewer && s'.closing == s.closing && s'.toGuard == s.toGuard
  {
    s.(known := false, guard := s.guard.(mode := Closed))
  }

  /** The guard takes the old task out, if there is one, and adds one that starts at `seek`. */
  function OpenHandled(s: System, seek: nat, opens: bool, seeks: bool): (s': System)
    ensures s'.viewer == s.viewer && s'.closing == s.closing && s'.toGuard == s.toGuard
  {
    var t := s.guard.(direction := s.viewer.direction, overrides := s.viewer.overrides, state := Transmitting,
                      error := NoError, progress := seek, mode := Closed, position := 0);
    var (o, e) := Opened(t, opens, seeks);
    var s1 := s.(guard := o, toViewer := s.toViewer + {OpenReply(e)});
    if e == NoError then s1.(known := true, opens := s.opens + 1) else Dropped(s1)
  }

  function ReadHandled(s: System, seek: nat, len: nat, n: nat, seeks: bool): (s': System)
    ensures s'.viewer == s.viewer && s'.closing == s.closing && s'.toGuard == s.toGuard
  {
    if !s.known then s.(toViewer := s.toViewer + {ReadReply(OperateFailed)})
    else
      var (t, e, data) := ReadBlock(s.guard, seek, len, n, seeks);
      s.(guard := t, toViewer := s.toViewer + {if e == NoError then BlockReply(seek, data) else ReadReply(e)})
  }

  function WriteHandled(s: System, seek: nat, data: seq<byte>, seeks: bool): (s': System)
    ensures s'.viewer == s.viewer && s'.closing == s.closing && s'.toGuard == s.toGuard
  {
    if !s.known then s.(toViewer := s.toViewer + {WriteReply(OperateFailed, 0)})
    else
      var (t, e) := WroteBlock(s.guard, seek, data, seeks);
      s.(guard := t, toViewer := s.toViewer + {WriteReply(e, if e == NoError then seek + |data| else 0)})
  }

  function Step(s: System, a: Action): System {
    match a
    case Start(opens, seeks) =>
      if s.viewer.state != WaitingForStart then s
      else
        var t := Started(s.viewer, opens, seeks);
        s.(viewer := t, opening := s.opening || t.state == Preparing)
    case Expire => s.(viewer := Expired(s.viewer))
    case Stop => s.(viewer := TaskStopped(s.viewer), closing := s.closing || TaskStopped(s.viewer) != s.viewer)
    case Resume => s.(viewer := Resumed(s.viewer))
    case NotifyOpen => if s.opening then s.(opening := false, toGuard := s.toGuard + {Open(s.viewer.progress)}) else s
    case NotifyClose => if s.closing then s.(closing := false, toGuard := s.toGuard + {Close}) else s
    case NotifyAsk(len) => if len in s.asking then s.(toGuard := s.toGuard + {AskBlock(s.viewer.progress, len)}) else s
    case NotifySend(block) => if block in s.sending then s.(toGuard := s.toGuard + {block}) else s
    case BeginWriting(n, seeks) =>
      if s.starting then NextRead(s.(starting := false), s.viewer.progress, n, seeks) else s
    case OpenReplied(e) =>
      if OpenReply(e) !in s.toViewer then s
      else if e != NoError then s.(viewer := OpenFailed(s.viewer, e))
      else if s.viewer.state != Preparing then s
      else
        var s1 := s.(viewer := OpenSucceeded(s.viewer), begins := s.begins + 1);
        if s.viewer.direction == ReadFile then s1.(asking := s.asking + {BLOCK_SIZE}) else s1.(starting := true)
    case BlockReplied(seek, data, seeks) =>
      if BlockReply(seek, data) in s.toViewer then BlockHandled(s, seek, data, seeks) else s
    case ReadReplied(e) =>
      if ReadReply(e) !in s.toViewer then s
      else s.(viewer := ReadFailed(s.viewer, e), closing := s.closing || ReadFailed(s.viewer, e) != s.viewer)
    case WriteReplied(e, after, n, seeks) =>
      if WriteReply(e, after) !in s.toViewer then s
      else if e != NoError then
        s.(viewer := WriteFailed(s.viewer, e), closing := s.closing || WriteFailed(s.viewer, e) != s.viewer)
      else NextRead(s, after, n, seeks)
    case GuardOpens(seek, opens, seeks) => if Open(seek) in s.toGuard then OpenHandled(s, seek, opens, seeks) else s
    case GuardCloses => if Close in s.toGuard then Dropped(s) else s
    case GuardReads(seek, len, n, seeks) =>
      if AskBlock(seek, len) in s.toGuard then ReadHandled(s, seek, len, n, seeks) else s
    case GuardWrites(seek, data, seeks) =>
      if SendBlock(seek, data) in s.toGuard then WriteHandled(s, seek, data, seeks) else s
    case GuardExpires => if s.known then s.(guard := Expired(s.guard)) else s
    case GuardDrops => if s.known && s.guard.state in {Stopped, Finished, Failed} then Dropped(s) else s
  }

  function Run(s: System, actions: seq<Action>): System
    decreases |actions|
  {
    if actions == [] then s else Run(Step(s, actions[0]), actions[1..])
  }

  lemma OverStays(s: System, a: Action)
    requires s.viewer.Over()
    ensures Step(s, a).viewer == s.viewer
  {
    hide OpenHandled, ReadHandled, WriteHandled, Opened, Written, Fetched;
  }

  /** A transfer that is over stays over, with its progress, its outcome and its file as they are. */
  lemma {:induction false} OverForGood(s: System, actions: seq<Action>)
    requires s.viewer.Over()
    ensures Run(s, actions).viewer == s.viewer
    decreases |actions|
  {
    if actions != [] {
      OverStays(s, actions[0]);
      OverForGood(Step(s, actions[0]), actions[1..]);
    }
  }

  /** A viewer whose transfer is finished has told the guard to close its file, or is about to. */
  predicate Announced(s: System) {
    s.viewer.state == Finished ==> s.closing || Close in s.toGuard
  }

  lemma {:induction false} EndIsAnnounced(s: System, actions: seq<Action>)
    requires Announced(s)
    ensures Announced(Run(s, actions))
    decreases |actions|
  {
    if actions != [] {
      EndAnnounced(s, actions[0]);
      EndIsAnnounced(Step(s, actions[0]), actions[1..]);
    }
  }

  /** Over every run: once the transfer is finished, what the viewer still has to say takes the task out
      of the guard's map and closes its file, and leaves both files as they are. */
  lemma FinishedIsClosed(s: System, actions: seq<Action>)
    requires Announced(s) && Run(s, actions).viewer.state == Finished
    ensures var f := Run(s, actions);
            var f' := Run(f, [NotifyClose, GuardCloses]);
            && Close in f'.toGuard && !f'.known && f'.guard.mode == Closed
            && f'.guard.file == f.guard.file && f'.viewer == f.viewer
  {
    EndIsAnnounced(s, actions);
    var f := Run(s, actions);
    var f1 := Step(f, NotifyClose);
    assert [NotifyClose, GuardCloses][1..] == [GuardCloses];
    assert Run(f1, [GuardCloses]) == Run(Step(f1, GuardCloses), []);
  }

  lemma EndAnnounced(s: System, a: Action)
    requires Announced(s)
    ensures Announced(Step(s, a))
  {
    hide Step;
    if s.viewer.state == Finished {
      AnnouncedStill(s, a);
    } else if a.Start? || a.BlockReplied? {
      NoEndByWriting(s, a);
    } else if a.BeginWriting? || a.WriteReplied? {
      EndByReading(s, a);
    } else {
      NoOtherEnd(s, a);
    }
  }

  lemma NoEndByWriting(s: System, a: Action)
    requires s.viewer.state != Finished && (a.Start? || a.BlockReplied?)
    ensures Step(s, a).viewer.state != Finished
  {
    hide WroteBlock, Started;
    match a {
      case Start(opens, seeks) => WhatFinishes(s.viewer, 0, [], 0, opens, seeks);
      case BlockReplied(seek, data, seeks) => WhatFinishes(s.viewer, seek, data, 0, true, seeks);
    }
  }

  lemma EndByReading(s: System, a: Action)
    requires s.viewer.state != Finished && (a.BeginWriting? || a.WriteReplied?)
    ensures Step(s, a).viewer.state == Finished ==> Step(s, a).closing
  {
    hide ReadBlock;
    match a {
      case BeginWriting(n, seeks) => WhatFinishes(s.viewer, s.viewer.progress, [], n, true, seeks);
      case WriteReplied(_, after, n, seeks) => WhatFinishes(s.viewer, after, [], n, true, seeks);
    }
  }

  lemma NoOtherEnd(s: System, a: Action)
    requires s.viewer.state != Finished
    requires !a.Start? && !a.BlockReplied? && !a.BeginWriting? && !a.WriteReplied?
    ensures Step(s, a).viewer.state == Finished ==> Step(s, a).closing
  {
    hide OpenHandled, ReadHandled, WriteHandled;
  }

  /** Starting and writing never finish a task; reading does when it meets the end of the file. */
  lemma WhatFinishes(t: Task, seek: nat, data: seq<byte>, n: nat, opens: bool, seeks: bool)
    requires t.state != Finished
    ensures Started(t, opens, seeks).state != Finished
    ensures WroteBlock(t, seek, data, seeks).0.state != Finished
    ensures ReadBlock(t, seek, BLOCK_SIZE, n, seeks).0.state == Finished
            <==> ReadBlock(t, seek, BLOCK_SIZE, n, seeks).1 == EndOfFile && t.starter == Self
  {
    hide Put;
  }

  lemma AnnouncedStill(s: System, a: Action)
    requires s.closing || Close in s.toGuard
    ensures Step(s, a).closing || Close in Step(s, a).toGuard
  {
    hide OpenHandled, ReadHandled, WriteHandled, Dropped, WroteBlock, ReadBlock, Started;
  }

  /** What a step of the protocol is for the viewer's task. */
  function EventOf(s: System, a: Action): seq<Event> {
    match a
    case Start(opens, seeks) => [Begin(opens, seeks)]
    case Expire => [Event.Expire]
    case Stop => [Event.Stop]
    case Resume => [Event.Resume]
    case BeginWriting(n, seeks) => if s.starting then [Read(s.viewer.progress, BLOCK_SIZE, n, seeks)] else []
    case OpenReplied(e) =>
      if OpenReply(e) !in s.toViewer then [] else if e == NoError then [OpenDone] else [OpenFails(e)]
    case BlockReplied(seek, data, seeks) =>
      if BlockReply(seek, data) in s.toViewer then [Write(seek, data, seeks)] else []
    case ReadReplied(e) => if ReadReply(e) in s.toViewer then [ReadFails(e)] else []
    case WriteReplied(e, after, n, seeks) =>
      if WriteReply(e, after) !in s.toViewer then []
      else if e == NoError then [Read(after, BLOCK_SIZE, n, seeks)] else [WriteFails(e)]
    case _ => []
  }

  function EventsOf(s: System, actions: seq<Action>): seq<Event>
    decreases |actions|
  {
    if actions == [] then [] else EventOf(s, actions[0]) + EventsOf(Step(s, actions[0]), actions[1..])
  }

  lemma StepIsNoEvent(s: System, a: Action)
    requires EventOf(s, a) == []
    ensures Step(s, a).viewer == s.viewer
  {
    hide Opened, Written, Fetched, OpenHandled, ReadHandled, WriteHandled, Handled;
  }

  lemma StepIsOneEvent(s: System, a: Action)
    requires EventOf(s, a) != []
    ensures |EventOf(s, a)| == 1 && Step(s, a).viewer == Handled(s.viewer, EventOf(s, a)[0])
  {
    hide Opened, Written, Fetched, OpenHandled, ReadHandled, WriteHandled;
  }

  lemma StepIsEvent(s: System, a: Action)
    ensures Step(s, a).viewer == HandledAll(s.viewer, EventOf(s, a))
  {
    hide Step, EventOf, Handled;
    var events := EventOf(s, a);
    if events == [] {
      StepIsNoEvent(s, a);
    } else {
      StepIsOneEvent(s, a);
      assert HandledAll(s.viewer, events) == HandledAll(Handled(s.viewer, events[0]), []);
    }
  }

  /** Over every run the viewer's task goes through nothing but the operations of a task object, so all
      that is said of it here holds of an object that handles these events. */
  lemma {:induction false} ViewerIsDriven(s: System, actions: seq<Action>)
    ensures Run(s, actions).viewer == HandledAll(s.viewer, EventsOf(s, actions))
    decreases |actions|
  {
    if actions != [] {
      var s' := Step(s, actions[0]);
      StepIsEvent(s, actions[0]);
      ViewerIsDriven(s', actions[1..]);
      hide Step, EventOf, Handled;
      HandledInTwo(s.viewer, EventOf(s, actions[0]), EventsOf(s', actions[1..]));
    }
  }

  lemma {:induction false} HandledInTwo(t: Task, first: seq<Event>, second: seq<Event>)
    ensures HandledAll(t, first + second) == HandledAll(HandledAll(t, first), second)
    decreases |first|
  {
    if first == [] {
      assert first + second == second;
    } else {
      hide Handled;
      assert (first + second)[1..] == first[1..] + second;
      HandledInTwo(Handled(t, first[0]), first[1..], second);
    }
  }

  /** A task object that handles what happens to the viewer's task in a download, whatever that is. */
  method DownloadByObject(was: Before, source: seq<byte>, actions: seq<Action>, chunks: nat -> nat)
    returns (t: TransferTask)
    requires was.progress == 0 || (Continues(was, source) && AllPlaced(Fetching(was, source), actions))
    ensures fresh(t) && t.Valid()
    ensures (t.present == was.present && t.file == was.file) || (t.present && t.file <= source)
    ensures t.state == Finished ==> t.present && t.file == source
  {
    t := new TransferTask(Self, ReadFile, was.overrides, WaitingForStart, was.progress, was.present, was.file);
    t.HandleAll(EventsOf(Fetching(was, source), actions), chunks);
    ViewerIsDriven(Fetching(was, source), actions);
    DownloadIsSafe(was, source, actions);
  }

  /** What holds of a download: until the local file is opened nothing has happened to it; from then
      on it is a prefix of the source, every position asked for lies in it, and every block on its way
      is the source's at its position. */
  ghost predicate Untouched(s: System, was: Before) {
    && s.viewer.present == was.present && s.viewer.file == was.file
    && s.viewer.state in {WaitingForStart, Failed} && s.viewer.mode == Closed
    && s.viewer.progress == was.progress
    && s.toGuard == {} && s.toViewer == {} && s.asking == {} && s.sending == {}
    && !s.opening && !s.closing && !s.starting
  }

  ghost predicate Asked(m: ToGuard, file: seq<byte>) {
    match m
    case AskBlock(seek, len) => seek <= |file| && len > 0
    case SendBlock(_, _) => false
    case _ => true
  }

  ghost predicate Answered(m: ToViewer, file: seq<byte>, source: seq<byte>) {
    match m
    case BlockReply(seek, data) => seek <= |file| && IsBlock(source, seek, data)
    case ReadReply(e) => e == EndOfFile ==> file == source
    case WriteReply(e, _) => e != NoError
    case _ => true
  }

  ghost predicate LoadingTask(t: Task, source: seq<byte>, was: Before) {
    && t.present && t.file <= source && t.progress <= |t.file|
    && (t.mode == Closed || (if was.progress > 0 then t.mode == Appending
                             else t.mode == Writing && t.position == t.progress))
    && (!t.Over() ==> t.mode != Closed)
    && (t.state == Finished ==> t.file == source)
  }

  ghost predicate Loading(s: System, source: seq<byte>, was: Before) {
    && LoadingTask(s.viewer, source, was)
    && (forall m | m in s.toGuard :: Asked(m, s.viewer.file))
    && (forall m | m in s.toViewer :: Answered(m, s.viewer.file, source))
    && 0 !in s.asking && s.sending == {} && !s.starting
  }

  /** A file that is appended to gets just the block that comes next. */
  predicate Placed(s: System, a: Action) {
    match a
    case BlockReplied(seek, data, _) =>
      BlockReply(seek, data) in s.toViewer && s.viewer.mode == Appending ==> seek == |s.viewer.file|
    case _ => true
  }

  predicate AllPlaced(s: System, actions: seq<Action>)
    decreases |actions|
  {
    actions == [] || (Placed(s, actions[0]) && AllPlaced(Step(s, actions[0]), actions[1..]))
  }

  ghost predicate GuardReading(s: System, source: seq<byte>) {
    var g := s.guard;
    && g.starter == Partner && g.present && g.file == source
    && g.direction == ReadFile && g.mode in {Closed, Reading}
    && (g.mode == Reading ==> g.position == g.progress)
  }

  ghost predicate Download(s: System, source: seq<byte>, was: Before) {
    && s.viewer.starter == Self && s.viewer.direction == ReadFile
    && GuardReading(s, source)
    && s.viewer.overrides == was.overrides
    && Continues(was, source)
    && (Untouched(s, was) || (Loading(s, source, was) && (was.present ==> was.overrides)))
  }

  lemma StartKeepsDownload(s: System, opens: bool, seeks: bool, source: seq<byte>, was: Before)
    requires Download(s, source, was)
    ensures Download(Step(s, Start(opens, seeks)), source, was)
  {
    if s.viewer.state == WaitingForStart && Untouched(s, was) {
      var t := Started(s.viewer, opens, seeks);
      if t.mode == Closed {
        assert Untouched(Step(s, Start(opens, seeks)), was);
      } else {
        assert Loading(Step(s, Start(opens, seeks)), source, was);
      }
    }
  }

  lemma BlockKeepsTask(t: Task, seek: nat, data: seq<byte>, seeks: bool, source: seq<byte>, was: Before)
    requires LoadingTask(t, source, was) && t.starter == Self && t.direction == ReadFile
    requires seek <= |t.file| && IsBlock(source, seek, data)
    requires t.mode == Appending ==> seek == |t.file|
    ensures var t' := WroteBlock(t, seek, data, seeks).0; LoadingTask(t', source, was) && t.file <= t'.file
  {
    hide Put;
    PutKeepsPrefix(t.file, source, seek, data);
  }

  lemma BlockKeepsDownload(s: System, seek: nat, data: seq<byte>, seeks: bool, source: seq<byte>,
                           was: Before)
    requires Loading(s, source, was) && s.viewer.starter == Self && s.viewer.direction == ReadFile
    requires BlockReply(seek, data) in s.toViewer
    requires was.progress == 0 || Placed(s, BlockReplied(seek, data, seeks))
    ensures Loading(BlockHandled(s, seek, data, seeks), source, was)
  {
    hide WroteBlock;
    var t, t' := s.viewer, BlockHandled(s, seek, data, seeks).viewer;
    assert Answered(BlockReply(seek, data), t.file, source);
    BlockKeepsTask(t, seek, data, seeks, source, was);
    forall m | m in s.toViewer
      ensures Answered(m, t'.file, source)
    {
      assert t.file <= t'.file <= source && Answered(m, t.file, source);
    }
    forall m | m in s.toGuard
      ensures Asked(m, t'.file)
    {
      assert Asked(m, t.file);
    }
  }

  lemma ReadsAreBlocks(s: System, seek: nat, len: nat, n: nat, seeks: bool, source: seq<byte>)
    requires GuardReading(s, source) && len > 0
    ensures var (t, e, data) := ReadBlock(s.guard, seek, len, n, seeks);
            && GuardReading(s.(guard := t), source)
            && (e == NoError ==> IsBlock(source, seek, data))
            && (e == EndOfFile ==> seek >= |source|)
  {
  }

  lemma GuardKeepsDownload(s: System, seek: nat, len: nat, n: nat, seeks: bool, source: seq<byte>, was: Before)
    requires GuardReading(s, source) && Loading(s, source, was) && AskBlock(seek, len) in s.toGuard
    ensures GuardReading(ReadHandled(s, seek, len, n, seeks), source)
    ensures Loading(ReadHandled(s, seek, len, n, seeks), source, was)
  {
    assert Asked(AskBlock(seek, len), s.viewer.file);
    ReadsAreBlocks(s, seek, len, n, seeks, source);
    hide ReadBlock;
  }

  lemma OpenKeepsDownload(s: System, seek: nat, opens: bool, seeks: bool, source: seq<byte>, was: Before)
    requires Download(s, source, was)
    ensures Download(Step(s, GuardOpens(seek, opens, seeks)), source, was)
  {
    hide Put;
  }

  lemma ReadKeepsDownload(s: System, seek: nat, len: nat, n: nat, seeks: bool, source: seq<byte>, was: Before)
    requires Download(s, source, was)
    ensures Download(Step(s, GuardReads(seek, len, n, seeks)), source, was)
  {
    if AskBlock(seek, len) in s.toGuard {
      GuardKeepsDownload(s, seek, len, n, seeks, source, was);
      hide ReadHandled, Loading;
    }
  }

  lemma GuardStepKeepsDownload(s: System, a: Action, source: seq<byte>, was: Before)
    requires Download(s, source, was)
    requires a.GuardCloses? || a.GuardWrites? || a.GuardExpires? || a.GuardDrops?
    ensures Download(Step(s, a), source, was)
  {
    hide WriteHandled;
    if a.GuardWrites? {
      assert SendBlock(a.seek, a.data) !in s.toGuard;
    }
  }

  lemma RepliesKeepDownload(s: System, a: Action, source: seq<byte>, was: Before)
    requires Download(s, source, was) && (a.ReadReplied? || a.OpenReplied?)
    ensures Download(Step(s, a), source, was)
  {
    match a {
      case ReadReplied(e) =>
        if ReadReply(e) in s.toViewer {
          assert Answered(ReadReply(e), s.viewer.file, source);
        }
      case OpenReplied(_) =>
    }
  }

  /** Nothing of an upload happens to it. */
  lemma WritesKeepDownload(s: System, a: Action, source: seq<byte>, was: Before)
    requires Download(s, source, was) && (a.WriteReplied? || a.BeginWriting?)
    ensures Download(Step(s, a), source, was)
  {
    hide NextRead;
    if a.WriteReplied? && WriteReply(a.error, a.afterSeek) in s.toViewer {
      assert Answered(WriteReply(a.error, a.afterSeek), s.viewer.file, source);
    }
  }

  lemma NotifyKeepsDownload(s: System, a: Action, source: seq<byte>, was: Before)
    requires Download(s, source, was)
    requires a.Expire? || a.Stop? || a.Resume? || a.NotifyOpen? || a.NotifyClose? || a.NotifyAsk? || a.NotifySend?
    ensures Download(Step(s, a), source, was)
  {
  }

  lemma BlockStepKeepsDownload(s: System, seek: nat, data: seq<byte>, seeks: bool, source: seq<byte>, was: Before)
    requires Download(s, source, was) && (was.progress == 0 || Placed(s, BlockReplied(seek, data, seeks)))
    ensures Download(Step(s, BlockReplied(seek, data, seeks)), source, was)
  {
    if BlockReply(seek, data) in s.toViewer {
      assert Loading(s, source, was);
      BlockKeepsDownload(s, seek, data, seeks, source, was);
      hide Loading, Untouched, Put;
    }
  }

  lemma StepKeepsDownload(s: System, a: Action, source: seq<byte>, was: Before)
    requires Download(s, source, was) && (was.progress == 0 || Placed(s, a))
    ensures Download(Step(s, a), source, was)
  {
    hide Step, Download;
    match a {
      case Start(opens, seeks) => StartKeepsDownload(s, opens, seeks, source, was);
      case BlockReplied(seek, data, seeks) => BlockStepKeepsDownload(s, seek, data, seeks, source, was);
      case GuardOpens(seek, opens, seeks) => OpenKeepsDownload(s, seek, opens, seeks, source, was);
      case GuardReads(seek, len, n, seeks) => ReadKeepsDownload(s, seek, len, n, seeks, source, was);
      case _ =>
        if a.ReadReplied? || a.OpenReplied? {
          RepliesKeepDownload(s, a, source, was);
        } else if a.WriteReplied? || a.BeginWriting? {
          WritesKeepDownload(s, a, source, was);
        } else if a.GuardCloses? || a.GuardWrites? || a.GuardExpires? || a.GuardDrops? {
          GuardStepKeepsDownload(s, a, source, was);
        } else {
          NotifyKeepsDownload(s, a, source, was);
        }
    }
  }

  lemma {:induction false} RunKeepsDownload(s: System, actions: seq<Action>, source: seq<byte>, was: Before)
    requires Download(s, source, was) && (was.progress == 0 || AllPlaced(s, actions))
    ensures Download(Run(s, actions), source, was)
    decreases |actions|
  {
    if actions != [] {
      StepKeepsDownload(s, actions[0], source, was);
      RunKeepsDownload(Step(s, actions[0]), actions[1..], source, was);
    }
  }

  /** Download safety, over every run: with stops, resumes in the same process, timeouts on both sides,
      lost, late and repeated messages, the local file is either what it was before the transfer or a
      prefix of the source, and it is the source when the transfer is finished.  A task that starts with
      progress must continue a prefix of the source, and a block that is appended come at its place. */
  lemma DownloadIsSafe(was: Before, source: seq<byte>, actions: seq<Action>)
    requires was.progress == 0 || (Continues(was, source) && AllPlaced(Fetching(was, source), actions))
    ensures var t := Run(Fetching(was, source), actions).viewer;
            && ((t.present == was.present && t.file == was.file) || (t.present && t.file <= source))
            && (t.state == Finished ==> t.present && t.file == source)
            && (was.present && !was.overrides ==> t.file == was.file && t.state in {WaitingForStart, Failed})
  {
    RunKeepsDownload(Fetching(was, source), actions, source, was);
  }

  /** A block that is appended out of its place, unless it is refused, leaves a prefix of the source exactly
      where the source repeats itself. */
  lemma BlockOutOfPlace(s: System, seek: nat, data: seq<byte>, seeks: bool, source: seq<byte>, was: Before)
    requires Download(s, source, was) && !Placed(s, BlockReplied(seek, data, seeks))
    ensures var f, f' := s.viewer.file, Step(s, BlockReplied(seek, data, seeks)).viewer.file;
            f' == f || (seek < |f| && f' == f + data && (f' <= source <==> IsBlock(source, |f|, data)))
  {
    var f, f' := s.viewer.file, BlockHandled(s, seek, data, seeks).viewer.file;
    assert f <= source && Answered(BlockReply(seek, data), f, source);
    assert f' == f || f' == f + data by {
      PutAtEnd(f, data);
      hide Put, Download;
    }
    hide *;
    PrefixGoesOn(f, data, source);
  }

  lemma {:induction false} RunInTwo(s: System, first: seq<Action>, second: seq<Action>)
    ensures Run(s, first + second) == Run(Run(s, first), second)
    decreases |first|
  {
    if first == [] {
      assert first + second == second;
    } else {
      assert (first + second)[1..] == first[1..] + second;
      RunInTwo(Step(s, first[0]), first[1..], second);
    }
  }

  lemma RunOfThree(s: System, a: Action, b: Action, c: Action)
    ensures Run(s, [a, b, c]) == Step(Step(Step(s, a), b), c)
  {
    hide Step;
    var s1 := Step(s, a);
    var s2 := Step(s1, b);
    var s3 := Step(s2, c);
    assert Run(s2, [c]) == Run(s3, []) == s3;
    assert [b, c][1..] == [c];
    assert Run(s1, [b, c]) == Run(s2, [c]);
    assert [a, b, c][1..] == [b, c];
  }

  /** Both sides are at the same place `at` of a download of the source from `from` on.  A file that is appended
      to has what comes up to there behind what `base` it had; another is a prefix that reaches there.  A block
      of `len` is to be asked for. */
  ghost predicate InStep(s: System, source: seq<byte>, base: seq<byte>, from: nat, at: nat, len: nat) {
    var t, g := s.viewer, s.guard;
    && from <= at <= |source|
    && t == Task(Self, ReadFile, t.overrides, Transmitting, t.error, at, t.mode, t.position, true, t.file)
    && (|| (t.mode == Appending && t.file == base + source[from..at])
        || (t.mode == Writing && base == [] && from == 0 && t.position == at <= |t.file| && t.file <= source))
    && g == Task(Partner, ReadFile, g.overrides, Transmitting, g.error, at, Reading, at, true, source)
    && s.known && len > 0 && len in s.asking
  }

  function Round(at: nat, len: nat, data: seq<byte>): seq<Action> {
    [NotifyAsk(len), GuardReads(at, len, len, true), BlockReplied(at, data, true)]
  }

  lemma BlockGoesOn(s: System, source: seq<byte>, base: seq<byte>, from: nat, at: nat, len: nat)
    requires InStep(s, source, base, from, at, len) && at < |source|
    ensures var k := Got(source, at, len, len);
            var s2 := Step(Step(s, NotifyAsk(len)), GuardReads(at, len, len, true));
            && 0 < k && s2.viewer == s.viewer && s2.known && BlockReply(at, source[at..at + k]) in s2.toViewer
            && s2.guard == s.guard.(progress := at + k, position := at + k)
  {
  }

  lemma RoundGoesOn(s: System, source: seq<byte>, base: seq<byte>, from: nat, at: nat, len: nat)
    requires InStep(s, source, base, from, at, len) && at < |source|
    ensures var k := Got(source, at, len, len);
            0 < k && InStep(Run(s, Round(at, len, source[at..at + k])), source, base, from, at + k, k)
  {
    hide Put, ReadHandled, OpenHandled;
    var k := Got(source, at, len, len);
    var data := source[at..at + k];
    RunOfThree(s, NotifyAsk(len), GuardReads(at, len, len, true), BlockReplied(at, data, true));
    BlockGoesOn(s, source, base, from, at, len);
    if s.viewer.mode == Appending {
      PutAtEnd(s.viewer.file, data);
      assert base + source[from..at] + data == base + source[from..at + k];
    } else {
      PutKeepsPrefix(s.viewer.file, source, at, data);
    }
  }

  lemma LastRound(s: System, source: seq<byte>, base: seq<byte>, from: nat, len: nat)
    requires InStep(s, source, base, from, |source|, len)
    ensures var s' := Run(s, [NotifyAsk(len), GuardReads(|source|, len, len, true), ReadReplied(EndOfFile)]);
            s'.viewer.state == Finished && s'.viewer.file == base + source[from..]
  {
    RunOfThree(s, NotifyAsk(len), GuardReads(|source|, len, len, true), ReadReplied(EndOfFile));
    assert base == [] ==> base + source[0..] == source;
  }

  lemma {:induction false} RoundsFinish(s: System, source: seq<byte>, base: seq<byte>, from: nat, at: nat, len: nat)
    returns (actions: seq<Action>)
    requires InStep(s, source, base, from, at, len) && from <= at <= |source|
    ensures Run(s, actions).viewer.state == Finished && Run(s, actions).viewer.file == base + source[from..]
    decreases |source| - at
  {
    if at == |source| {
      actions := [NotifyAsk(len), GuardReads(|source|, len, len, true), ReadReplied(EndOfFile)];
      LastRound(s, source, base, from, len);
    } else {
      var k := Got(source, at, len, len);
      var round := Round(at, len, source[at..at + k]);
      RoundGoesOn(s, source, base, from, at, len);
      var rest := RoundsFinish(Run(s, round), source, base, from, at + k, k);
      RunInTwo(s, round, rest);
      actions := round + rest;
    }
  }

  lemma DownloadOpens(was: Before, source: seq<byte>)
    requires was.progress <= |source| && (was.present ==> was.overrides)
    ensures var s, k := Fetching(was, source), was.progress;
            var s3 := Step(Step(Step(s, Start(true, true)), NotifyOpen), GuardOpens(k, true, true));
            InStep(Step(s3, OpenReplied(NoError)), source, Kept(k, was.file), k, k, BLOCK_SIZE)
  {
    var s, k := Fetching(was, source), was.progress;
    var s1 := Step(s, Start(true, true));
    var s2 := Step(s1, NotifyOpen);
    var s3 := Step(s2, GuardOpens(k, true, true));
    var mode, base := if k == 0 then Writing else Appending, Kept(k, was.file);
    assert base + source[k..k] == base;
    assert s1.opening
           && s1.viewer == s.viewer.(state := Preparing, mode := mode, present := true, file := base, position := k);
    assert s2.viewer == s1.viewer && s2.guard == s.guard && Open(k) in s2.toGuard;
    assert s3.viewer == s1.viewer && OpenReply(NoError) in s3.toViewer;
  }

  /** A download nothing interferes with leaves what the file had, unless it is opened from the start,
      followed by what comes after the progress it starts with.  That is the source exactly if that is
      none, or the file had just the bytes before it.  A task that is added when the user consents to
      override a file that is there has the progress of the one that was refused. */
  lemma UndisturbedDownload(was: Before, source: seq<byte>) returns (actions: seq<Action>)
    requires was.progress <= |source| && (was.present ==> was.overrides)
    ensures var t := Run(Fetching(was, source), actions).viewer;
            && t.state == Finished && t.file == Kept(was.progress, was.file) + source[was.progress..]
            && (t.file == source <==> was.progress == 0 || was.file == source[..was.progress])
  {
    hide InStep, Step, Fetching;
    var s, k := Fetching(was, source), was.progress;
    var first, second := [Start(true, true), NotifyOpen, GuardOpens(k, true, true)], [OpenReplied(NoError)];
    DownloadOpens(was, source);
    RunInTwo(s, first, second);
    RunOfThree(s, Start(true, true), NotifyOpen, GuardOpens(k, true, true));
    assert Run(Run(s, first), second) == Run(Step(Run(s, first), OpenReplied(NoError)), []);
    var rest := RoundsFinish(Run(s, first + second), source, Kept(k, was.file), k, k, BLOCK_SIZE);
    RunInTwo(s, first + second, rest);
    actions := first + second + rest;
    KeptAndRest(k, was.file, source);
  }

  /** In particular one from the start fetches the whole file. */
  lemma DownloadCanFinish(was: Before, source: seq<byte>)
    requires was.progress == 0 && (was.present ==> was.overrides)
    ensures exists actions ::
              var t := Run(Fetching(was, source), actions).viewer; t.state == Finished && t.file == source
  {
    var actions := UndisturbedDownload(was, source);
  }

  /** A download as it is loaded when the viewer's process starts again: stopped, with the progress that was
      stored, and without leave to override. */
  function Reloaded(progress: nat, present: bool, file: seq<byte>, source: seq<byte>): System {
    var s := Fetching(Before(false, present, file, progress), source);
    s.(viewer := s.viewer.(state := Stopped))
  }

  /** A task that may not override the file that is there. */
  predicate Refused(t: Task) {
    !t.Reads() && !t.overrides && t.present && t.mode == Closed && t.state in {Stopped, WaitingForStart, Failed}
  }

  lemma {:induction false} RefusedForGood(t: Task, events: seq<Event>)
    requires Refused(t)
    ensures Refused(HandledAll(t, events)) && HandledAll(t, events).file == t.file
    decreases |events|
  {
    if events != [] {
      RefusedForGood(Handled(t, events[0]), events[1..]);
    }
  }

  /** If the local file is still there, the reloaded download never goes on, over every run: it is refused,
      and the file stays as it is. */
  lemma ReloadedDownloadIsRefused(progress: nat, file: seq<byte>, source: seq<byte>, actions: seq<Action>)
    ensures var t := Run(Reloaded(progress, true, file, source), actions).viewer;
            t.file == file && t.state in {Stopped, WaitingForStart, Failed}
  {
    var s := Reloaded(progress, true, file, source);
    ViewerIsDriven(s, actions);
    RefusedForGood(s.viewer, EventsOf(s, actions));
  }

  /** If it is gone, the download can end FINISHED with just what comes after the stored progress. */
  lemma ReloadedDownload(progress: nat, source: seq<byte>) returns (actions: seq<Action>)
    requires progress <= |source|
    ensures var t := Run(Reloaded(progress, false, [], source), actions).viewer;
            t.state == Finished && t.file == source[progress..]
  {
    var was := Before(false, false, [], progress);
    var rest := UndisturbedDownload(was, source);
    actions := [Action.Resume] + rest;
    assert actions[1..] == rest;
    assert Step(Reloaded(progress, false, [], source), Action.Resume) == Fetching(was, source);
    assert [] + source[progress..] == source[progress..];
  }

  /** If there was no progress, it is as safe as one that has just begun. */
  lemma {:induction false} ReloadedFromTheStart(source: seq<byte>, actions: seq<Action>)
    ensures var t := Run(Reloaded(0, false, [], source), actions).viewer;
            && (t.file == [] || (t.present && t.file <= source))
            && (t.state == Finished ==> t.file == source)
    decreases |actions|
  {
    var s, was := Reloaded(0, false, [], source), Before(false, false, [], 0);
    if actions != [] {
      if actions[0] == Action.Resume {
        assert Step(s, actions[0]) == Fetching(was, source);
        DownloadIsSafe(was, source, actions[1..]);
      } else {
        assert Step(s, actions[0]) == s;
        ReloadedFromTheStart(source, actions[1..]);
      }
    }
  }

  /** So a reloaded download ends FINISHED with nothing but the source, over every run, exactly if its local
      file is there or it had made no progress. */
  lemma ReloadedDownloadIsRight(progress: nat, present: bool, file: seq<byte>, source: seq<byte>)
    requires progress <= |source| && (present || file == [])
    ensures (forall actions ::
               var t := Run(Reloaded(progress, present, file, source), actions).viewer;
               t.state == Finished ==> t.file == source)
            <==> present || progress == 0
  {
    if present {
      forall actions
        ensures Run(Reloaded(progress, present, file, source), actions).viewer.state != Finished
      {
        ReloadedDownloadIsRefused(progress, file, source, actions);
      }
    } else if progress == 0 {
      forall actions
        ensures var t := Run(Reloaded(0, false, [], source), actions).viewer; t.state == Finished ==> t.file == source
      {
        ReloadedFromTheStart(source, actions);
      }
    } else {
      var actions := ReloadedDownload(progress, source);
      assert |Run(Reloaded(progress, present, file, source), actions).viewer.file| < |source|;
    }
  }
}
