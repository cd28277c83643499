/** Uploads: the same protocol with the guard's file as the destination.  Safe in every run whose reopenings
    fit the guard's file, and so in every run in which the guard opens its file once and the viewer begins
    once.  Neither side checks the fit: an undisturbed resumed upload is right exactly when the guard has
    as much of the file as the viewer has read. */
module Uploads {
  import opened Bytes
  import opened FileTasks
  import opened Transfers

  ghost predicate NothingSent(s: System) {
    && s.sending == {}
    && (forall m | m in s.toGuard :: m.Open? || m.Close?)
    && (forall m | m in s.toViewer :: m.OpenReply?)
  }

  /** The viewer's own file is the source, and nothing of a download is under way. */
  ghost predicate ViewerReading(s: System, source: seq<byte>, was: Before) {
    var t := s.viewer;
    && t.starter == Self && t.direction == WriteFile && t.overrides == was.overrides && t.present && t.file == source
    && t.mode in {Closed, Reading} && (t.mode == Reading && !t.Over() ==> t.position == t.progress)
    && t.progress <= |source| && s.asking == {}
  }

  /** The guard has not opened its file: it is as it was, and the viewer has read nothing yet. */
  ghost predicate NotOpened(s: System, was: Before) {
    && s.guard.present == was.present && s.guard.file == was.file && !s.known && s.guard.mode == Closed
    && NothingSent(s) && OpenReply(NoError) !in s.toViewer && !s.starting && s.begins == 0
    && s.viewer.progress == was.progress && s.viewer.state !in {Transmitting, Finished}
    && (forall m | m in s.toGuard && m.Open? :: m.seek == was.progress)
  }

  ghost predicate Sent(m: ToGuard, file: seq<byte>, source: seq<byte>) {
    match m
    case SendBlock(seek, data) => seek <= |file| && IsBlock(source, seek, data)
    case AskBlock(_, _) => false
    case _ => true
  }

  ghost predicate Acknowledged(m: ToViewer, file: seq<byte>) {
    match m
    case WriteReply(e, after) => e == NoError ==> after <= |file|
    case BlockReply(_, _) => false
    case ReadReply(_) => false
    case OpenReply(_) => true
  }

  /** It has: its file is a prefix of the source, and every block on its way, and every position
      acknowledged, lies in it. */
  ghost predicate Growing(s: System, source: seq<byte>) {
    var g := s.guard;
    && g.present && g.file <= source && g.mode != Reading
    && (g.mode == Writing ==> g.position == g.progress)
    && (forall m | m in s.toGuard :: Sent(m, g.file, source))
    && (forall m | m in s.sending :: m.SendBlock? && Sent(m, g.file, source))
    && (forall m | m in s.toViewer :: Acknowledged(m, g.file))
    && (s.viewer.state == Finished ==> g.file == source)
  }

  ghost predicate Upload(s: System, source: seq<byte>, was: Before) {
    && ViewerReading(s, source, was)
    && s.guard.starter == Partner && (s.known ==> s.guard.direction == WriteFile) && Continues(was, source)
    && (if s.opens == 0 then NotOpened(s, was) else Growing(s, source))
  }

  /** What neither side checks: a guard that opens its file again from the start finds it empty, a guard
      that appends a block has just the bytes before it, and a viewer does not begin past them. */
  predicate Fits(s: System, a: Action) {
    match a
    case GuardOpens(seek, opens, seeks) =>
      s.opens > 0 && seek == 0 && Step(s, a).opens > s.opens ==> s.guard.file == []
    case GuardWrites(seek, data, _) =>
      SendBlock(seek, data) in s.toGuard && s.known && s.guard.mode == Appending ==> seek == |s.guard.file|
    case BeginWriting(_, _) =>
      s.starting && s.viewer.state == Transmitting ==> s.viewer.progress <= |s.guard.file|
    case _ => true
  }

  predicate AllFit(s: System, actions: seq<Action>)
    decreases |actions|
  {
    actions == [] || (Fits(s, actions[0]) && AllFit(Step(s, actions[0]), actions[1..]))
  }

  lemma WriteKeepsGrowing(s: System, seek: nat, data: seq<byte>, seeks: bool, source: seq<byte>)
    requires Growing(s, source) && SendBlock(seek, data) in s.toGuard && Fits(s, GuardWrites(seek, data, seeks))
    requires s.guard.starter == Partner && (s.known ==> s.guard.direction == WriteFile)
    ensures Growing(WriteHandled(s, seek, data, seeks), source)
  {
    var f := s.guard.file;
    var s' := WriteHandled(s, seek, data, seeks);
    assert Sent(SendBlock(seek, data), f, source);
    PutKeepsPrefix(f, source, seek, data);
    hide Put;
    assert f <= s'.guard.file <= source;
    forall m | m in s.toGuard + s.sending
      ensures Sent(m, s'.guard.file, source)
    {
      assert Sent(m, f, source);
    }
    forall m | m in s.toViewer
      ensures Acknowledged(m, s'.guard.file)
    {
      assert Acknowledged(m, f);
    }
  }

  lemma NextReadKeepsGrowing(s: System, seek: nat, n: nat, seeks: bool, source: seq<byte>, was: Before)
    requires ViewerReading(s, source, was) && Growing(s, source)
    requires s.viewer.state == Transmitting ==> seek <= |s.guard.file|
    ensures ViewerReading(NextRead(s, seek, n, seeks), source, was)
    ensures Growing(NextRead(s, seek, n, seeks), source)
  {
    var (t, e, data) := ReadBlock(s.viewer, seek, BLOCK_SIZE, n, seeks);
    assert e == NoError ==> IsBlock(source, seek, data);
  }

  lemma WriteKeepsUpload(s: System, seek: nat, data: seq<byte>, seeks: bool, source: seq<byte>, was: Before)
    requires Upload(s, source, was) && SendBlock(seek, data) in s.toGuard && Fits(s, GuardWrites(seek, data, seeks))
    ensures Upload(WriteHandled(s, seek, data, seeks), source, was)
  {
    WriteKeepsGrowing(s, seek, data, seeks, source);
    hide Growing, NothingSent, Put, Written, Fits;
  }

  lemma WriteStepKeepsUpload(s: System, seek: nat, data: seq<byte>, seeks: bool, source: seq<byte>, was: Before)
    requires Upload(s, source, was) && Fits(s, GuardWrites(seek, data, seeks))
    ensures Upload(Step(s, GuardWrites(seek, data, seeks)), source, was)
  {
    if SendBlock(seek, data) in s.toGuard {
      WriteKeepsUpload(s, seek, data, seeks, source, was);
      hide Upload, WriteHandled, Fits;
    }
  }

  lemma GuardStepKeepsUpload(s: System, a: Action, source: seq<byte>, was: Before)
    requires Upload(s, source, was)
    requires a.GuardCloses? || a.GuardReads? || a.GuardExpires? || a.GuardDrops?
    ensures Upload(Step(s, a), source, was)
  {
    hide ReadHandled;
    if a.GuardReads? {
      assert AskBlock(a.seek, a.len) !in s.toGuard;
    }
  }

  lemma FirstOpen(s: System, opens: bool, seeks: bool, source: seq<byte>, was: Before)
    requires Upload(s, source, was) && s.opens == 0
    ensures Upload(OpenHandled(s, was.progress, opens, seeks), source, was)
  {
    hide Put;
  }

  lemma Reopened(s: System, seek: nat, opens: bool, seeks: bool, source: seq<byte>, was: Before)
    requires Upload(s, source, was) && s.opens > 0
    requires seek == 0 && OpenHandled(s, seek, opens, seeks).opens > s.opens ==> s.guard.file == []
    ensures Upload(OpenHandled(s, seek, opens, seeks), source, was)
  {
    hide Put, NotOpened;
    var s' := OpenHandled(s, seek, opens, seeks);
    assert s'.guard.file == s.guard.file;
  }

  lemma OpenKeepsUpload(s: System, seek: nat, opens: bool, seeks: bool, source: seq<byte>, was: Before)
    requires Upload(s, source, was) && Fits(s, GuardOpens(seek, opens, seeks))
    ensures Upload(Step(s, GuardOpens(seek, opens, seeks)), source, was)
  {
    hide OpenHandled;
    if Open(seek) in s.toGuard {
      if s.opens == 0 {
        FirstOpen(s, opens, seeks, source, was);
      } else {
        Reopened(s, seek, opens, seeks, source, was);
      }
      hide Upload;
    }
  }

  lemma ViewerStepKeepsUpload(s: System, a: Action, source: seq<byte>, was: Before)
    requires Upload(s, source, was)
    requires a.Start? || a.Expire? || a.Stop? || a.Resume?
             || a.NotifyOpen? || a.NotifyClose? || a.NotifyAsk? || a.NotifySend?
    ensures Upload(Step(s, a), source, was)
  {
    hide Put, Acknowledged, IsBlock;
  }

  lemma NextReadKeepsUpload(s: System, a: Action, source: seq<byte>, was: Before)
    requires Upload(s, source, was) && Fits(s, a)
    requires a.BeginWriting? || a.WriteReplied?
    ensures Upload(Step(s, a), source, was)
  {
    hide NextRead, BlockHandled;
    match a {
      case BeginWriting(n, seeks) =>
        if s.starting {
          NextReadKeepsGrowing(s.(starting := false), s.viewer.progress, n, seeks, source, was);
          hide ViewerReading, NotOpened, Growing;
        }
      case WriteReplied(e, after, n, seeks) =>
        if WriteReply(e, after) in s.toViewer && e == NoError {
          assert Acknowledged(WriteReply(e, after), s.guard.file);
          NextReadKeepsGrowing(s, after, n, seeks, source, was);
          hide ViewerReading, NotOpened, Growing;
        }
    }
  }

  lemma ReplyKeepsUpload(s: System, a: Action, source: seq<byte>, was: Before)
    requires Upload(s, source, was)
    requires a.OpenReplied? || a.BlockReplied? || a.ReadReplied?
    ensures Upload(Step(s, a), source, was)
  {
    hide BlockHandled, Sent, IsBlock;
    match a {
      case OpenReplied(_) =>
      case BlockReplied(seek, data, _) =>
        assert BlockReply(seek, data) !in s.toViewer;
        hide Upload;
      case ReadReplied(e) =>
        assert ReadReply(e) !in s.toViewer;
        hide Upload;
    }
  }

  lemma StepKeepsUpload(s: System, a: Action, source: seq<byte>, was: Before)
    requires Upload(s, source, was) && Fits(s, a)
    ensures Upload(Step(s, a), source, was)
  {
    hide Step;
    if a.BeginWriting? || a.WriteReplied? {
      NextReadKeepsUpload(s, a, source, was);
    } else if a.OpenReplied? || a.BlockReplied? || a.ReadReplied? {
      ReplyKeepsUpload(s, a, source, was);
    } else if a.GuardWrites? {
      WriteStepKeepsUpload(s, a.seek, a.data, a.seeks, source, was);
    } else if a.GuardCloses? || a.GuardReads? || a.GuardExpires? || a.GuardDrops? {
      GuardStepKeepsUpload(s, a, source, was);
    } else if a.GuardOpens? {
      OpenKeepsUpload(s, a.seek, a.opens, a.seeks, source, was);
    } else {
      ViewerStepKeepsUpload(s, a, source, was);
    }
  }

  lemma {:induction false} RunKeepsUpload(s: System, actions: seq<Action>, source: seq<byte>, was: Before)
    requires Upload(s, source, was) && AllFit(s, actions)
    ensures Upload(Run(s, actions), source, was)
    decreases |actions|
  {
    if actions != [] {
      StepKeepsUpload(s, actions[0], source, was);
      hide Step, Upload, Fits;
      RunKeepsUpload(Step(s, actions[0]), actions[1..], source, was);
    }
  }

  function Begun(was: Before, source: seq<byte>): System {
    Initial(WriteFile, was.overrides, was.progress, true, source, was.present, was.file)
  }

  /** Every acknowledged byte is in the guard's file, which is a prefix of the source, and the source when
      the transfer is finished; before the guard opens it, it is as it was. */
  ghost predicate Safe(s: System, source: seq<byte>, was: Before) {
    && (forall a: nat | WriteReply(NoError, a) in s.toViewer ::
          a <= |s.guard.file| && a <= |source| && s.guard.file[..a] == source[..a])
    && (s.viewer.state == Finished ==> s.guard.present && s.guard.file == source)
    && (if s.opens == 0 then s.guard.present == was.present && s.guard.file == was.file else s.guard.file <= source)
  }

  lemma UploadsAreSafe(s: System, source: seq<byte>, was: Before)
    requires Upload(s, source, was)
    ensures Safe(s, source, was)
  {
    forall a: nat | WriteReply(NoError, a) in s.toViewer
      ensures a <= |s.guard.file| && a <= |source| && s.guard.file[..a] == source[..a]
    {
      assert s.opens > 0 && Acknowledged(WriteReply(NoError, a), s.guard.file);
    }
  }

  /** Upload safety, over every run whose steps all fit, with any number of stops, resumes and
      reopenings, and with lost, late and repeated messages.  A task that starts with progress must continue
      a prefix of the source. */
  lemma FittingUploadIsSafe(was: Before, source: seq<byte>, actions: seq<Action>)
    requires was.progress <= |source| && Continues(was, source) && AllFit(Begun(was, source), actions)
    ensures Safe(Run(Begun(was, source), actions), source, was)
  {
    RunKeepsUpload(Begun(was, source), actions, source, was);
    UploadsAreSafe(Run(Begun(was, source), actions), source, was);
  }

  /** A step that does not fit does harm.  A block appended out of its place, unless it is refused, leaves a
      prefix of the source only where the source repeats itself. */
  lemma MisplacedBlock(s: System, seek: nat, data: seq<byte>, seeks: bool, source: seq<byte>, was: Before)
    requires Upload(s, source, was) && !Fits(s, GuardWrites(seek, data, seeks))
    ensures var f, f' := s.guard.file, Step(s, GuardWrites(seek, data, seeks)).guard.file;
            f' == f || (seek < |f| && f' == f + data && (f' <= source <==> IsBlock(source, |f|, data)))
  {
    var f, f' := s.guard.file, WriteHandled(s, seek, data, seeks).guard.file;
    assert f <= source && Sent(SendBlock(seek, data), f, source);
    assert f' == f || f' == f + data by {
      PutAtEnd(f, data);
      hide Put, Upload;
    }
    hide *;
    PrefixGoesOn(f, data, source);
  }

  /** And a viewer that begins past the guard's file fails, or is FINISHED with a wrong file, or sends a block
      behind a gap. */
  lemma BegunTooFar(s: System, n: nat, seeks: bool, source: seq<byte>, was: Before)
    requires Upload(s, source, was) && !Fits(s, BeginWriting(n, seeks))
    ensures var s', k := Step(s, BeginWriting(n, seeks)), s.viewer.progress;
            || s'.viewer.state == Failed
            || (s'.viewer.state == Finished && s'.guard.file != source)
            || (k > |s'.guard.file| && exists data: seq<byte> :: SendBlock(k, data) in s'.sending)
  {
    var k := s.viewer.progress;
    var (t, e, data) := ReadBlock(s.viewer, k, BLOCK_SIZE, n, seeks);
    if e == NoError {
      assert SendBlock(k, data) in Step(s, BeginWriting(n, seeks)).sending;
    }
  }

  /** After a start from nothing, everything in the guard's file is acknowledged. */
  ghost predicate Told(s: System) {
    s.opens > 0 && s.guard.file != [] ==> WriteReply(NoError, |s.guard.file|) in s.toViewer
  }

  lemma StepTells(s: System, a: Action, source: seq<byte>, was: Before)
    requires Upload(s, source, was) && Fits(s, a) && Told(s) && was.progress == 0
    ensures Told(Step(s, a))
  {
    match a {
      case GuardOpens(seek, opens, seeks) => OpeningTells(s, seek, opens, seeks, source, was);
      case GuardWrites(seek, data, seeks) => WritingTells(s, seek, data, seeks, source, was);
      case GuardReads(_, _, _, _) => hide Upload;
      case _ => hide Upload, Opened, Written, Fetched;
    }
  }

  lemma OpeningTells(s: System, seek: nat, opens: bool, seeks: bool, source: seq<byte>, was: Before)
    requires Upload(s, source, was) && Fits(s, GuardOpens(seek, opens, seeks)) && Told(s) && was.progress == 0
    ensures Told(Step(s, GuardOpens(seek, opens, seeks)))
  {
    hide Put, Growing;
  }

  lemma WritingTells(s: System, seek: nat, data: seq<byte>, seeks: bool, source: seq<byte>, was: Before)
    requires Upload(s, source, was) && Fits(s, GuardWrites(seek, data, seeks)) && Told(s)
    ensures Told(Step(s, GuardWrites(seek, data, seeks)))
  {
    var f := s.guard.file;
    if SendBlock(seek, data) in s.toGuard {
      assert s.opens > 0 && Sent(SendBlock(seek, data), f, source);
      PutGrows(f, seek, data);
      hide Put, Upload;
    }
  }

  /** A task that starts with progress never asks for an opening from the start. */
  ghost predicate Onward(s: System) {
    && s.viewer.progress > 0
    && (forall m | m in s.toGuard && m.Open? :: m.seek > 0)
    && (forall after: nat | WriteReply(NoError, after) in s.toViewer :: after > 0)
  }

  lemma EventGoesOnward(t: Task, e: Event)
    requires t.progress > 0 && !e.Write? && (e.Read? ==> e.seek > 0)
    ensures Handled(t, e).progress > 0
  {
  }

  lemma ViewerGoesOnward(s: System, a: Action, source: seq<byte>, was: Before)
    requires Upload(s, source, was) && Onward(s) && !a.GuardOpens? && !a.GuardReads? && !a.GuardWrites?
    ensures Onward(Step(s, a))
  {
    hide Handled, Opened, Started, WroteBlock, ReadBlock, Growing, HandledAll;
    if a.BlockReplied? {
      BlocksAreNotReplied(s, a.seek, a.data, source, was);
    }
    OnlyBlocksAreSent(s, source, was);
    if EventOf(s, a) == [] {
      StepIsNoEvent(s, a);
    } else {
      StepIsOneEvent(s, a);
      EventGoesOnward(s.viewer, EventOf(s, a)[0]);
    }
  }

  lemma OnlyBlocksAreSent(s: System, source: seq<byte>, was: Before)
    requires Upload(s, source, was)
    ensures forall m | m in s.sending :: m.SendBlock?
  {
  }

  lemma BlocksAreNotReplied(s: System, seek: nat, data: seq<byte>, source: seq<byte>, was: Before)
    requires Upload(s, source, was)
    ensures BlockReply(seek, data) !in s.toViewer
  {
    assert !Acknowledged(BlockReply(seek, data), s.guard.file);
  }

  lemma BlocksAreNotEmpty(s: System, seek: nat, data: seq<byte>, source: seq<byte>, was: Before)
    requires Upload(s, source, was) && SendBlock(seek, data) in s.toGuard
    ensures data != []
  {
    assert s.opens > 0 ==> Sent(SendBlock(seek, data), s.guard.file, source);
  }

  lemma StepGoesOnward(s: System, a: Action, source: seq<byte>, was: Before)
    requires Upload(s, source, was) && Onward(s)
    ensures Onward(Step(s, a))
  {
    hide Upload, Opened, ReadBlock, WroteBlock;
    match a {
      case GuardOpens(_, _, _) =>
      case GuardReads(_, _, _, _) =>
      case GuardWrites(seek, data, _) =>
        if SendBlock(seek, data) in s.toGuard {
          BlocksAreNotEmpty(s, seek, data, source, was);
        }
      case _ =>
        ViewerGoesOnward(s, a, source, was);
    }
  }

  lemma {:induction false} RunTellsOrGoesOnward(s: System, actions: seq<Action>, source: seq<byte>, was: Before)
    requires Upload(s, source, was) && AllFit(s, actions)
    requires (was.progress == 0 && Told(s)) || Onward(s)
    ensures var s' := Run(s, actions); (was.progress == 0 && Told(s')) || Onward(s')
    decreases |actions|
  {
    hide Fits, Upload, Told, Onward, Step;
    if actions != [] {
      StepKeepsUpload(s, actions[0], source, was);
      if Onward(s) {
        StepGoesOnward(s, actions[0], source, was);
      } else {
        StepTells(s, actions[0], source, was);
      }
      RunTellsOrGoesOnward(Step(s, actions[0]), actions[1..], source, was);
    }
  }

  /** And an opening that does not fit, the first after any run of steps that do, empties the guard's file of
      bytes the viewer was told were written. */
  lemma UnfitOpening(was: Before, source: seq<byte>, actions: seq<Action>, seek: nat, opens: bool, seeks: bool)
    requires was.progress <= |source| && Continues(was, source) && AllFit(Begun(was, source), actions)
    requires !Fits(Run(Begun(was, source), actions), GuardOpens(seek, opens, seeks))
    ensures var s' := Step(Run(Begun(was, source), actions), GuardOpens(seek, opens, seeks));
            s'.guard.file == [] && !Safe(s', source, was)
  {
    var s := Run(Begun(was, source), actions);
    RunKeepsUpload(Begun(was, source), actions, source, was);
    RunTellsOrGoesOnward(Begun(was, source), actions, source, was);
    hide Run, Begun, AllFit, Upload;
    var s' := Step(s, GuardOpens(seek, opens, seeks));
    assert !Onward(s);
    assert WriteReply(NoError, |s.guard.file|) in s'.toViewer;
  }

  lemma CountsGrow(s: System, a: Action)
    ensures s.begins <= Step(s, a).begins && s.opens <= Step(s, a).opens
  {
    hide Started, ReadBlock, WroteBlock, Opened, BlockHandled, NextRead;
  }

  lemma {:induction false} CountsOnlyGrow(s: System, actions: seq<Action>)
    ensures s.begins <= Run(s, actions).begins && s.opens <= Run(s, actions).opens
    decreases |actions|
  {
    if actions != [] {
      CountsGrow(s, actions[0]);
      CountsOnlyGrow(Step(s, actions[0]), actions[1..]);
    }
  }

  /** Before the viewer has begun it has read and sent nothing; and a file opened once is not appended to. */
  ghost predicate Quiet(s: System) {
    && (s.begins == 0 ==> !s.starting)
    && (s.begins == 0 || s.starting ==> NothingSent(s) && s.viewer.progress == 0)
    && s.guard.mode != Appending
  }

  lemma GuardStaysQuiet(s: System, a: Action, source: seq<byte>, was: Before)
    requires Upload(s, source, was) && Quiet(s) && Step(s, a).begins <= 1 && Step(s, a).opens <= 1
    requires a.GuardOpens? || a.GuardReads? || a.GuardWrites?
    ensures Fits(s, a) && Quiet(Step(s, a))
  {
    hide Put, Growing;
    match a {
      case GuardOpens(seek, opens, seeks) =>
      case GuardReads(seek, len, n, seeks) => hide Upload;
      case GuardWrites(seek, data, seeks) => hide Upload;
    }
  }

  lemma ViewerStaysQuiet(s: System, a: Action, source: seq<byte>, was: Before)
    requires Upload(s, source, was) && Quiet(s) && Step(s, a).begins <= 1 && Step(s, a).opens <= 1
    requires !a.GuardOpens? && !a.GuardReads? && !a.GuardWrites?
    ensures Fits(s, a) && Quiet(Step(s, a))
  {
    hide Put, Growing, OpenHandled, ReadHandled, WriteHandled;
  }

  lemma OnceStays(s: System, a: Action, source: seq<byte>, was: Before)
    requires Upload(s, source, was) && Quiet(s) && Step(s, a).begins <= 1 && Step(s, a).opens <= 1
    ensures Fits(s, a) && Quiet(Step(s, a))
  {
    hide Step, Upload, Quiet, Fits;
    if a.GuardOpens? || a.GuardReads? || a.GuardWrites? {
      GuardStaysQuiet(s, a, source, was);
    } else {
      ViewerStaysQuiet(s, a, source, was);
    }
  }

  lemma {:induction false} OnceFits(s: System, actions: seq<Action>, source: seq<byte>, was: Before)
    requires Upload(s, source, was) && Quiet(s) && Run(s, actions).begins <= 1 && Run(s, actions).opens <= 1
    ensures AllFit(s, actions)
    decreases |actions|
  {
    if actions != [] {
      var s' := Step(s, actions[0]);
      CountsOnlyGrow(s', actions[1..]);
      OnceStays(s, actions[0], source, was);
      StepKeepsUpload(s, actions[0], source, was);
      hide Step, Fits, Quiet, Upload;
      OnceFits(s', actions[1..], source, was);
    }
  }

  /** In particular: over every run of a task from the start in which the viewer begins once and the guard
      opens its file once. */
  lemma UploadIsSafe(was: Before, source: seq<byte>, actions: seq<Action>)
    requires was.progress == 0
    requires var s := Run(Begun(was, source), actions); s.begins <= 1 && s.opens <= 1
    ensures Safe(Run(Begun(was, source), actions), source, was)
  {
    OnceFits(Begun(was, source), actions, source, was);
    FittingUploadIsSafe(was, source, actions);
  }

  /** Without leave to override, a guard that has the file refuses to open it again, leaves it as it is, and
      the viewer that hears of it fails. */
  lemma ReopeningRefused(s: System, seek: nat, opens: bool, seeks: bool)
    requires s.viewer.direction == WriteFile && !s.viewer.overrides
    requires s.guard.starter == Partner && s.guard.present && Open(seek) in s.toGuard
    ensures var s' := Step(s, GuardOpens(seek, opens, seeks));
            && s'.opens == s.opens && !s'.known && s'.guard.file == s.guard.file
            && OpenReply(FileAlreadyExists) in s'.toViewer
            && var s'' := Step(s', OpenReplied(FileAlreadyExists));
               s''.viewer == if s.viewer.state != Preparing then s.viewer
                             else s.viewer.(state := Failed, error := FileAlreadyExists)
  {
  }

  ghost predicate OpenedOnce(s: System) {
    && s.viewer.direction == WriteFile && !s.viewer.overrides && s.guard.starter == Partner
    && s.opens <= 1 && (s.opens == 1 ==> s.guard.present)
  }

  lemma GuardOpensOnce(s: System, seek: nat, opens: bool, seeks: bool)
    requires OpenedOnce(s)
    ensures OpenedOnce(OpenHandled(s, seek, opens, seeks))
  {
    hide Put;
  }

  lemma ViewerOpensOnce(s: System, a: Action)
    requires OpenedOnce(s) && !a.GuardOpens? && !a.GuardReads? && !a.GuardWrites?
    ensures OpenedOnce(Step(s, a))
  {
    StepIsEvent(s, a);
    hide Handled, Opened, Started, WroteBlock, ReadBlock;
    if EventOf(s, a) != [] {
      assert HandledAll(s.viewer, EventOf(s, a)) == HandledAll(Handled(s.viewer, EventOf(s, a)[0]), []);
      HandledKeeps(s.viewer, EventOf(s, a)[0]);
    }
    hide EventOf, HandledAll;
  }

  lemma GuardStaysOpenedOnce(s: System, seek: nat, data: seq<byte>, len: nat, n: nat, seeks: bool)
    requires OpenedOnce(s)
    ensures OpenedOnce(ReadHandled(s, seek, len, n, seeks)) && OpenedOnce(WriteHandled(s, seek, data, seeks))
  {
    HandledKeeps(s.guard, Read(seek, len, n, seeks));
    HandledKeeps(s.guard, Write(seek, data, seeks));
    hide ReadBlock, WroteBlock, Started;
  }

  lemma StepOpensOnce(s: System, a: Action)
    requires OpenedOnce(s)
    ensures OpenedOnce(Step(s, a))
  {
    hide OpenHandled, ReadHandled, WriteHandled, OpenedOnce;
    match a {
      case GuardOpens(seek, opens, seeks) => GuardOpensOnce(s, seek, opens, seeks);
      case GuardReads(seek, len, n, seeks) => GuardStaysOpenedOnce(s, seek, [], len, n, seeks);
      case GuardWrites(seek, data, seeks) => GuardStaysOpenedOnce(s, seek, data, 0, 0, seeks);
      case _ =>
        ViewerOpensOnce(s, a);
        hide Step;
    }
  }

  lemma {:induction false} RunOpensOnce(s: System, actions: seq<Action>)
    requires OpenedOnce(s)
    ensures OpenedOnce(Run(s, actions))
    decreases |actions|
  {
    if actions != [] {
      StepOpensOnce(s, actions[0]);
      hide Step, OpenedOnce;
      RunOpensOnce(Step(s, actions[0]), actions[1..]);
    }
  }

  lemma StillRefused(s: System, a: Action, source: seq<byte>, was: Before)
    requires Upload(s, source, was) && s.opens == 0 && was.present && !was.overrides
    ensures Fits(s, a) && Step(s, a).opens == 0
  {
    hide Started, ReadBlock, WroteBlock;
  }

  /** A file that the guard has from before is never touched without leave to override it, over every run, and
      the transfer never begins. */
  lemma {:induction false} RefusedForGood(s: System, actions: seq<Action>, source: seq<byte>, was: Before)
    requires Upload(s, source, was) && s.opens == 0 && was.present && !was.overrides
    ensures Upload(Run(s, actions), source, was) && Run(s, actions).opens == 0
    decreases |actions|
  {
    if actions != [] {
      StillRefused(s, actions[0], source, was);
      StepKeepsUpload(s, actions[0], source, was);
      hide Step, Fits, Upload;
      RefusedForGood(Step(s, actions[0]), actions[1..], source, was);
    }
  }

  /** So without leave to override, which the tasks a viewer sends by itself never ask for, every run is
      safe, however often it is stopped and resumed, if the viewer does not act on one open reply twice, and
      the task starts from nothing or is refused. */
  lemma UploadWithoutOverride(was: Before, source: seq<byte>, actions: seq<Action>)
    requires !was.overrides && was.progress <= |source| && (was.progress == 0 || was.present)
    requires var s := Run(Begun(was, source), actions); s.begins <= s.opens
    ensures Safe(Run(Begun(was, source), actions), source, was)
  {
    if was.present {
      RefusedForGood(Begun(was, source), actions, source, was);
      UploadsAreSafe(Run(Begun(was, source), actions), source, was);
    } else {
      RunOpensOnce(Begun(was, source), actions);
      UploadIsSafe(was, source, actions);
    }
  }

  /** A viewer that has read `k` bytes is to take the transfer up: it was stopped, or its task is a new one
      for the same transfer, with its file closed.  The guard has `part` of the file, if it has it, and then
      the viewer has leave to override it.  Nothing is said of what else is under way. */
  ghost predicate Interrupted(s: System, source: seq<byte>, k: nat, part: seq<byte>) {
    var t := s.viewer;
    && t == Task(Self, WriteFile, t.overrides, WaitingForStart, NoError, k, t.mode, t.position, true, source)
    && (t.mode == Closed || (t.mode == Reading && t.position == k))
    && s.guard.starter == Partner && (s.guard.present ==> t.overrides) && s.guard.file == part
  }

  /** Up to `at` everything read was sent and written; the guard has `part`, and the viewer has read the
      next block, or has come to the end. */
  ghost predicate Halfway(s: System, source: seq<byte>, at: nat, part: seq<byte>) {
    var k := Got(source, at, BLOCK_SIZE, BLOCK_SIZE);
    && at <= |source| && s.known
    && s.guard == Task(Partner, WriteFile, s.guard.overrides, Transmitting, NoError, at, s.guard.mode, s.guard.position,
                       true, part)
    && (s.guard.mode == Appending || (s.guard.mode == Writing && s.guard.position == at == |part|))
    && s.viewer.file == source
    && (if k == 0 then s.viewer.state == Finished
        else && s.viewer == Task(Self, WriteFile, s.viewer.overrides, Transmitting, NoError, at + k, Reading, at + k,
                                 true, source)
             && SendBlock(at, source[at..at + k]) in s.sending)
  }

  function SendRound(at: nat, data: seq<byte>): seq<Action> {
    [NotifySend(SendBlock(at, data)), GuardWrites(at, data, true), WriteReplied(NoError, at + |data|, BLOCK_SIZE, true)]
  }

  /** The rest of an upload nothing interferes with. */
  function SendRounds(source: seq<byte>, at: nat): seq<Action>
    decreases |source| - at
  {
    var k := Got(source, at, BLOCK_SIZE, BLOCK_SIZE);
    if k == 0 then [] else SendRound(at, source[at..at + k]) + SendRounds(source, at + k)
  }

  lemma SendRoundGoesOn(s: System, source: seq<byte>, at: nat, part: seq<byte>)
    requires Halfway(s, source, at, part) && at < |source|
    ensures var k := Got(source, at, BLOCK_SIZE, BLOCK_SIZE);
            var s' := Run(s, SendRound(at, source[at..at + k]));
            && Halfway(s', source, at + k, part + source[at..at + k])
            && s'.begins == s.begins && s'.opens == s.opens
  {
    var k := Got(source, at, BLOCK_SIZE, BLOCK_SIZE);
    var data := source[at..at + k];
    RunOfThree(s, NotifySend(SendBlock(at, data)), GuardWrites(at, data, true),
               WriteReplied(NoError, at + k, BLOCK_SIZE, true));
    var s1 := Step(s, NotifySend(SendBlock(at, data)));
    var s2 := Step(s1, GuardWrites(at, data, true));
    PutAtEnd(part, data);
    hide Put;
    assert s2.guard.file == part + data;
    assert WriteReply(NoError, at + k) in s2.toViewer;
  }

  lemma {:induction false} SendRoundsFinish(s: System, source: seq<byte>, at: nat, part: seq<byte>)
    requires Halfway(s, source, at, part) && at <= |source|
    ensures var s' := Run(s, SendRounds(source, at));
            && s'.viewer.state == Finished && s'.guard.file == part + source[at..]
            && s'.begins == s.begins && s'.opens == s.opens
    decreases |source| - at
  {
    hide *;
    if at >= |source| {
      NoMoreSendRounds(s, source, at, part);
    } else {
      MoreSendRounds(source, at);
      SendRoundGoesOn(s, source, at, part);
      var k := Got(source, at, BLOCK_SIZE, BLOCK_SIZE);
      var data := source[at..at + k];
      RunInTwo(s, SendRound(at, data), SendRounds(source, at + k));
      SendRoundsFinish(Run(s, SendRound(at, data)), source, at + k, part + data);
      assert part + data + source[at + k..] == part + source[at..];
    }
  }

  lemma NoMoreSendRounds(s: System, source: seq<byte>, at: nat, part: seq<byte>)
    requires Halfway(s, source, at, part) && at >= |source|
    ensures at == |source| && Run(s, SendRounds(source, at)) == s && s.viewer.state == Finished
    ensures s.guard.file == part + source[at..]
  {
  }

  lemma MoreSendRounds(source: seq<byte>, at: nat)
    requires at < |source|
    ensures var k := Got(source, at, BLOCK_SIZE, BLOCK_SIZE);
            && 0 < k <= |source| - at
            && SendRounds(source, at) == SendRound(at, source[at..at + k]) + SendRounds(source, at + k)
  {
  }

  function Reopening(k: nat): seq<Action> {
    [Start(true, true), NotifyOpen, GuardOpens(k, true, true)] + [OpenReplied(NoError), BeginWriting(BLOCK_SIZE, true)]
  }

  lemma Reopens(s: System, source: seq<byte>, k: nat, part: seq<byte>)
    requires Interrupted(s, source, k, part)
    ensures var s' := Step(Step(Step(s, Start(true, true)), NotifyOpen), GuardOpens(k, true, true));
            && s'.viewer == s.viewer.(state := Preparing, mode := Reading, position := k)
            && s'.known && OpenReply(NoError) in s'.toViewer && s'.begins == s.begins && s'.opens == s.opens + 1
            && s'.guard == Task(Partner, WriteFile, s.viewer.overrides, Transmitting, NoError, k,
                                if k == 0 then Writing else Appending, k, true, Kept(k, part))
  {
    var s1 := Step(s, Start(true, true));
    assert s1 == s.(viewer := s.viewer.(state := Preparing, mode := Reading, position := k), opening := true);
    var s2 := Step(s1, NotifyOpen);
    assert s2.viewer == s1.viewer && s2.guard == s.guard && Open(k) in s2.toGuard;
    assert s2.begins == s.begins && s2.opens == s.opens;
  }

  lemma BeginsHalfway(s: System, source: seq<byte>, k: nat, part: seq<byte>)
    requires k <= |source| && s.known && OpenReply(NoError) in s.toViewer
    requires s.viewer == Task(Self, WriteFile, s.viewer.overrides, Preparing, NoError, k, Reading, k, true, source)
    requires s.guard == Task(Partner, WriteFile, s.guard.overrides, Transmitting, NoError, k, s.guard.mode, k,
                             true, part)
    requires s.guard.mode == Appending || (s.guard.mode == Writing && k == |part|)
    ensures var s' := Step(Step(s, OpenReplied(NoError)), BeginWriting(BLOCK_SIZE, true));
            && Halfway(s', source, k, part) && s'.viewer.overrides == s.viewer.overrides
            && s'.begins == s.begins + 1 && s'.opens == s.opens
  {
    var s4 := Step(s, OpenReplied(NoError));
    assert s4.starting && s4.viewer == s.viewer.(state := Transmitting) && s4.guard == s.guard && s4.known;
  }

  lemma RunOfReopening(s: System, k: nat)
    ensures var s3 := Step(Step(Step(s, Start(true, true)), NotifyOpen), GuardOpens(k, true, true));
            Run(s, Reopening(k)) == Step(Step(s3, OpenReplied(NoError)), BeginWriting(BLOCK_SIZE, true))
  {
    hide Step;
    var s3 := Step(Step(Step(s, Start(true, true)), NotifyOpen), GuardOpens(k, true, true));
    var s4 := Step(s3, OpenReplied(NoError));
    RunInTwo(s, [Start(true, true), NotifyOpen, GuardOpens(k, true, true)],
             [OpenReplied(NoError), BeginWriting(BLOCK_SIZE, true)]);
    RunOfThree(s, Start(true, true), NotifyOpen, GuardOpens(k, true, true));
    assert Run(s4, [BeginWriting(BLOCK_SIZE, true)]) == Run(Step(s4, BeginWriting(BLOCK_SIZE, true)), []);
    assert [OpenReplied(NoError), BeginWriting(BLOCK_SIZE, true)][1..] == [BeginWriting(BLOCK_SIZE, true)];
  }

  /** From then on undisturbed, a resumed upload leaves what the guard had followed by what the viewer had
      not yet read, whatever else was under way.  That is the source exactly when the guard had just the
      bytes the viewer had read, or the viewer had read none. */
  lemma ResumedUpload(s: System, source: seq<byte>, k: nat, part: seq<byte>)
    requires Interrupted(s, source, k, part) && k <= |source|
    ensures var s' := Run(s, Reopening(k) + SendRounds(source, k));
            && s'.viewer.state == Finished && s'.guard.file == Kept(k, part) + source[k..]
            && (s'.guard.file == source <==> k == 0 || part == source[..k])
            && s'.begins == s.begins + 1 && s'.opens == s.opens + 1
  {
    RunOfReopening(s, k);
    Reopens(s, source, k, part);
    BeginsHalfway(Step(Step(Step(s, Start(true, true)), NotifyOpen), GuardOpens(k, true, true)), source, k,
                  Kept(k, part));
    hide Step, Halfway, Interrupted, SendRounds, Reopening;
    RunInTwo(s, Reopening(k), SendRounds(source, k));
    SendRoundsFinish(Run(s, Reopening(k)), source, k, Kept(k, part));
    KeptAndRest(k, part, source);
  }

  lemma UploadBegins(was: Before, source: seq<byte>)
    requires was.progress == 0 && (was.present ==> was.overrides)
    ensures var s := Run(Begun(was, source), Reopening(0));
            Halfway(s, source, 0, []) && s.viewer.overrides == was.overrides
  {
    var s := Begun(was, source);
    Reopens(s, source, 0, was.file);
    RunOfReopening(s, 0);
    hide Step, Halfway;
    BeginsHalfway(Step(Step(Step(s, Start(true, true)), NotifyOpen), GuardOpens(0, true, true)), source, 0, []);
  }

  /** An upload nothing interferes with sends the whole file. */
  lemma UploadCanFinish(was: Before, source: seq<byte>)
    requires was.progress == 0 && (was.present ==> was.overrides)
    ensures var s := Run(Begun(was, source), Reopening(0) + SendRounds(source, 0));
            s.viewer.state == Finished && s.guard.file == source
  {
    var s := Begun(was, source);
    UploadBegins(was, source);
    hide Halfway, Step, Begun, SendRounds, Reopening;
    RunInTwo(s, Reopening(0), SendRounds(source, 0));
    SendRoundsFinish(Run(s, Reopening(0)), source, 0, []);
    assert [] + source[0..] == source;
  }

  /** The viewer is stopped after it has read its only block.  Its announcement of the stop goes out before
      the block, so the guard closes its file and refuses the block; then the transfer is resumed. */
  function LosingRun(source: seq<byte>): seq<Action> {
    Reopening(0) + ([Action.Stop, NotifyClose, NotifySend(SendBlock(0, source))]
                    + ([GuardCloses, GuardWrites(0, source, true), Action.Resume] + Reopening(|source|)))
  }

  lemma StoppedTooLate(s: System, source: seq<byte>)
    requires 0 < |source| <= BLOCK_SIZE && Halfway(s, source, 0, []) && s.viewer.overrides
    ensures var s1 := Run(s, [Action.Stop, NotifyClose, NotifySend(SendBlock(0, source))]);
            var s2 := Run(s1, [GuardCloses, GuardWrites(0, source, true), Action.Resume]);
            Interrupted(s2, source, |source|, [])
  {
    assert source[0..|source|] == source;
    assert s.viewer == Task(Self, WriteFile, true, Transmitting, NoError, |source|, Reading, |source|, true, source);
    RunOfThree(s, Action.Stop, NotifyClose, NotifySend(SendBlock(0, source)));
    var s1 := Run(s, [Action.Stop, NotifyClose, NotifySend(SendBlock(0, source))]);
    assert Close in s1.toGuard && s1.viewer == s.viewer.(state := Stopped) && s1.guard == s.guard;
    RunOfThree(s1, GuardCloses, GuardWrites(0, source, true), Action.Resume);
  }

  /** So not every run is safe: this run of any upload of one block, with leave to override, ends FINISHED with
      nothing in the guard's file. */
  lemma ResumedUploadLosesABlock(was: Before, source: seq<byte>)
    requires was.overrides && was.progress == 0 && 0 < |source| <= BLOCK_SIZE
    ensures var s := Run(Begun(was, source), LosingRun(source)); s.viewer.state == Finished && s.guard.file == []
  {
    var s0 := Begun(was, source);
    var a, b := Reopening(0), [Action.Stop, NotifyClose, NotifySend(SendBlock(0, source))];
    var c, d := [GuardCloses, GuardWrites(0, source, true), Action.Resume], Reopening(|source|);
    UploadBegins(was, source);
    StoppedTooLate(Run(s0, a), source);
    assert SendRounds(source, |source|) == [];
    hide Run, Step, Begun, Interrupted, Reopening, SendRounds, Halfway;
    RunInTwo(s0, a, b + (c + d));
    RunInTwo(Run(s0, a), b, c + d);
    RunInTwo(Run(Run(s0, a), b), c, d);
    ResumedUpload(Run(Run(Run(s0, a), b), c), source, |source|, []);
    assert d + [] == d;
  }

  /** An upload as it is loaded when the viewer's process starts again: stopped, with the progress that was
      stored, and without leave to override; `present` and `file` are the guard's. */
  function ReloadedSending(progress: nat, present: bool, file: seq<byte>, source: seq<byte>): System {
    var s := Begun(Before(false, present, file, progress), source);
    s.(viewer := s.viewer.(state := Stopped))
  }

  /** It does nothing until it is resumed, and then is like one that has just begun. */
  lemma {:induction false} ReloadedUntilResumed(progress: nat, present: bool, file: seq<byte>, source: seq<byte>,
                                               actions: seq<Action>) returns (rest: seq<Action>)
    ensures var s := ReloadedSending(progress, present, file, source);
            var s' := Begun(Before(false, present, file, progress), source);
            Run(s, actions) == s || Run(s, actions) == Run(s', rest)
    decreases |actions|
  {
    var s := ReloadedSending(progress, present, file, source);
    if actions == [] {
      rest := [];
    } else if actions[0] == Action.Resume {
      assert Step(s, actions[0]) == Begun(Before(false, present, file, progress), source);
      rest := actions[1..];
    } else {
      assert Step(s, actions[0]) == s;
      rest := ReloadedUntilResumed(progress, present, file, source, actions[1..]);
    }
  }

  lemma ReloadedUploadIsSafe(progress: nat, present: bool, file: seq<byte>, source: seq<byte>, actions: seq<Action>)
    requires progress <= |source| && (present || progress == 0)
    requires var s := Run(ReloadedSending(progress, present, file, source), actions);
             s.begins <= s.opens && s.viewer.state == Finished
    ensures Run(ReloadedSending(progress, present, file, source), actions).guard.file == source
  {
    var rest := ReloadedUntilResumed(progress, present, file, source, actions);
    UploadWithoutOverride(Before(false, present, file, progress), source, rest);
  }

  /** If the guard does not have the file, it can end FINISHED with just what comes after the stored progress. */
  lemma ReloadedUpload(progress: nat, source: seq<byte>) returns (actions: seq<Action>)
    requires progress <= |source|
    ensures var s := Run(ReloadedSending(progress, false, [], source), actions);
            s.begins <= s.opens && s.viewer.state == Finished && s.guard.file == source[progress..]
  {
    var rest := Reopening(progress) + SendRounds(source, progress);
    actions := [Action.Resume] + rest;
    assert actions[1..] == rest;
    var s := Begun(Before(false, false, [], progress), source);
    assert Step(ReloadedSending(progress, false, [], source), Action.Resume) == s;
    ResumedUpload(s, source, progress, []);
    assert Kept(progress, []) + source[progress..] == source[progress..];
  }

  /** So a reloaded upload whose viewer acts on no open reply twice ends FINISHED with nothing but equal files,
      over every run, exactly if the guard has the file, and so refuses it, or there was no progress. */
  lemma ReloadedUploadIsRight(progress: nat, present: bool, file: seq<byte>, source: seq<byte>)
    requires progress <= |source| && (present || file == [])
    ensures (forall actions ::
               var s := Run(ReloadedSending(progress, present, file, source), actions);
               s.begins <= s.opens && s.viewer.state == Finished ==> s.guard.file == source)
            <==> present || progress == 0
  {
    if present || progress == 0 {
      forall actions
        ensures var s := Run(ReloadedSending(progress, present, file, source), actions);
                s.begins <= s.opens && s.viewer.state == Finished ==> s.guard.file == source
      {
        var s := Run(ReloadedSending(progress, present, file, source), actions);
        if s.begins <= s.opens && s.viewer.state == Finished {
          ReloadedUploadIsSafe(progress, present, file, source, actions);
        }
      }
    } else {
      var actions := ReloadedUpload(progress, source);
      assert |Run(ReloadedSending(progress, present, file, source), actions).guard.file| < |source|;
    }
  }
}
