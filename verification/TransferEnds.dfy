/** How a transfer ends and goes on: what an end, a stop and a time-out leave on both sides, that every
    request is answered, and that a stopped download can be resumed and finish. */
module TransferEnds {
  import opened Bytes
  import opened FileTasks
  import opened Transfers

  /** What the viewer still has to say closes the guard's file. */
  ghost predicate Closes(s: System) {
    var s' := Run(s, [NotifyClose, GuardCloses]);
    && Close in s'.toGuard && !s'.known && s'.guard.mode == Closed
    && s'.guard.file == s.guard.file && s'.viewer == s.viewer
  }

  lemma ClosingCloses(s: System)
    requires s.closing
    ensures Closes(s)
  {
    var s1 := Step(s, NotifyClose);
    assert [NotifyClose, GuardCloses][1..] == [GuardCloses];
    assert Run(s1, [GuardCloses]) == Run(Step(s1, GuardCloses), []);
  }

  /** A failing reply to a block ends the transfer of a viewer that is transmitting: FINISHED exactly for the
      end of the file it reads, else FAILED with the reply's error, with its own file closed; it stays so,
      over every run; and the guard is told, and closes its file. */
  lemma FailingReplyEnds(s: System, a: Action, actions: seq<Action>)
    requires s.viewer.starter == Self && s.viewer.state == Transmitting
    requires (a.ReadReplied? && ReadReply(a.error) in s.toViewer)
             || (a.WriteReplied? && a.error != NoError && WriteReply(a.error, a.afterSeek) in s.toViewer)
    ensures var s' := Step(s, a);
            && (a.ReadReplied? ==> EndsWith(s'.viewer, a.error))
            && (a.WriteReplied? ==>
                  s'.viewer.state == Failed && s'.viewer.error == a.error && s'.viewer.mode == Closed)
            && s'.viewer.file == s.viewer.file && Run(s', actions).viewer == s'.viewer && Closes(s')
  {
    var s' := Step(s, a);
    HandledDoes(s.viewer, if a.ReadReplied? then ReadFails(a.error) else WriteFails(a.error));
    OverForGood(s', actions);
    assert s'.closing;
    ClosingCloses(s');
    hide Closes, Run;
  }

  /** Whatever takes a viewer out of transmission but a time-out, a stop, a reply or a failure of its own file,
      is announced to the guard. */
  lemma LeavingIsAnnounced(s: System, a: Action)
    requires s.viewer.state == Transmitting && Step(s, a).viewer.state != Transmitting && a != Action.Expire
    ensures Closes(Step(s, a))
  {
    LeavingCloses(s, a);
    ClosingCloses(Step(s, a));
    hide Step, Closes;
  }

  /** A block that is read or written leaves the task's state as it is. */
  lemma BlocksGoOn(t: Task, seek: nat, data: seq<byte>, n: nat, seeks: bool)
    ensures WroteBlock(t, seek, data, seeks).1 == NoError ==> WroteBlock(t, seek, data, seeks).0.state == t.state
    ensures ReadBlock(t, seek, BLOCK_SIZE, n, seeks).1 == NoError ==>
              ReadBlock(t, seek, BLOCK_SIZE, n, seeks).0.state == t.state
  {
    hide Put;
  }

  lemma LeavingCloses(s: System, a: Action)
    requires s.viewer.state == Transmitting && Step(s, a).viewer.state != Transmitting && a != Action.Expire
    ensures Step(s, a).closing
  {
    hide WroteBlock, ReadBlock, Opened, OpenHandled, ReadHandled, WriteHandled;
    match a {
      case BlockReplied(seek, data, seeks) => BlocksGoOn(s.viewer, seek, data, 0, seeks);
      case BeginWriting(n, seeks) => BlocksGoOn(s.viewer, s.viewer.progress, [], n, seeks);
      case WriteReplied(_, after, n, seeks) => BlocksGoOn(s.viewer, after, [], n, seeks);
      case _ =>
    }
  }

  /** A reply that comes when the viewer does not wait for it is ignored: one to an open request unless it is
      preparing, one to a block unless it is transmitting. */
  lemma LateRepliesAreIgnored(s: System, a: Action)
    requires (a.OpenReplied? && s.viewer.state != Preparing)
             || ((a.BlockReplied? || a.ReadReplied? || a.WriteReplied?) && s.viewer.state != Transmitting)
    ensures Step(s, a).viewer == s.viewer && Step(s, a).toGuard == s.toGuard
    ensures Step(s, a).asking == s.asking && Step(s, a).sending == s.sending && Step(s, a).closing == s.closing
  {
    hide Opened, Written, Fetched, OpenHandled, ReadHandled, WriteHandled;
    match a {
      case OpenReplied(_) =>
      case BlockReplied(seek, data, seeks) =>
        assert WroteBlock(s.viewer, seek, data, seeks) == (s.viewer, OperateFailed);
      case ReadReplied(_) =>
      case WriteReplied(_, after, n, seeks) =>
        assert ReadBlock(s.viewer, after, BLOCK_SIZE, n, seeks) == (s.viewer, OperateFailed, []);
    }
  }

  /** A refused opening fails a viewer that waits for it, with the guard's error, for good. */
  lemma RefusalFails(s: System, e: Error, actions: seq<Action>)
    requires s.viewer.state == Preparing && e != NoError && OpenReply(e) in s.toViewer
    ensures var s' := Step(s, OpenReplied(e));
            s'.viewer.state == Failed && s'.viewer.error == e && Run(s', actions).viewer == s'.viewer
  {
    OverForGood(Step(s, OpenReplied(e)), actions);
  }

  /** A time-out leaves no task in use: the viewer's is stopped; the guard's too, and then it is taken out of the
      map and its file closed; neither file changes. */
  lemma TimeOutStops(s: System)
    ensures var t := Step(s, Action.Expire).viewer;
            && t == s.viewer.(state := if s.viewer.state in {Preparing, Transmitting} then Stopped else s.viewer.state)
    ensures var s' := Run(s, [GuardExpires, GuardDrops]);
            && (s.known && s.guard.state in {Preparing, Transmitting} ==> !s'.known && s'.guard.mode == Closed)
            && s'.guard.file == s.guard.file && s'.viewer == s.viewer
  {
    hide Started, WroteBlock, ReadBlock, OpenHandled, ReadHandled, WriteHandled;
    var s1 := Step(s, GuardExpires);
    assert [GuardExpires, GuardDrops][1..] == [GuardDrops];
    assert Run(s1, [GuardDrops]) == Run(Step(s1, GuardDrops), []);
  }

  /** A stop takes one's own transmitting task out of transmission and closes the guard's file; and it or a
      task that timed out waits for its start again once it is resumed, at the progress it had. */
  lemma StopAndResume(s: System)
    requires s.viewer.starter == Self
    ensures s.viewer.state == Transmitting ==>
              var s' := Step(s, Action.Stop); s'.viewer == s.viewer.(state := Stopped) && Closes(s')
    ensures s.viewer.state == Stopped ==>
              Step(s, Action.Resume).viewer == s.viewer.(state := WaitingForStart)
  {
    if s.viewer.state == Transmitting {
      ClosingCloses(Step(s, Action.Stop));
    }
  }

  lemma OpeningIsSound(s: System, seek: nat, opens: bool, seeks: bool)
    requires s.guard.starter == Partner
    ensures Sound(OpenHandled(s, seek, opens, seeks).guard)
  {
    hide Put;
  }

  lemma StepKeepsGuardSound(s: System, a: Action)
    requires s.guard.starter == Partner && Sound(s.guard)
    ensures Step(s, a).guard.starter == Partner && Sound(Step(s, a).guard)
  {
    hide OpenHandled, Handled, Started, WroteBlock, ReadBlock;
    match a {
      case GuardOpens(seek, opens, seeks) => OpeningIsSound(s, seek, opens, seeks); KeepsStarter(s, seek, opens, seeks);
      case GuardReads(seek, len, n, seeks) => ReadIsEvent(s.guard, seek, len, n, seeks);
      case GuardWrites(seek, data, seeks) => WriteIsEvent(s.guard, seek, data, seeks);
      case _ =>
    }
  }

  lemma KeepsStarter(s: System, seek: nat, opens: bool, seeks: bool)
    ensures OpenHandled(s, seek, opens, seeks).guard.starter == s.guard.starter
  {
    hide Put;
  }

  lemma ReadIsEvent(t: Task, seek: nat, len: nat, n: nat, seeks: bool)
    requires Sound(t)
    ensures var t' := ReadBlock(t, seek, len, n, seeks).0; Sound(t') && t'.starter == t.starter
  {
    HandledSoundly(t, Read(seek, len, n, seeks));
    HandledKeeps(t, Read(seek, len, n, seeks));
  }

  lemma WriteIsEvent(t: Task, seek: nat, data: seq<byte>, seeks: bool)
    requires Sound(t)
    ensures var t' := WroteBlock(t, seek, data, seeks).0; Sound(t') && t'.starter == t.starter
  {
    HandledSoundly(t, Write(seek, data, seeks));
    HandledKeeps(t, Write(seek, data, seeks));
  }

  /** Over every run the guard's open file is where its progress says. */
  lemma {:induction false} GuardIsSound(s: System, actions: seq<Action>)
    requires s.guard.starter == Partner && Sound(s.guard)
    ensures Sound(Run(s, actions).guard)
    decreases |actions|
  {
    hide Step, Sound;
    if actions != [] {
      StepKeepsGuardSound(s, actions[0]);
      GuardIsSound(Step(s, actions[0]), actions[1..]);
    }
  }

  /** The guard answers every request for a block, with just the bytes of its file at the place asked for, or
      with an error; one it does not know the task of, or whose task is stopped, always with an error. */
  lemma GuardAnswersReads(s: System, seek: nat, len: nat, n: nat, seeks: bool)
    requires AskBlock(seek, len) in s.toGuard && Sound(s.guard)
    ensures var s' := Step(s, GuardReads(seek, len, n, seeks));
            && s'.guard.file == s.guard.file
            && (|| (exists e :: e != NoError && s'.toViewer == s.toViewer + {ReadReply(e)}
                                && (e == EndOfFile ==> seek >= |s.guard.file|))
                || (exists data: seq<byte> ::
                      && s.known && s.guard.state == Transmitting && IsBlock(s.guard.file, seek, data) && |data| <= len
                      && s'.toViewer == s.toViewer + {BlockReply(seek, data)}))
  {
    var s' := Step(s, GuardReads(seek, len, n, seeks));
    if !s.known {
      assert s'.toViewer == s.toViewer + {ReadReply(OperateFailed)};
    } else {
      var (t, e, data) := ReadBlock(s.guard, seek, len, n, seeks);
      if e == NoError {
        assert IsBlock(s.guard.file, seek, data);
        assert s'.toViewer == s.toViewer + {BlockReply(seek, data)};
      } else {
        assert s'.toViewer == s.toViewer + {ReadReply(e)};
      }
    }
  }

  /** And every block it is sent: that it is written up to where the block ends, which then it is, or with an
      error, and then its file is as it was. */
  lemma GuardAnswersWrites(s: System, seek: nat, data: seq<byte>, seeks: bool)
    requires SendBlock(seek, data) in s.toGuard && data != [] && Sound(s.guard)
    ensures var s', f := Step(s, GuardWrites(seek, data, seeks)), s.guard.file;
            || (exists e :: e != NoError && s'.toViewer == s.toViewer + {WriteReply(e, 0)} && s'.guard.file == f)
            || (&& s.known && s.guard.state == Transmitting && !s.guard.Reads()
                && s'.toViewer == s.toViewer + {WriteReply(NoError, seek + |data|)}
                && s.guard.mode in {Writing, Appending}
                && s'.guard.file == Put(f, if s.guard.mode == Appending then |f| else seek, data))
  {
    hide Put;
    var s' := Step(s, GuardWrites(seek, data, seeks));
    if !s.known {
      assert s'.toViewer == s.toViewer + {WriteReply(OperateFailed, 0)};
    } else {
      var (t, e) := WroteBlock(s.guard, seek, data, seeks);
      if e != NoError {
        assert s'.toViewer == s.toViewer + {WriteReply(e, 0)};
      }
    }
  }

  lemma OpenedOrNot(t: Task, opens: bool, seeks: bool)
    requires t.mode == Closed
    ensures var (o, e) := Opened(t, opens, seeks);
            && o.state == t.state && (e == NoError ==> o.mode != Closed)
            && (e != NoError ==> o.file == t.file)
  {
  }

  /** And every request to open: it knows the task from then on exactly if it opened the file. */
  lemma GuardAnswersOpens(s: System, seek: nat, opens: bool, seeks: bool)
    requires Open(seek) in s.toGuard
    ensures var s' := Step(s, GuardOpens(seek, opens, seeks));
            exists e :: && s'.toViewer == s.toViewer + {OpenReply(e)}
                        && (e == NoError <==> s'.opens == s.opens + 1) && (e == NoError <==> s'.known)
                        && (e == NoError ==> s'.guard.state == Transmitting && s'.guard.mode != Closed)
                        && (e != NoError ==> s'.guard.mode == Closed && s'.guard.file == s.guard.file)
  {
    hide Opened, Started, WroteBlock, ReadBlock;
    var t := s.guard.(direction := s.viewer.direction, overrides := s.viewer.overrides, state := Transmitting,
                      error := NoError, progress := seek, mode := Closed, position := 0);
    var (o, e) := Opened(t, opens, seeks);
    OpenedOrNot(t, opens, seeks);
    assert Step(s, GuardOpens(seek, opens, seeks)).toViewer == s.toViewer + {OpenReply(e)};
  }

  lemma ReopenedInStep(s: System, source: seq<byte>, was: Before)
    requires Download(s, source, was) && was.progress == 0 && s.viewer.state == WaitingForStart
    requires Loading(s, source, was) && s.viewer.progress <= |source|
    ensures var k := s.viewer.progress;
            var s3 := Step(Step(Step(s, Start(true, true)), NotifyOpen), GuardOpens(k, true, true));
            InStep(Step(s3, OpenReplied(NoError)), source, [], 0, k, BLOCK_SIZE)
  {
    var k := s.viewer.progress;
    var s1 := Step(s, Start(true, true));
    var s2 := Step(s1, NotifyOpen);
    var s3 := Step(s2, GuardOpens(k, true, true));
    assert s1.opening && s1.viewer == s.viewer.(state := Preparing);
    assert s2.viewer == s1.viewer && s2.guard == s.guard && Open(k) in s2.toGuard;
    assert s3.viewer == s1.viewer && OpenReply(NoError) in s3.toViewer;
  }

  /** A download that was stopped, or timed out, at whatever point of whatever run, can be resumed and finish. */
  lemma StoppedDownloadCanFinish(was: Before, source: seq<byte>, actions: seq<Action>) returns (more: seq<Action>)
    requires was.progress == 0 && Run(Fetching(was, source), actions).viewer.state == Stopped
    ensures var t := Run(Run(Fetching(was, source), actions), more).viewer;
            t.state == Finished && t.present && t.file == source
  {
    RunKeepsDownload(Fetching(was, source), actions, source, was);
    var s := Run(Fetching(was, source), actions);
    assert Loading(s, source, was);
    StepKeepsDownload(s, Action.Resume, source, was);
    var s1 := Step(s, Action.Resume);
    assert s1.viewer == s.viewer.(state := WaitingForStart);
    more := ResumedDownloadFinishes(s1, source, was);
    more := [Action.Resume] + more;
    RunKeepsDownload(s, more, source, was);
  }

  lemma ResumedDownloadFinishes(s: System, source: seq<byte>, was: Before) returns (actions: seq<Action>)
    requires Download(s, source, was) && was.progress == 0 && s.viewer.state == WaitingForStart
    requires Loading(s, source, was)
    ensures Run(s, actions).viewer.state == Finished && Run(s, actions).viewer.file == source
  {
    var k := s.viewer.progress;
    ReopenedInStep(s, source, was);
    hide InStep, Step, Download, Loading;
    var first, second := [Start(true, true), NotifyOpen, GuardOpens(k, true, true)], [OpenReplied(NoError)];
    RunInTwo(s, first, second);
    RunOfThree(s, Start(true, true), NotifyOpen, GuardOpens(k, true, true));
    assert Run(Run(s, first), second) == Run(Step(Run(s, first), OpenReplied(NoError)), []);
    var rest := RoundsFinish(Run(s, first + second), source, [], 0, k, BLOCK_SIZE);
    RunInTwo(s, first + second, rest);
    actions := first + second + rest;
    assert [] + source[0..] == source;
  }
}
