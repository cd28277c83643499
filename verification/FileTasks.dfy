/** One file transfer as one side of it sees it: its state, its progress and its open file.  The
    functions say what each operation of the task scheduler does to the task under the task's mutex;
    the class does it step by step. */
module FileTasks {
  import opened Bytes

  datatype Starter = Self | Partner

  /** The starter's point of view: `WriteFile` sends a file to the partner, `ReadFile` fetches one. */
  datatype Direction = WriteFile | ReadFile

  datatype State = WaitingForStart | Preparing | Transmitting | Stopped | Finished | Failed

  datatype Error = NoError | EndOfFile | OperateFailed | FileClosed | FileAlreadyExists

  datatype Mode = Closed | Reading | Writing | Appending

  /** `present` and `file` are the file on disk that the task names; `mode` and `position` are those
      of its open handle. */
  datatype Task = Task(starter: Starter, direction: Direction, overrides: bool, state: State, error: Error,
                       progress: nat, mode: Mode, position: nat, present: bool, file: seq<byte>)
  {
    /** The task's own file is the one that is read. */
    predicate Reads() {
      (starter == Self) == (direction == WriteFile)
    }

    predicate Over() {
      state in {Finished, Failed}
    }
  }

  const BLOCK_SIZE: nat := 65536

  predicate IsBlock(source: seq<byte>, seek: nat, data: seq<byte>) {
    data != [] && seek + |data| <= |source| && data == source[seek..seek + |data|]
  }

  /** An open handle fits the task, and it is where the progress says, so that a block asked for at the
      progress needs no seek.  A task that failed to seek keeps its handle, but is over. */
  predicate Sound(t: Task) {
    && (t.mode == Reading ==> t.Reads() && t.present)
    && (t.mode in {Writing, Appending} ==> !t.Reads() && t.present)
    && (t.mode in {Reading, Writing} && !t.Over() ==> t.position == t.progress)
  }

  /** The arrows between the states of a task. */
  predicate Leads(a: State, b: State) {
    || a == b
    || (a == WaitingForStart && b in {Preparing, Failed})
    || (a == Preparing && b in {Transmitting, Stopped, Failed})
    || (a == Transmitting && b in {Stopped, Finished, Failed})
    || (a == Stopped && b == WaitingForStart)
  }

  function Zeros(n: nat): (r: seq<byte>)
    ensures |r| == n
  {
    seq(n, _ => 0)
  }

  /** The file after `data` was written over it from `at` on; a gap reads as zeros. */
  function Put(file: seq<byte>, at: nat, data: seq<byte>): seq<byte> {
    if data == [] then file
    else
      var long := if at > |file| then file + Zeros(at - |file|) else file;
      long[..at] + data + (if at + |data| < |long| then long[at + |data|..] else [])
  }

  /** What it has at each place. */
  function PutAt(file: seq<byte>, at: nat, data: seq<byte>, k: nat): byte {
    if at <= k < at + |data| then data[k - at] else if k < |file| then file[k] else 0
  }

  lemma PutEverywhere(file: seq<byte>, at: nat, data: seq<byte>)
    requires data != []
    ensures var r := Put(file, at, data);
            && |r| == (if at + |data| > |file| then at + |data| else |file|)
            && forall k | 0 <= k < |r| :: r[k] == PutAt(file, at, data, k)
  {
  }

  lemma PutInTwo(file: seq<byte>, at: nat, a: seq<byte>, b: seq<byte>)
    requires a != []
    ensures Put(Put(file, at, a), at + |a|, b) == Put(file, at, a + b)
  {
    if b == [] {
      assert a + b == a;
    } else {
      PutEverywhere(file, at, a);
      PutEverywhere(Put(file, at, a), at + |a|, b);
      PutEverywhere(file, at, a + b);
      hide Put;
      assert Put(Put(file, at, a), at + |a|, b) == Put(file, at, a + b);
    }
  }

  lemma PutOneMore(file: seq<byte>, at: nat, data: seq<byte>, offset: nat, c: nat)
    requires offset + c <= |data|
    ensures Put(Put(file, at, data[..offset]), at + offset, data[offset..][..c]) == Put(file, at, data[..offset + c])
  {
    assert data[..offset] + data[offset..][..c] == data[..offset + c];
    if offset > 0 {
      PutInTwo(file, at, data[..offset], data[offset..][..c]);
    }
  }

  lemma NothingPut(file: seq<byte>, at: nat, data: seq<byte>)
    ensures Put(file, at, data[..0]) == file
  {
  }

  lemma PutLength(file: seq<byte>, at: nat, data: seq<byte>)
    ensures at == |file| ==> |Put(file, at, data)| == at + |data|
  {
  }

  /** A block written within the file or right behind it ends in it, and at its end if it makes it longer. */
  lemma PutGrows(file: seq<byte>, at: nat, data: seq<byte>)
    requires at <= |file|
    ensures |Put(file, at, data)| == if at + |data| > |file| then at + |data| else |file|
  {
  }

  lemma PutAtEnd(file: seq<byte>, data: seq<byte>)
    ensures Put(file, |file|, data) == file + data
  {
  }

  /** Written where it came from, a block leaves a prefix of the source a prefix, and never shortens
      it; the position asked for must be inside the prefix. */
  lemma PutKeepsPrefix(file: seq<byte>, source: seq<byte>, at: nat, data: seq<byte>)
    requires file <= source && at <= |file| && at + |data| <= |source| && data == source[at..at + |data|]
    ensures file <= Put(file, at, data) <= source
    ensures at + |data| <= |Put(file, at, data)|
  {
    var r := Put(file, at, data);
    if data != [] {
      forall k | 0 <= k < |r|
        ensures k < |source| && r[k] == source[k]
      {
        if at <= k < at + |data| {
          assert r[k] == data[k - at];
        }
      }
    }
  }

  /** A block appended to a prefix of the source leaves one exactly where it is the source's next. */
  lemma PrefixGoesOn(f: seq<byte>, data: seq<byte>, source: seq<byte>)
    requires f <= source && data != []
    ensures f + data <= source <==> IsBlock(source, |f|, data)
  {
    if f + data <= source {
      assert data == (f + data)[|f|..] == source[|f|..|f| + |data|];
    }
    if IsBlock(source, |f|, data) {
      assert f + data == source[..|f|] + source[|f|..|f| + |data|] == source[..|f| + |data|];
    }
  }

  /** What is left of a file that is opened for a task with the given progress: from the start it is emptied. */
  function Kept(progress: nat, file: seq<byte>): seq<byte> {
    if progress == 0 then [] else file
  }

  lemma KeptAndRest(progress: nat, file: seq<byte>, source: seq<byte>)
    requires progress <= |source|
    ensures Kept(progress, file) + source[progress..] == source <==> progress == 0 || file == source[..progress]
  {
    var r := Kept(progress, file) + source[progress..];
    assert source[..progress] + source[progress..] == source;
    if r == source {
      assert Kept(progress, file) == r[..progress];
    }
  }

  /** Open the file, if it is not open.  `opens` and `seeks` say whether the file system obliges. */
  function Opened(t: Task, opens: bool, seeks: bool): (Task, Error) {
    if t.mode != Closed then (t, NoError)
    else if !t.Reads() && !t.overrides && t.present then (t, FileAlreadyExists)
    else if !opens || (t.Reads() && !t.present) then (t, OperateFailed)
    else
      var o := if t.Reads() then t.(mode := Reading, position := 0)
               else if t.progress != 0 then t.(mode := Appending, present := true, position := 0)
               else t.(mode := Writing, present := true, file := [], position := 0);
      if t.progress == 0 then (o, NoError)
      else if !seeks then (o, OperateFailed)
      else (o.(position := t.progress), NoError)
  }

  /** Write a block at `seek`. */
  function Written(t: Task, seek: nat, data: seq<byte>, seeks: bool): (Task, Error) {
    if t.mode == Closed then (t, FileClosed)
    else if seek != t.progress && !seeks then (t, OperateFailed)
    else
      var s := if seek != t.progress then t.(position := seek, progress := seek) else t;
      if data == [] || t.mode == Reading then (s.(mode := Closed), NoError)
      else
        var at := if t.mode == Appending then |t.file| else s.position;
        (s.(file := Put(t.file, at, data), position := at + |data|, progress := s.progress + |data|), NoError)
  }

  function Least(a: int, b: int): int {
    if a < b then a else b
  }

  /** How much a read of `len` bytes at `position` gets, if it gets no more than `n` before an error. */
  function Got(file: seq<byte>, position: nat, len: nat, n: nat): (k: nat)
    ensures k <= len && (k > 0 ==> position + k <= |file|)
  {
    if position >= |file| then 0 else Least(Least(len, n), |file| - position)
  }

  /** Read a block of up to `len` bytes at `seek`. */
  function Fetched(t: Task, seek: nat, len: nat, n: nat, seeks: bool): (Task, Error, seq<byte>) {
    if t.mode == Closed then (t, FileClosed, [])
    else if seek != t.progress && !seeks then (t, OperateFailed, [])
    else
      var s := if seek != t.progress then t.(position := seek, progress := seek) else t;
      var k := Got(t.file, s.position, len, n);
      if k > 0 then
        (s.(position := s.position + k, progress := s.progress + k), NoError, t.file[s.position..s.position + k])
      else if len > 0 && s.position >= |t.file| then (s, EndOfFile, [])
      else (s, OperateFailed, [])
  }

  /** `writeLocalFileBlock` */
  function WroteBlock(t: Task, seek: nat, data: seq<byte>, seeks: bool): (Task, Error) {
    if t.state != Transmitting || t.Reads() then (t, OperateFailed)
    else
      var (w, e) := Written(t, seek, data, seeks);
      if e == NoError then (w, e) else (w.(state := Failed, error := e, mode := Closed), e)
  }

  /** `readLocalFileBlock` */
  function ReadBlock(t: Task, seek: nat, len: nat, n: nat, seeks: bool): (Task, Error, seq<byte>) {
    if t.state != Transmitting || !t.Reads() then (t, OperateFailed, [])
    else
      var (r, e, data) := Fetched(t, seek, len, n, seeks);
      if e == NoError then (r, e, data)
      else if t.starter == Partner then (r.(mode := Closed), e, [])
      else if e == EndOfFile then (r.(mode := Closed, state := Finished), e, [])
      else (r.(mode := Closed, state := Failed, error := e), e, [])
  }

  /** `exec`, when it takes a task that waits for its start. */
  function Started(t: Task, opens: bool, seeks: bool): Task {
    if t.state != WaitingForStart then t
    else
      var (o, e) := Opened(t, opens, seeks);
      if e == NoError then o.(state := Preparing) else o.(state := Failed, error := e)
  }

  /** `exec`, when it finds the task unused for too long. */
  function Expired(t: Task): Task {
    if t.state in {Preparing, Transmitting} then t.(state := Stopped) else t
  }

  function TaskStopped(t: Task): Task {
    if t.starter == Self && t.state == Transmitting then t.(state := Stopped) else t
  }

  function Resumed(t: Task): Task {
    if t.starter == Self && t.state == Stopped then t.(state := WaitingForStart) else t
  }

  function OpenSucceeded(t: Task): Task {
    if t.state == Preparing then t.(state := Transmitting) else t
  }

  function OpenFailed(t: Task, e: Error): Task {
    if t.state == Preparing then t.(state := Failed, error := e) else t
  }

  function ReadFailed(t: Task, e: Error): Task {
    if t.starter != Self || t.state != Transmitting then t
    else if e == EndOfFile then t.(state := Finished, mode := Closed)
    else t.(state := Failed, error := e, mode := Closed)
  }

  function WriteFailed(t: Task, e: Error): Task {
    if t.starter != Self || t.state != Transmitting then t
    else t.(state := Failed, error := e, mode := Closed)
  }

  /** What can happen to a task under its mutex. */
  datatype Event =
    | Begin(opens: bool, seeks: bool) | Expire | Stop | Resume
    | OpenDone | OpenFails(error: Error) | ReadFails(error: Error) | WriteFails(error: Error)
    | Write(seek: nat, data: seq<byte>, seeks: bool)
    | Read(seek: nat, len: nat, n: nat, seeks: bool)

  function Handled(t: Task, e: Event): Task {
    match e
    case Begin(opens, seeks) => Started(t, opens, seeks)
    case Expire => Expired(t)
    case Stop => TaskStopped(t)
    case Resume => Resumed(t)
    case OpenDone => OpenSucceeded(t)
    case OpenFails(error) => OpenFailed(t, error)
    case ReadFails(error) => ReadFailed(t, error)
    case WriteFails(error) => WriteFailed(t, error)
    case Write(seek, data, seeks) => WroteBlock(t, seek, data, seeks).0
    case Read(seek, len, n, seeks) => ReadBlock(t, seek, len, n, seeks).0
  }

  function HandledAll(t: Task, events: seq<Event>): Task
    decreases |events|
  {
    if events == [] then t else HandledAll(Handled(t, events[0]), events[1..])
  }

  /** Nothing that happens to a task leaves the arrows, moves a task that is over, or loses the place in
      the file; and only opening and writing touch the file. */
  lemma HandledSoundly(t: Task, e: Event)
    requires Sound(t)
    ensures Sound(Handled(t, e)) && Leads(t.state, Handled(t, e).state)
    ensures t.Over() ==> Handled(t, e) == t
    ensures !e.Begin? && !e.Write? ==> Handled(t, e).file == t.file && Handled(t, e).present == t.present
    ensures t.Reads() ==> Handled(t, e).file == t.file
  {
    hide Put;
  }

  /** What an end of a transfer under way is to leave. */
  predicate EndsWith(t': Task, e: Error) {
    && t'.Over() && t'.mode == Closed
    && (t'.state == Finished <==> e == EndOfFile) && (t'.state == Failed ==> t'.error == e)
  }

  /** What each event is for.  A failing reply ends one's own transmitting task, FINISHED exactly at the end of
      the file; an expired task is not in use any more; a stopped one can be resumed. */
  lemma HandledDoes(t: Task, e: Event)
    ensures var t', own := Handled(t, e), t.starter == Self;
            match e
            case Begin(_, _) =>
              if t.state != WaitingForStart then t' == t
              else if t'.state == Preparing then t'.mode != Closed else t'.state == Failed && t'.error != NoError
            case Expire => t'.state == if t.state in {Preparing, Transmitting} then Stopped else t.state
            case Stop => t'.state == if own && t.state == Transmitting then Stopped else t.state
            case Resume => t'.state == if own && t.state == Stopped then WaitingForStart else t.state
            case OpenDone => t'.state == if t.state == Preparing then Transmitting else t.state
            case OpenFails(error) => if t.state == Preparing then t'.state == Failed && t'.error == error else t' == t
            case ReadFails(error) => if own && t.state == Transmitting then EndsWith(t', error) else t' == t
            case WriteFails(error) =>
              if own && t.state == Transmitting then t'.state == Failed && t'.error == error && t'.mode == Closed
              else t' == t
            case Write(seek, data, seeks) =>
              if t.state != Transmitting || t.Reads() then t' == t
              else t'.state == Transmitting || (t'.state == Failed && t'.error != NoError && t'.mode == Closed)
            case Read(seek, len, n, seeks) =>
              if t.state != Transmitting || !t.Reads() then t' == t
              else if t'.mode != Closed then t'.state == Transmitting
              else if own then t'.Over() && (t'.state == Failed ==> t'.error != NoError) else t'.state == Transmitting
  {
    hide Put;
  }

  predicate SameTask(t: Task, t': Task) {
    && t'.starter == t.starter && t'.direction == t.direction && t'.overrides == t.overrides
    && (t.present ==> t'.present)
  }

  lemma StartedKeeps(t: Task, opens: bool, seeks: bool)
    ensures SameTask(t, Started(t, opens, seeks))
  {
  }

  lemma WroteBlockKeeps(t: Task, seek: nat, data: seq<byte>, seeks: bool)
    ensures SameTask(t, WroteBlock(t, seek, data, seeks).0)
  {
    hide Put;
  }

  lemma ReadBlockKeeps(t: Task, seek: nat, len: nat, n: nat, seeks: bool)
    ensures SameTask(t, ReadBlock(t, seek, len, n, seeks).0)
  {
    hide Got;
  }

  /** And a task keeps its name and its direction, and a file that is there stays there. */
  lemma HandledKeeps(t: Task, e: Event)
    ensures SameTask(t, Handled(t, e))
  {
    hide Started, WroteBlock, ReadBlock;
    match e {
      case Begin(opens, seeks) => StartedKeeps(t, opens, seeks);
      case Write(seek, data, seeks) => WroteBlockKeeps(t, seek, data, seeks);
      case Read(seek, len, n, seeks) => ReadBlockKeeps(t, seek, len, n, seeks);
      case _ =>
    }
  }

  lemma {:induction false} HandledAllMore(t: Task, events: seq<Event>, e: Event)
    ensures HandledAll(t, events + [e]) == Handled(HandledAll(t, events), e)
    decreases |events|
  {
    if events == [] {
      assert HandledAll(t, [e]) == HandledAll(Handled(t, e), []);
      assert [] + [e] == [e];
    } else {
      assert (events + [e])[1..] == events[1..] + [e];
      HandledAllMore(Handled(t, events[0]), events[1..], e);
    }
  }

  class TransferTask {
    const starter: Starter
    const direction: Direction
    const overrides: bool
    var state: State
    var error: Error
    var progress: nat
    var mode: Mode
    var position: nat
    var present: bool
    var file: seq<byte>

    ghost function Value(): Task
      reads this
    {
      Task(starter, direction, overrides, state, error, progress, mode, position, present, file)
    }

    ghost predicate Valid()
      reads this
    {
      Sound(Value())
    }

    constructor (starter: Starter, direction: Direction, overrides: bool, state: State, progress: nat,
                 present: bool, file: seq<byte>)
      ensures Valid()
      ensures Value() == Task(starter, direction, overrides, state, NoError, progress, Closed, 0, present, file)
    {
      this.starter, this.direction, this.overrides := starter, direction, overrides;
      this.state, this.error, this.progress := state, NoError, progress;
      this.mode, this.position, this.present, this.file := Closed, 0, present, file;
    }

    method Seek(seek: nat, seeks: bool) returns (e: Error)
      modifies `position
      ensures e == (if seeks then NoError else OperateFailed)
      ensures position == (if seeks then seek else old(position))
    {
      if !seeks {
        return OperateFailed;
      }
      position := seek;
      return NoError;
    }

    /** An open file stays as it is; a file there already is refused, untouched, without leave to
        override it; the file is only emptied when it is written from the start. */
    method InitIO(opens: bool, seeks: bool) returns (e: Error)
      requires Valid()
      modifies this
      ensures (Value(), e) == Opened(old(Value()), opens, seeks)
      ensures e == NoError ==> Valid() && mode != Closed && (mode == Reading <==> Value().Reads())
      ensures old(mode) != Closed ==> e == NoError && unchanged(this)
      ensures old(mode) == Closed ==>
                (e == NoError <==> && (Value().Reads() || overrides || !old(present)) && opens
                                   && (Value().Reads() ==> old(present)) && (progress == 0 || seeks))
      ensures e == FileAlreadyExists <==> old(mode) == Closed && !Value().Reads() && !overrides && old(present)
      ensures e == FileAlreadyExists ==> unchanged(this)
      ensures file == old(file) || (file == [] && mode == Writing && progress == 0 && old(mode) == Closed)
    {
      if mode != Closed {
        return NoError;
      }
      var newMode;
      if (starter == Self && direction == WriteFile) || (starter == Partner && direction == ReadFile) {
        newMode := Reading;
      } else {
        newMode := if progress != 0 then Appending else Writing;
        if !overrides && present {
          return FileAlreadyExists;
        }
      }
      if !opens || (newMode == Reading && !present) {
        return OperateFailed;
      }
      mode, position := newMode, 0;
      if newMode == Writing {
        file := [];
      }
      present := true;
      if progress != 0 {
        e := Seek(progress, seeks);
        if e != NoError {
          return;
        }
      }
      return NoError;
    }

    /** One call of `fwrite`, which takes the first `c` of the bytes it is given. */
    method PutSome(data: seq<byte>, c: nat)
      requires 0 < c <= |data| && mode in {Writing, Appending}
      modifies `file, `position
      ensures var at := if mode == Appending then |old(file)| else old(position);
              file == Put(old(file), at, data[..c]) && position == at + c
    {
      var at := if mode == Appending then |file| else position;
      file := Put(file, at, data[..c]);
      position := at + c;
    }

    /** `chunks` says how much each call of `fwrite` takes. */
    method PutAll(data: seq<byte>, chunks: nat -> nat)
      requires data != [] && mode in {Writing, Appending}
      modifies `file, `position
      ensures var at := if mode == Appending then |old(file)| else old(position);
              file == Put(old(file), at, data) && position == at + |data|
    {
      hide Put;
      ghost var at, was := if mode == Appending then |file| else position, file;
      var offset := 0;
      NothingPut(was, at, data);
      while true
        invariant offset < |data|
        invariant file == Put(was, at, data[..offset])
        invariant (if mode == Appending then |file| else position) == at + offset
        decreases |data| - offset
      {
        var rest := data[offset..];
        var c := 1 + chunks(offset) % |rest|;
        ghost var sofar := file;
        PutSome(rest, c);
        PutOneMore(was, at, data, offset, c);
        PutLength(sofar, at + offset, rest[..c]);
        offset := offset + c;
        if offset == |data| {
          break;
        }
      }
      assert data[..offset] == data;
    }

    /** The block ends up at `seek`, or at the end of a file that is appended to, however the file
        system cuts it up, and the progress behind it. */
    method Write(seek: nat, data: seq<byte>, seeks: bool, chunks: nat -> nat) returns (e: Error)
      requires Valid() && !Over()
      modifies this
      ensures (Value(), e) == Written(old(Value()), seek, data, seeks)
      ensures Valid()
      ensures e == if old(mode) == Closed then FileClosed
                   else if seek == old(progress) || seeks then NoError else OperateFailed
      ensures e == NoError && data != [] && mode != Closed ==>
                && progress == seek + |data|
                && file == Put(old(file), if mode == Appending then |old(file)| else seek, data)
    {
      if mode == Closed {
        return FileClosed;
      }
      if seek != progress {
        e := Seek(seek, seeks);
        if e != NoError {
          return;
        }
        progress := seek;
      }
      if data == [] || mode == Reading {
        mode := Closed;
        return NoError;
      }
      PutAll(data, chunks);
      progress := progress + |data|;
      return NoError;
    }

    predicate Over()
      reads `state
    {
      state in {Finished, Failed}
    }

    /** What is read is the file's bytes at `seek`; the end of the file is reported exactly there. */
    method Read(seek: nat, len: nat, n: nat, seeks: bool) returns (e: Error, data: seq<byte>)
      requires Valid() && !Over() && Value().Reads()
      modifies `position, `progress
      ensures (Value(), e, data) == Fetched(old(Value()), seek, len, n, seeks)
      ensures Valid()
      ensures e == NoError ==> |data| <= len && IsBlock(file, seek, data) && progress == seek + |data|
      ensures e == EndOfFile ==> seek >= |file|
      ensures e == FileClosed <==> mode == Closed
      ensures mode != Closed && seek != old(progress) && !seeks ==> e == OperateFailed
      ensures mode != Closed && (seeks || seek == old(progress)) && len > 0 && n > 0 && seek < |file| ==> e == NoError
      ensures mode != Closed && (seeks || seek == old(progress)) && len > 0 && seek >= |file| ==> e == EndOfFile
    {
      data := [];
      if mode == Closed {
        e := FileClosed;
        return;
      }
      if seek != progress {
        e := Seek(seek, seeks);
        if e != NoError {
          return;
        }
        progress := seek;
      }
      var k := Got(file, position, len, n);
      if k == 0 {
        e := if len > 0 && position >= |file| then EndOfFile else OperateFailed;
        return;
      }
      data := file[position..position + k];
      position := position + k;
      progress := progress + k;
      e := NoError;
    }

    /** A task that is not transmitting, or does not write, is left alone.  Of every source the file is a
        prefix of, a block of it inside that prefix leaves the file a prefix, no shorter. */
    method WriteLocalFileBlock(seek: nat, data: seq<byte>, seeks: bool, chunks: nat -> nat) returns (e: Error)
      requires Valid()
      modifies this
      ensures (Value(), e) == WroteBlock(old(Value()), seek, data, seeks)
      ensures Valid()
      ensures old(state) != Transmitting || Value().Reads() ==> e == OperateFailed && unchanged(this)
      ensures e != NoError ==> file == old(file)
      ensures e != NoError && old(state) == Transmitting && !Value().Reads() ==>
                state == Failed && error == e && mode == Closed
      ensures forall source: seq<byte> | old(file) <= source && IsBlock(source, seek, data) ::
                seek <= |old(file)| && old(mode) == Writing ==> old(file) <= file <= source
    {
      if state != Transmitting {
        return OperateFailed;
      }
      if !((starter == Self && direction == ReadFile) || (starter == Partner && direction == WriteFile)) {
        return OperateFailed;
      }
      e := Write(seek, data, seeks, chunks);
      forall source: seq<byte> | old(file) <= source && IsBlock(source, seek, data)
        ensures seek <= |old(file)| && old(mode) == Writing ==> old(file) <= file <= source
      {
        if seek <= |old(file)| {
          PutKeepsPrefix(old(file), source, seek, data);
        }
      }
      if e != NoError {
        state, error, mode := Failed, e, Closed;
      }
    }

    /** A task that is not transmitting, or does not read, is left alone.  One's own task finishes
        exactly when it reads at the end of the file; a partner's goes on, with its file closed. */
    method ReadLocalFileBlock(seek: nat, len: nat, n: nat, seeks: bool) returns (e: Error, data: seq<byte>)
      requires Valid()
      modifies this
      ensures (Value(), e, data) == ReadBlock(old(Value()), seek, len, n, seeks)
      ensures Valid() && file == old(file)
      ensures old(state) != Transmitting || !Value().Reads() ==> e == OperateFailed && unchanged(this)
      ensures e == NoError ==> state == Transmitting && IsBlock(file, seek, data) && progress == seek + |data|
      ensures state == Finished && old(state) == Transmitting <==> e == EndOfFile && starter == Self
      ensures e == EndOfFile ==> seek >= |file|
      ensures e != NoError && old(state) == Transmitting && Value().Reads() ==> mode == Closed
      ensures starter == Partner ==> state == old(state)
    {
      if state != Transmitting {
        return OperateFailed, [];
      }
      if !((starter == Self && direction == WriteFile) || (starter == Partner && direction == ReadFile)) {
        return OperateFailed, [];
      }
      e, data := Read(seek, len, n, seeks);
      if e != NoError {
        if starter == Self {
          if e == EndOfFile {
            state := Finished;
          } else {
            state, error := Failed, e;
          }
        }
        mode := Closed;
      }
    }

    /** The sections under the task's mutex in `exec`, `stopTask`, `resumeTask` and the four handlers of
        open replies and failed blocks, and the two above. */
    method Handle(e: Event, chunks: nat -> nat)
      requires Valid()
      modifies this
      ensures Value() == Handled(old(Value()), e)
      ensures Valid() && Leads(old(state), state) && (old(Over()) ==> unchanged(this))
      ensures e.ReadFails? && starter == Self && old(state) == Transmitting ==> EndsWith(Value(), e.error)
      ensures e.WriteFails? && starter == Self && old(state) == Transmitting ==>
                state == Failed && error == e.error && mode == Closed
      ensures e.Expire? ==> state !in {Preparing, Transmitting}
      ensures !e.Begin? && !e.Write? ==> file == old(file) && present == old(present)
    {
      HandledSoundly(Value(), e);
      HandledDoes(Value(), e);
      hide Sound, Put;
      match e {
        case Begin(opens, seeks) =>
          if state == WaitingForStart {
            var err := InitIO(opens, seeks);
            if err != NoError {
              state, error := Failed, err;
            } else {
              state := Preparing;
            }
          }
        case Expire =>
          if state == Preparing || state == Transmitting {
            state := Stopped;
          }
        case Stop =>
          if starter == Self && state == Transmitting {
            state := Stopped;
          }
        case Resume =>
          if starter == Self && state == Stopped {
            state := WaitingForStart;
          }
        case OpenDone =>
          if state == Preparing {
            state := Transmitting;
          }
        case OpenFails(err) =>
          if state == Preparing {
            state, error := Failed, err;
          }
        case ReadFails(err) =>
          if starter == Self && state == Transmitting {
            if err == EndOfFile {
              state := Finished;
            } else {
              state, error := Failed, err;
            }
            mode := Closed;
          }
        case WriteFails(err) =>
          if starter == Self && state == Transmitting {
            state, error, mode := Failed, err, Closed;
          }
        case Write(seek, data, seeks) =>
          var err := WriteLocalFileBlock(seek, data, seeks, chunks);
        case Read(seek, len, n, seeks) =>
          var err, data := ReadLocalFileBlock(seek, len, n, seeks);
      }
    }

    /** Over any run of events. */
    method HandleAll(events: seq<Event>, chunks: nat -> nat)
      requires Valid()
      modifies this
      ensures Value() == HandledAll(old(Value()), events)
      ensures Valid() && (old(Over()) ==> unchanged(this))
    {
      var i := 0;
      assert events[..0] == [];
      while i < |events|
        invariant i <= |events| && Valid()
        invariant Value() == HandledAll(old(Value()), events[..i])
        invariant old(Over()) ==> unchanged(this)
      {
        assert events[..i + 1] == events[..i] + [events[i]];
        HandledAllMore(old(Value()), events[..i], events[i]);
        Handle(events[i], chunks);
        i := i + 1;
      }
      assert events[..i] == events;
    }
  }
}
