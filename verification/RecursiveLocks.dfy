/** The recursive spinning read/write lock, for any number of threads and every interleaving of their
    reads and writes of its three shared fields, each of which is one step. */
module RecursiveLocks {
  import opened Sums

  datatype Operation = ReadLock | TryReadLock | ReadUnlock | WriteLock | TryWriteLock | WriteUnlock

  /** Where a thread is: what it does to the shared fields next. */
  datatype Point =
    | Idle
    | ReadEnter | ReadSpin | ReadAdd | ReadCheck | ReadBack | ReadOwn
    | TryReadEnter | TryReadAdd | TryReadCheck | TryReadBack | TryReadOwn
    | ReadRelease
    | WriteEnter | WriteClaim | WriteWait | WriteOwn | WriteAgain
    | TryWriteEnter | TryWriteClaim | TryWriteCheck | TryWriteBack | TryWriteOwn | TryWriteAgain
    | UnlockDrop | UnlockClear | UnlockLeave

  /** `reading` and `writing` count the sections the thread is in; `unlocking` tells the `readLock` inside
      `writeUnlock` from a client's; `result` is what the last `try` returned. */
  datatype Thread = Thread(point: Point, reading: nat, writing: nat, unlocking: bool, result: bool) {
    /** What of `m_read` and of `m_write` is this thread's. */
    function Read(): nat {
      var inside := {ReadCheck, ReadBack, TryReadCheck, TryReadBack, UnlockDrop, UnlockClear, UnlockLeave};
      reading + (if point in inside then 1 else 0)
    }

    function Write(): nat {
      writing + (if point in {WriteWait, WriteOwn, TryWriteCheck, TryWriteBack, TryWriteOwn} then 1 else 0)
    }

    /** The thread has the lock, or is between giving it up and erasing its name. */
    predicate Owner() {
      writing > 0 || point == UnlockClear
    }

    /** The thread has seen that nobody reads, and still has its claim to write. */
    predicate Passed() {
      writing > 0 || point in {WriteOwn, TryWriteOwn}
    }

    /** The thread is in no read section, not even the one inside `writeUnlock`. */
    predicate Quiet() {
      reading == 0 && point !in {UnlockDrop, UnlockClear, UnlockLeave}
    }

    predicate Sensible() {
      && (point in {ReadOwn, TryReadOwn, WriteAgain, TryWriteAgain, UnlockDrop} ==> writing > 0)
      && (point in {ReadSpin, ReadAdd, ReadCheck, ReadBack, TryReadAdd, TryReadCheck, TryReadBack} ==> writing == 0)
      && (point in {WriteClaim, WriteWait, WriteOwn} ==> writing == 0)
      && (point in {TryWriteClaim, TryWriteCheck, TryWriteBack, TryWriteOwn} ==> writing == 0)
      && (point == UnlockClear ==> writing == 0)
      && (point == ReadRelease ==> reading > 0)
      && (point in {UnlockDrop, UnlockClear, UnlockLeave} ==> unlocking)
      && (unlocking ==> point in {UnlockDrop, UnlockClear, UnlockLeave, ReadEnter, ReadOwn})
      && (unlocking && point == ReadEnter ==> writing > 0)
    }
  }

  datatype Lock = Lock(read: int, write: int, lockedBy: nat, threads: seq<Thread>)

  /** The shared fields and one thread. */
  datatype View = View(read: int, write: int, lockedBy: nat, me: Thread)

  const FRESH := Thread(Idle, 0, 0, false, false)

  function Initial(n: nat): Lock {
    Lock(0, 0, 0, seq(n, _ => FRESH))
  }

  /** A client begins an operation.  It only unlocks what it has locked. */
  function Begun(t: Thread, op: Operation): Thread {
    match op
    case ReadLock => t.(point := ReadEnter)
    case TryReadLock => t.(point := TryReadEnter)
    case ReadUnlock => if t.reading > 0 then t.(point := ReadRelease) else t
    case WriteLock => t.(point := WriteEnter)
    case TryWriteLock => t.(point := TryWriteEnter)
    case WriteUnlock => if t.writing > 0 then t.(point := ReadEnter, unlocking := true) else t
  }

  /** A read section is entered: the client's, or the one `writeUnlock` goes through. */
  function InRead(t: Thread): Thread {
    if t.unlocking then t.(point := UnlockDrop) else t.(point := Idle, reading := t.reading + 1)
  }

  /** One step of the thread with number `id`. */
  function Acted(v: View, id: nat, op: Operation): View {
    var t := v.me;
    match t.point
    case Idle => v.(me := Begun(t, op))

    case ReadEnter => v.(me := t.(point := if id != v.lockedBy then ReadSpin else ReadOwn))
    case ReadSpin => v.(me := if v.write != 0 then t else t.(point := ReadAdd))
    case ReadAdd => v.(read := v.read + 1, me := t.(point := ReadCheck))
    case ReadCheck => v.(me := if v.write != 0 then t.(point := ReadBack) else InRead(t))
    case ReadBack => v.(read := v.read - 1, me := t.(point := ReadSpin))
    case ReadOwn => v.(read := v.read + 1, me := InRead(t))

    case TryReadEnter => v.(me := t.(point := if id != v.lockedBy then TryReadAdd else TryReadOwn))
    case TryReadAdd => v.(read := v.read + 1, me := t.(point := TryReadCheck))
    case TryReadCheck => v.(me := if v.write != 0 then t.(point := TryReadBack)
                                  else t.(point := Idle, reading := t.reading + 1, result := true))
    case TryReadBack => v.(read := v.read - 1, me := t.(point := Idle, result := false))
    case TryReadOwn => v.(read := v.read + 1, me := t.(point := Idle, reading := t.reading + 1, result := true))

    case ReadRelease =>
      v.(read := v.read - 1, me := t.(point := Idle, reading := if t.reading > 0 then t.reading - 1 else 0))

    case WriteEnter => v.(me := t.(point := if id != v.lockedBy then WriteClaim else WriteAgain))
    case WriteClaim => if v.write == 0 then v.(write := 1, me := t.(point := WriteWait)) else v
    case WriteWait => v.(me := if v.read != 0 then t else t.(point := WriteOwn))
    case WriteOwn => v.(lockedBy := id, me := t.(point := Idle, writing := t.writing + 1))
    case WriteAgain => v.(write := v.write + 1, me := t.(point := Idle, writing := t.writing + 1))

    case TryWriteEnter => v.(me := t.(point := if id != v.lockedBy then TryWriteClaim else TryWriteAgain))
    case TryWriteClaim => if v.write == 0 then v.(write := 1, me := t.(point := TryWriteCheck))
                          else v.(me := t.(point := Idle, result := false))
    case TryWriteCheck => v.(me := t.(point := if v.read != 0 then TryWriteBack else TryWriteOwn))
    case TryWriteBack => v.(write := 0, me := t.(point := Idle, result := false))
    case TryWriteOwn => v.(lockedBy := id, me := t.(point := Idle, writing := t.writing + 1, result := true))
    case TryWriteAgain => v.(write := v.write + 1, me := t.(point := Idle, writing := t.writing + 1, result := true))

    case UnlockDrop =>
      v.(write := v.write - 1,
         me := t.(point := if v.write - 1 == 0 then UnlockClear else UnlockLeave,
                  writing := if t.writing > 0 then t.writing - 1 else 0))
    case UnlockClear => v.(lockedBy := 0, me := t.(point := UnlockLeave))
    case UnlockLeave => v.(read := v.read - 1, me := t.(point := Idle, unlocking := false))
  }

  function ViewOf(s: Lock, i: nat): View
    requires i < |s.threads|
  {
    View(s.read, s.write, s.lockedBy, s.threads[i])
  }

  function Step(s: Lock, i: nat, op: Operation): (s': Lock)
    requires i < |s.threads|
    ensures |s'.threads| == |s.threads|
  {
    var v := Acted(ViewOf(s, i), i + 1, op);
    Lock(v.read, v.write, v.lockedBy, s.threads[i := v.me])
  }

  function Reads(ts: seq<Thread>): (ns: seq<nat>)
    ensures |ns| == |ts|
  {
    seq(|ts|, k requires 0 <= k < |ts| => ts[k].Read())
  }

  function Writes(ts: seq<Thread>): (ns: seq<nat>)
    ensures |ns| == |ts|
  {
    seq(|ts|, k requires 0 <= k < |ts| => ts[k].Write())
  }

  /** The counters are the sums of the threads' shares. */
  ghost predicate Counted(s: Lock) {
    s.read == Sum(Reads(s.threads)) && s.write == Sum(Writes(s.threads))
  }

  /** At most one thread has a share of `m_write`. */
  ghost predicate OneWriter(s: Lock) {
    forall i, j | 0 <= i < |s.threads| && 0 <= j < |s.threads| && i != j ::
      s.threads[i].Write() == 0 || s.threads[j].Write() == 0
  }

  /** `m_lockedBy` names the owner, and nobody when there is none. */
  ghost predicate Named(s: Lock) {
    && (forall i | 0 <= i < |s.threads| :: s.threads[i].Owner() <==> s.lockedBy == i + 1)
    && s.lockedBy <= |s.threads|
  }

  /** While a thread has passed, all others are quiet. */
  ghost predicate Exclusive(s: Lock) {
    forall i, j | 0 <= i < |s.threads| && 0 <= j < |s.threads| && i != j ::
      s.threads[i].Passed() ==> s.threads[j].Quiet()
  }

  ghost predicate Inv(s: Lock) {
    && Counted(s) && OneWriter(s) && Named(s) && Exclusive(s)
    && forall i | 0 <= i < |s.threads| :: s.threads[i].Sensible()
  }

  lemma InitialInv(n: nat)
    ensures Inv(Initial(n))
  {
    SumOfZeros(Reads(Initial(n).threads));
    SumOfZeros(Writes(Initial(n).threads));
  }

  lemma ActedShares(v: View, id: nat, op: Operation)
    requires v.me.Sensible() && (v.me.point == TryWriteBack ==> v.write == 1)
    ensures var w := Acted(v, id, op);
            && w.read - v.read == w.me.Read() - v.me.Read()
            && w.write - v.write == w.me.Write() - v.me.Write()
  {
  }

  lemma SharesBound(s: Lock, i: nat)
    requires Counted(s) && i < |s.threads|
    ensures s.threads[i].Read() <= s.read && s.threads[i].Write() <= s.write
  {
    PartOfSum(Reads(s.threads), i);
    PartOfSum(Writes(s.threads), i);
  }

  /** The writer's share is all of `m_write`. */
  lemma WriterHasAll(s: Lock, i: nat)
    requires Counted(s) && OneWriter(s) && i < |s.threads| && s.threads[i].Write() > 0
    ensures s.write == s.threads[i].Write()
  {
    var ns := Writes(s.threads);
    var others := ns[i := 0];
    SumOfZeros(others);
    SumUpdate(ns, i, 0);
  }

  lemma StepCounted(s: Lock, i: nat, op: Operation)
    requires Inv(s) && i < |s.threads|
    ensures Counted(Step(s, i, op))
  {
    hide Acted;
    if s.threads[i].point == TryWriteBack {
      WriterHasAll(s, i);
    }
    ActedShares(ViewOf(s, i), i + 1, op);
    var t := Step(s, i, op).threads[i];
    SumUpdate(Reads(s.threads), i, t.Read());
    SumUpdate(Writes(s.threads), i, t.Write());
    assert Reads(Step(s, i, op).threads) == Reads(s.threads)[i := t.Read()];
    assert Writes(Step(s, i, op).threads) == Writes(s.threads)[i := t.Write()];
  }

  lemma StepOneWriter(s: Lock, i: nat, op: Operation)
    requires Inv(s) && i < |s.threads|
    ensures OneWriter(Step(s, i, op))
  {
    var s' := Step(s, i, op);
    forall j | 0 <= j < |s.threads| && j != i
      ensures s'.threads[i].Write() == 0 || s'.threads[j].Write() == 0
    {
      SharesBound(s, j);
    }
  }

  lemma ActedSensible(v: View, id: nat, op: Operation)
    requires v.me.Sensible() && (v.me.Owner() <==> v.lockedBy == id)
    requires v.me.point == UnlockDrop ==> v.write == v.me.writing
    ensures Acted(v, id, op).me.Sensible()
  {
  }

  lemma StepSensible(s: Lock, i: nat, op: Operation)
    requires Inv(s) && i < |s.threads|
    ensures Step(s, i, op).threads[i].Sensible()
  {
    assert s.threads[i].Owner() <==> s.lockedBy == i + 1;
    if s.threads[i].point == UnlockDrop {
      WriterHasAll(s, i);
    }
    ActedSensible(ViewOf(s, i), i + 1, op);
  }

  lemma ActedName(v: View, id: nat, op: Operation)
    requires id > 0 && v.me.Sensible() && (v.me.Owner() <==> v.lockedBy == id)
    requires v.me.point == UnlockDrop ==> v.write == v.me.writing
    ensures var w := Acted(v, id, op);
            && (w.me.Owner() <==> w.lockedBy == id)
            && (w.lockedBy == v.lockedBy
                || (w.lockedBy == id && v.me.Passed() && v.me.Write() > 0)
                || (w.lockedBy == 0 && v.lockedBy == id))
  {
  }

  lemma StepNamed(s: Lock, i: nat, op: Operation)
    requires Inv(s) && i < |s.threads|
    ensures Named(Step(s, i, op))
  {
    assert s.threads[i].Owner() <==> s.lockedBy == i + 1;
    if s.threads[i].point == UnlockDrop {
      WriterHasAll(s, i);
    }
    ActedName(ViewOf(s, i), i + 1, op);
    hide Acted;
    var s' := Step(s, i, op);
    forall j | 0 <= j < |s.threads| && j != i
      ensures s'.threads[j].Owner() <==> s'.lockedBy == j + 1
    {
      assert s.threads[j].Owner() <==> s.lockedBy == j + 1;
      assert s.threads[i].Passed() ==> s.threads[j].Quiet();
      assert s.threads[i].Write() == 0 || s.threads[j].Write() == 0;
    }
  }

  lemma StepExclusive(s: Lock, i: nat, op: Operation)
    requires Inv(s) && i < |s.threads|
    ensures Exclusive(Step(s, i, op))
  {
    var s' := Step(s, i, op);
    forall j | 0 <= j < |s.threads| && j != i
      ensures s'.threads[i].Passed() ==> s'.threads[j].Quiet()
      ensures s'.threads[j].Passed() ==> s'.threads[i].Quiet()
    {
      SharesBound(s, j);
      assert s.threads[i].Passed() ==> s.threads[j].Quiet();
      assert s.threads[j].Passed() ==> s.threads[i].Quiet();
    }
  }

  lemma StepInv(s: Lock, i: nat, op: Operation)
    requires Inv(s) && i < |s.threads|
    ensures Inv(Step(s, i, op))
  {
    StepCounted(s, i, op);
    StepOneWriter(s, i, op);
    StepNamed(s, i, op);
    StepSensible(s, i, op);
    StepExclusive(s, i, op);
  }

  /** Which thread runs next, and what its client begins if it is idle. */
  datatype Turn = Turn(thread: nat, op: Operation)

  /** A turn of a thread there is not is no step. */
  function Turned(s: Lock, turn: Turn): (s': Lock)
    ensures |s'.threads| == |s.threads|
  {
    if turn.thread < |s.threads| then Step(s, turn.thread, turn.op) else s
  }

  /** A run: any interleaving of the threads. */
  function Run(s: Lock, turns: seq<Turn>): (s': Lock)
    ensures |s'.threads| == |s.threads|
    decreases |turns|
  {
    if turns == [] then s else Run(Turned(s, turns[0]), turns[1..])
  }

  lemma {:induction false} RunFromInv(s: Lock, turns: seq<Turn>)
    requires Inv(s)
    ensures Inv(Run(s, turns))
    decreases |turns|
  {
    if turns != [] {
      if turns[0].thread < |s.threads| {
        StepInv(s, turns[0].thread, turns[0].op);
      }
      RunFromInv(Turned(s, turns[0]), turns[1..]);
    }
  }

  lemma RunInv(n: nat, turns: seq<Turn>)
    ensures Inv(Run(Initial(n), turns))
  {
    InitialInv(n);
    RunFromInv(Initial(n), turns);
  }

  /** Mutual exclusion, over every run of any number of threads: while one thread is in a write
      section no other is in a write section or in a read section. */
  lemma Exclusion(n: nat, turns: seq<Turn>, i: nat, j: nat)
    requires var s := Run(Initial(n), turns);
             i < |s.threads| && j < |s.threads| && i != j && s.threads[i].writing > 0
    ensures var s := Run(Initial(n), turns);
            s.threads[j].writing == 0 && s.threads[j].reading == 0
  {
    RunInv(n, turns);
    var s := Run(Initial(n), turns);
    assert s.threads[i].Write() == 0 || s.threads[j].Write() == 0;
    assert s.threads[i].Passed() ==> s.threads[j].Quiet();
  }

  /** The name is the owner's: it is there exactly while the owner is in a write section, or has
      left the last and is about to erase it; and the thread that erases it erases its own, with no
      other past its claim.  This is what the read section inside `writeUnlock` is for. */
  lemma NameIsOwners(n: nat, turns: seq<Turn>, i: nat)
    requires i < |Run(Initial(n), turns).threads|
    ensures var s := Run(Initial(n), turns);
            && (s.lockedBy == i + 1 <==> s.threads[i].writing > 0 || s.threads[i].point == UnlockClear)
            && (s.threads[i].point == UnlockClear ==>
                  && s.lockedBy == i + 1
                  && forall j | 0 <= j < |s.threads| && j != i :: !s.threads[j].Passed())
  {
    RunInv(n, turns);
    var s := Run(Initial(n), turns);
    assert s.threads[i].Owner() <==> s.lockedBy == i + 1;
    forall j | 0 <= j < |s.threads| && j != i
      ensures s.threads[i].point == UnlockClear ==> !s.threads[j].Passed()
    {
      assert s.threads[j].Passed() ==> s.threads[i].Quiet();
    }
  }

  /** The assertion in `writeUnlock` holds, and the `readLock` inside it never spins. */
  lemma UnlockingNeverWaits(n: nat, turns: seq<Turn>, i: nat)
    requires var s := Run(Initial(n), turns);
             i < |s.threads| && s.threads[i].unlocking && s.threads[i].point in {ReadEnter, ReadOwn}
    ensures var s := Run(Initial(n), turns);
            s.lockedBy == i + 1 && Step(s, i, ReadLock).threads[i].point in {ReadOwn, UnlockDrop}
  {
    RunInv(n, turns);
    var s := Run(Initial(n), turns);
    assert s.threads[i].Owner() <==> s.lockedBy == i + 1;
  }

  /** The thread, which was `t0` when it began the operation, is on its way through it. */
  predicate OnItsWay(op: Operation, t0: Thread, t: Thread) {
    match op
    case ReadLock =>
      t == t0.(point := t.point) && t.point in {ReadEnter, ReadSpin, ReadAdd, ReadCheck, ReadBack, ReadOwn}
    case TryReadLock =>
      t == t0.(point := t.point) && t.point in {TryReadEnter, TryReadAdd, TryReadCheck, TryReadBack, TryReadOwn}
    case ReadUnlock => t == t0.(point := ReadRelease)
    case WriteLock =>
      t == t0.(point := t.point) && t.point in {WriteEnter, WriteClaim, WriteWait, WriteOwn, WriteAgain}
    case TryWriteLock =>
      && t == t0.(point := t.point)
      && t.point in {TryWriteEnter, TryWriteClaim, TryWriteCheck, TryWriteBack, TryWriteOwn, TryWriteAgain}
    case WriteUnlock =>
      if t.point in {UnlockClear, UnlockLeave}
      then t0.writing > 0 && t == t0.(point := t.point, unlocking := true, writing := t0.writing - 1)
      else && t == t0.(point := t.point, unlocking := true)
           && t.point in {ReadEnter, ReadSpin, ReadAdd, ReadCheck, ReadBack, ReadOwn, UnlockDrop}
  }

  /** What the operation has done for the thread when it returns: a lock is held once more, also by a `try` that
      says so, and only then; an unlock gives up one that was held. */
  predicate HasReturned(op: Operation, t0: Thread, t: Thread) {
    match op
    case ReadLock => t == t0.(reading := t0.reading + 1)
    case TryReadLock => t == t0.(reading := t0.reading + 1, result := true) || t == t0.(result := false)
    case ReadUnlock => t == t0.(reading := if t0.reading > 0 then t0.reading - 1 else 0)
    case WriteLock => t == t0.(writing := t0.writing + 1)
    case TryWriteLock => t == t0.(writing := t0.writing + 1, result := true) || t == t0.(result := false)
    case WriteUnlock => t == t0.(writing := if t0.writing > 0 then t0.writing - 1 else 0)
  }

  lemma ActedGoesOn(v: View, id: nat, other: Operation, op: Operation, t0: Thread)
    requires t0.point == Idle && !t0.unlocking && OnItsWay(op, t0, v.me) && (op == WriteUnlock ==> t0.writing > 0)
    ensures var t := Acted(v, id, other).me; OnItsWay(op, t0, t) || HasReturned(op, t0, t)
  {
  }

  lemma ActedBegins(v: View, id: nat, op: Operation)
    requires v.me.point == Idle && !v.me.unlocking
    ensures var t := Acted(v, id, op).me;
            || (OnItsWay(op, v.me, t) && (op == WriteUnlock ==> v.me.writing > 0))
            || HasReturned(op, v.me, t)
  {
  }

  /** One turn, of whichever thread. */
  lemma TurnGoesOn(s: Lock, turn: Turn, i: nat, op: Operation, t0: Thread)
    requires i < |s.threads| && t0.point == Idle && !t0.unlocking && (op == WriteUnlock ==> t0.writing > 0)
    requires OnItsWay(op, t0, s.threads[i])
    ensures i < |Turned(s, turn).threads|
    ensures var t := Turned(s, turn).threads[i]; OnItsWay(op, t0, t) || HasReturned(op, t0, t)
  {
    if turn.thread == i {
      ActedGoesOn(ViewOf(s, i), i + 1, turn.op, op, t0);
    }
    hide Acted, OnItsWay, HasReturned;
  }

  lemma Unidle(op: Operation, t0: Thread, t: Thread)
    requires t0.point == Idle
    ensures OnItsWay(op, t0, t) ==> t.point != Idle
    ensures HasReturned(op, t0, t) ==> t.point == Idle
  {
  }

  lemma {:induction false} TurnsGoOn(s: Lock, turns: seq<Turn>, i: nat, op: Operation, t0: Thread)
    requires i < |s.threads| && t0.point == Idle && !t0.unlocking && (op == WriteUnlock ==> t0.writing > 0)
    requires OnItsWay(op, t0, s.threads[i])
    requires forall k | 0 < k < |turns| :: Run(s, turns[..k]).threads[i].point != Idle
    ensures var t := Run(s, turns).threads[i];
            if t.point == Idle then HasReturned(op, t0, t) else OnItsWay(op, t0, t)
    decreases |turns|
  {
    hide Acted, OnItsWay, HasReturned, Turned;
    Unidle(op, t0, s.threads[i]);
    if turns != [] {
      var s1 := Turned(s, turns[0]);
      TurnGoesOn(s, turns[0], i, op, t0);
      Unidle(op, t0, s1.threads[i]);
      if |turns| == 1 {
        assert Run(s, turns) == Run(s1, []) == s1;
      } else {
        assert turns[..1][0] == turns[0] && turns[..1][1..] == [] && Run(s, turns[..1]) == Run(s1, []);
        forall k | 0 < k < |turns[1..]|
          ensures Run(s1, turns[1..][..k]).threads[i].point != Idle
        {
          assert turns[..k + 1][1..] == turns[1..][..k] && Run(s, turns[..k + 1]) == Run(s1, turns[1..][..k]);
        }
        TurnsGoOn(s1, turns[1..], i, op, t0);
      }
    }
  }

  /** In every interleaving, whatever state the lock is in: an operation that a thread begins and that returns
      has done for the thread what it is for, and while it has not returned the thread holds what it held. */
  lemma ReturnsDone(s: Lock, turns: seq<Turn>, i: nat, op: Operation)
    requires Inv(s) && i < |s.threads| && s.threads[i].point == Idle
    requires turns != [] && turns[0] == Turn(i, op)
    requires forall k | 0 < k < |turns| :: Run(s, turns[..k]).threads[i].point != Idle
    ensures var t0, t := s.threads[i], Run(s, turns).threads[i];
            if t.point == Idle then HasReturned(op, t0, t) else OnItsWay(op, t0, t)
  {
    var t0, s1 := s.threads[i], Turned(s, turns[0]);
    ActedBegins(ViewOf(s, i), i + 1, op);
    hide Acted;
    if |turns| == 1 {
      assert Run(s, turns) == Run(s1, []) == s1;
    } else {
      assert turns[..1][0] == turns[0] && turns[..1][1..] == [] && Run(s, turns[..1]) == Run(s1, []);
      assert s1.threads[i].point != Idle;
      forall k | 0 < k < |turns[1..]|
        ensures Run(s1, turns[1..][..k]).threads[i].point != Idle
      {
        assert turns[..k + 1][1..] == turns[1..][..k] && Run(s, turns[..k + 1]) == Run(s1, turns[1..][..k]);
      }
      TurnsGoOn(s1, turns[1..], i, op, t0);
    }
  }

  /** A thread runs on alone until its operation is over, for at most `fuel` steps. */
  function Alone(v: View, id: nat, fuel: nat): View
    decreases fuel
  {
    if fuel == 0 || v.me.point == Idle then v else Alone(Acted(v, id, ReadLock), id, fuel - 1)
  }

  function Called(v: View, id: nat, op: Operation): View {
    Alone(Acted(v, id, op), id, 8)
  }

  /** Can the operation go through at once?  A `try` always answers. */
  predicate Open(v: View, id: nat, op: Operation) {
    match op
    case ReadLock => v.lockedBy == id || v.write == 0
    case WriteLock => v.lockedBy == id || (v.write == 0 && v.read == 0)
    case ReadUnlock => v.me.reading > 0
    case WriteUnlock => v.me.writing > 0
    case _ => true
  }

  /** What an operation that goes through at once is to do. */
  function Intended(v: View, id: nat, op: Operation): View {
    var t := v.me;
    var inRead := v.(read := v.read + 1, me := t.(reading := t.reading + 1));
    var inWrite := v.(write := v.write + 1, lockedBy := id, me := t.(writing := t.writing + 1));
    match op
    case ReadLock => inRead
    case TryReadLock =>
      if v.lockedBy == id || v.write == 0 then inRead.(me := inRead.me.(result := true))
      else v.(me := t.(result := false))
    case ReadUnlock => v.(read := v.read - 1, me := t.(reading := if t.reading > 0 then t.reading - 1 else 0))
    case WriteLock => inWrite
    case TryWriteLock =>
      if v.lockedBy == id || (v.write == 0 && v.read == 0) then inWrite.(me := inWrite.me.(result := true))
      else v.(me := t.(result := false))
    case WriteUnlock =>
      v.(write := v.write - 1, lockedBy := if t.writing == 1 then 0 else v.lockedBy,
         me := t.(writing := if t.writing > 0 then t.writing - 1 else 0))
  }

  /** A thread that is not in an operation, as the invariant has it. */
  ghost predicate AtRest(v: View, id: nat) {
    && id > 0 && v.me.point == Idle && v.me.Sensible()
    && (v.me.writing > 0 <==> v.lockedBy == id)
    && (v.me.writing > 0 ==> v.write == v.me.writing)
  }

  /** The states a thread goes through on its own, one for each step. */
  ghost predicate IsPath(path: seq<View>, id: nat) {
    && 0 < |path| <= 9 && path[|path| - 1].me.point == Idle
    && (forall k | 0 <= k < |path| - 1 :: path[k].me.point != Idle && Acted(path[k], id, ReadLock) == path[k + 1])
  }

  lemma {:induction false} AlonePath(path: seq<View>, id: nat, k: nat)
    requires IsPath(path, id) && k < |path|
    ensures Alone(path[k], id, 8 - k) == path[|path| - 1]
    decreases |path| - k
  {
    if k < |path| - 1 {
      hide Acted;
      AlonePath(path, id, k + 1);
      AloneFor(path[k], id, 8 - k);
    }
  }

  lemma CalledReadLock(v: View, id: nat)
    requires AtRest(v, id) && Open(v, id, ReadLock)
    ensures Called(v, id, ReadLock) == Intended(v, id, ReadLock)
  {
    var t, end := v.me, Intended(v, id, ReadLock);
    var start := v.(me := t.(point := ReadEnter));
    if v.lockedBy == id {
      AlonePath([start, v.(me := t.(point := ReadOwn)), end], id, 0);
    } else {
      var more := v.(read := v.read + 1);
      AlonePath([start, v.(me := t.(point := ReadSpin)), v.(me := t.(point := ReadAdd)),
                 more.(me := t.(point := ReadCheck)), end], id, 0);
    }
  }

  lemma CalledTryReadLock(v: View, id: nat)
    requires AtRest(v, id) && Open(v, id, TryReadLock)
    ensures Called(v, id, TryReadLock) == Intended(v, id, TryReadLock)
  {
    var t, end := v.me, Intended(v, id, TryReadLock);
    var start := v.(me := t.(point := TryReadEnter));
    var add, more := v.(me := t.(point := TryReadAdd)), v.(read := v.read + 1);
    if v.lockedBy == id {
      AlonePath([start, v.(me := t.(point := TryReadOwn)), end], id, 0);
    } else if v.write == 0 {
      AlonePath([start, add, more.(me := t.(point := TryReadCheck)), end], id, 0);
    } else {
      AlonePath([start, add, more.(me := t.(point := TryReadCheck)),
                 more.(me := t.(point := TryReadBack)), end], id, 0);
    }
  }

  lemma CalledReadUnlock(v: View, id: nat)
    requires AtRest(v, id) && Open(v, id, ReadUnlock)
    ensures Called(v, id, ReadUnlock) == Intended(v, id, ReadUnlock)
  {
    var t, end := v.me, Intended(v, id, ReadUnlock);
    AlonePath([v.(me := t.(point := ReadRelease)), end], id, 0);
  }

  lemma CalledWriteLock(v: View, id: nat)
    requires AtRest(v, id) && Open(v, id, WriteLock)
    ensures Called(v, id, WriteLock) == Intended(v, id, WriteLock)
  {
    var t, end := v.me, Intended(v, id, WriteLock);
    var start := v.(me := t.(point := WriteEnter));
    if v.lockedBy == id {
      AlonePath([start, v.(me := t.(point := WriteAgain)), end], id, 0);
    } else {
      var claimed := v.(write := 1);
      AlonePath([start, v.(me := t.(point := WriteClaim)), claimed.(me := t.(point := WriteWait)),
                 claimed.(me := t.(point := WriteOwn)), end], id, 0);
    }
  }

  lemma CalledTryWriteLock(v: View, id: nat)
    requires AtRest(v, id) && Open(v, id, TryWriteLock)
    ensures Called(v, id, TryWriteLock) == Intended(v, id, TryWriteLock)
  {
    var t, end := v.me, Intended(v, id, TryWriteLock);
    var start := v.(me := t.(point := TryWriteEnter));
    if v.lockedBy == id {
      AlonePath([start, v.(me := t.(point := TryWriteAgain)), end], id, 0);
    } else if v.write != 0 {
      AlonePath([start, v.(me := t.(point := TryWriteClaim)), end], id, 0);
    } else {
      CalledTryToClaim(v, id);
    }
  }

  lemma CalledTryToClaim(v: View, id: nat)
    requires AtRest(v, id) && v.lockedBy != id && v.write == 0
    ensures Called(v, id, TryWriteLock) == Intended(v, id, TryWriteLock)
  {
    var t, end := v.me, Intended(v, id, TryWriteLock);
    var start, claim := v.(me := t.(point := TryWriteEnter)), v.(me := t.(point := TryWriteClaim));
    var claimed := v.(write := 1);
    var check := claimed.(me := t.(point := TryWriteCheck));
    var next := claimed.(me := t.(point := if v.read != 0 then TryWriteBack else TryWriteOwn));
    AlonePath([start, claim, check, next, end], id, 0);
  }

  lemma CalledWriteUnlock(v: View, id: nat)
    requires AtRest(v, id) && Open(v, id, WriteUnlock)
    ensures Called(v, id, WriteUnlock) == Intended(v, id, WriteUnlock)
  {
    var t, end := v.me, Intended(v, id, WriteUnlock);
    var u, more := t.(unlocking := true), v.(read := v.read + 1);
    var start, own := v.(me := u.(point := ReadEnter)), v.(me := u.(point := ReadOwn));
    var drop := more.(me := u.(point := UnlockDrop));
    var dropped := more.(write := v.write - 1);
    var left := u.(point := UnlockLeave, writing := t.writing - 1);
    if t.writing == 1 {
      AlonePath([start, own, drop, dropped.(me := left.(point := UnlockClear)),
                 dropped.(lockedBy := 0, me := left), end], id, 0);
    } else {
      AlonePath([start, own, drop, dropped.(me := left), end], id, 0);
    }
  }

  /** An undisturbed call, from any state the lock can be in, does what the operation is for: a `try`
      succeeds exactly when the lock is free for it, and leaves no trace when it fails. */
  lemma CalledAsIntended(s: Lock, i: nat, op: Operation)
    requires Inv(s) && i < |s.threads| && s.threads[i].point == Idle
    requires Open(ViewOf(s, i), i + 1, op)
    ensures Called(ViewOf(s, i), i + 1, op) == Intended(ViewOf(s, i), i + 1, op)
  {
    assert s.threads[i].Owner() <==> s.lockedBy == i + 1;
    if s.threads[i].writing > 0 {
      WriterHasAll(s, i);
    }
    var v := ViewOf(s, i);
    assert AtRest(v, i + 1);
    hide AtRest, Open, Called, Intended;
    match op {
      case ReadLock => CalledReadLock(v, i + 1);
      case TryReadLock => CalledTryReadLock(v, i + 1);
      case ReadUnlock => CalledReadUnlock(v, i + 1);
      case WriteLock => CalledWriteLock(v, i + 1);
      case TryWriteLock => CalledTryWriteLock(v, i + 1);
      case WriteUnlock => CalledWriteUnlock(v, i + 1);
    }
  }

  lemma AloneFor(v: View, id: nat, fuel: nat)
    requires fuel > 0
    ensures Alone(v, id, fuel) == if v.me.point == Idle then v else Alone(Acted(v, id, ReadLock), id, fuel - 1)
  {
  }

  /** A step of a `writeUnlock` that does without the read section, which the code never does. */
  function BareActed(v: View, id: nat, op: Operation): View {
    match v.me.point
    case Idle =>
      var b := Begun(v.me, op);
      v.(me := if b.unlocking then b.(point := UnlockDrop) else b)
    case UnlockLeave => v.(me := v.me.(point := Idle, unlocking := false))
    case _ => Acted(v, id, op)
  }

  function BareStep(s: Lock, i: nat, op: Operation): (s': Lock)
    requires i < |s.threads|
    ensures |s'.threads| == |s.threads|
  {
    var v := BareActed(ViewOf(s, i), i + 1, op);
    Lock(v.read, v.write, v.lockedBy, s.threads[i := v.me])
  }

  function BareRun(s: Lock, turns: seq<Turn>): (s': Lock)
    ensures |s'.threads| == |s.threads|
    decreases |turns|
  {
    if turns == [] then s
    else
      var turn := turns[0];
      BareRun(if turn.thread < |s.threads| then BareStep(s, turn.thread, turn.op) else s, turns[1..])
  }

  /** Thread 0 locks, unlocks and is held up before it erases its name; thread 1 locks; thread 0
      goes on. */
  function HandOver(): seq<Turn> {
    Repeated(0, WriteLock, 5)
    + (Repeated(0, WriteUnlock, 2) + (Repeated(1, WriteLock, 5) + Repeated(0, WriteUnlock, 1)))
  }

  function Repeated(i: nat, op: Operation, n: nat): seq<Turn> {
    if n == 0 then [] else [Turn(i, op)] + Repeated(i, op, n - 1)
  }

  /** `n` turns of one thread. */
  function Bare(s: Lock, i: nat, op: Operation, n: nat): (s': Lock)
    requires i < |s.threads|
    ensures |s'.threads| == |s.threads|
    decreases n
  {
    if n == 0 then s else Bare(BareStep(s, i, op), i, op, n - 1)
  }

  lemma {:induction false} RunRepeated(s: Lock, i: nat, op: Operation, n: nat, rest: seq<Turn>)
    requires i < |s.threads|
    ensures BareRun(s, Repeated(i, op, n) + rest) == BareRun(Bare(s, i, op, n), rest)
    decreases n
  {
    hide BareStep;
    if n == 0 {
      assert Repeated(i, op, n) + rest == rest;
    } else {
      var turns := Repeated(i, op, n) + rest;
      assert turns[1..] == Repeated(i, op, n - 1) + rest;
      RunRepeated(BareStep(s, i, op), i, op, n - 1, rest);
    }
  }

  lemma BareTwice(s: Lock, i: nat, op: Operation, n: nat)
    requires i < |s.threads| && n >= 2
    ensures Bare(s, i, op, n) == Bare(BareStep(BareStep(s, i, op), i, op), i, op, n - 2)
  {
    hide BareStep;
    assert Bare(BareStep(s, i, op), i, op, n - 1) == Bare(BareStep(BareStep(s, i, op), i, op), i, op, n - 2);
  }

  lemma BareClaim(s: Lock, i: nat)
    requires i < |s.threads| && s.threads[i] == FRESH && s.lockedBy != i + 1
    ensures var s' := BareStep(BareStep(s, i, WriteLock), i, WriteLock);
            s' == s.(threads := s.threads[i := FRESH.(point := WriteClaim)])
  {
    assert BareStep(s, i, WriteLock) == s.(threads := s.threads[i := FRESH.(point := WriteEnter)]);
  }

  lemma BareWait(s: Lock, i: nat)
    requires i < |s.threads| && s.threads[i] == FRESH.(point := WriteClaim) && s.read == 0 && s.write == 0
    ensures var s' := BareStep(BareStep(s, i, WriteLock), i, WriteLock);
            s' == s.(write := 1, threads := s.threads[i := FRESH.(point := WriteOwn)])
  {
    assert BareStep(s, i, WriteLock) == s.(write := 1, threads := s.threads[i := FRESH.(point := WriteWait)]);
  }

  lemma BareLock(i: nat, last: nat, other: Thread)
    requires i < 2
    ensures var ts := if i == 0 then [FRESH, other] else [other, FRESH];
            last != i + 1 ==>
              Bare(Lock(0, 0, last, ts), i, WriteLock, 5) == Lock(0, 1, i + 1, ts[i := FRESH.(writing := 1)])
  {
    if last != i + 1 {
      var s0 := Lock(0, 0, last, if i == 0 then [FRESH, other] else [other, FRESH]);
      var s2 := s0.(threads := s0.threads[i := FRESH.(point := WriteClaim)]);
      var s4 := s0.(write := 1, threads := s0.threads[i := FRESH.(point := WriteOwn)]);
      BareClaim(s0, i);
      BareWait(s2, i);
      assert s2.(write := 1, threads := s2.threads[i := FRESH.(point := WriteOwn)]) == s4;
      BareTwice(s0, i, WriteLock, 5);
      BareTwice(s2, i, WriteLock, 3);
      var s5 := BareStep(s4, i, WriteLock);
      assert s5 == Lock(0, 1, i + 1, s0.threads[i := FRESH.(writing := 1)]);
      assert Bare(s4, i, WriteLock, 1) == Bare(s5, i, WriteLock, 0);
    }
  }

  const LEAVING := FRESH.(point := UnlockClear, unlocking := true)
  const OWNER := FRESH.(writing := 1)

  lemma BareUnlock()
    ensures Bare(Lock(0, 1, 1, [OWNER, FRESH]), 0, WriteUnlock, 2) == Lock(0, 0, 1, [LEAVING, FRESH])
  {
    var s5 := Lock(0, 1, 1, [OWNER, FRESH]);
    var s6 := BareStep(s5, 0, WriteUnlock);
    assert s6 == Lock(0, 1, 1, [OWNER.(point := UnlockDrop, unlocking := true), FRESH]);
    var s7 := BareStep(s6, 0, WriteUnlock);
    assert s7 == Lock(0, 0, 1, [LEAVING, FRESH]);
    assert Bare(s6, 0, WriteUnlock, 1) == Bare(s7, 0, WriteUnlock, 0);
  }

  /** Without the read section inside `writeUnlock` the next owner's name is erased. */
  lemma WithoutTheReadSection()
    ensures var s := BareRun(Initial(2), HandOver());
            s.threads[1].writing == 1 && s.lockedBy == 0
  {
    var s0, s5 := Initial(2), Lock(0, 1, 1, [OWNER, FRESH]);
    var s7, s12 := Lock(0, 0, 1, [LEAVING, FRESH]), Lock(0, 1, 2, [LEAVING, OWNER]);
    HandOverStates(s0, s5, s7, s12);
    var r1, r2 := Repeated(0, WriteLock, 5), Repeated(0, WriteUnlock, 2);
    var r3, r4 := Repeated(1, WriteLock, 5), Repeated(0, WriteUnlock, 1);
    assert HandOver() == r1 + (r2 + (r3 + r4));
    hide *;
    RunRepeated(s0, 0, WriteLock, 5, r2 + (r3 + r4));
    RunRepeated(s5, 0, WriteUnlock, 2, r3 + r4);
    RunRepeated(s7, 1, WriteLock, 5, r4);
    assert BareRun(s0, HandOver()) == BareRun(s12, r4);
    LastTurn(s12);
  }

  lemma HandOverStates(s0: Lock, s5: Lock, s7: Lock, s12: Lock)
    requires s0 == Initial(2) && s5 == Lock(0, 1, 1, [OWNER, FRESH])
    requires s7 == Lock(0, 0, 1, [LEAVING, FRESH]) && s12 == Lock(0, 1, 2, [LEAVING, OWNER])
    ensures Bare(s0, 0, WriteLock, 5) == s5
    ensures Bare(s5, 0, WriteUnlock, 2) == s7
    ensures Bare(s7, 1, WriteLock, 5) == s12
  {
    BareLock(0, 0, FRESH);
    BareUnlock();
    BareLock(1, 1, LEAVING);
    hide Bare;
    assert s0.threads == [FRESH, FRESH];
    assert [FRESH, FRESH][0 := OWNER] == [OWNER, FRESH];
    assert [LEAVING, FRESH][1 := OWNER] == [LEAVING, OWNER];
  }

  lemma LastTurn(s: Lock)
    requires s.threads == [LEAVING, OWNER]
    ensures var s' := BareRun(s, Repeated(0, WriteUnlock, 1));
            s'.threads[1].writing == 1 && s'.lockedBy == 0
  {
    assert Repeated(0, WriteUnlock, 1) == [Turn(0, WriteUnlock)];
    assert BareRun(s, [Turn(0, WriteUnlock)]) == BareRun(BareStep(s, 0, WriteUnlock), []);
  }
}
