/** The plain spinning read/write lock, for any number of threads and every interleaving of their
    reads and writes of its two counters, each of which is one step. */
module PlainLocks {
  import opened Sums

  datatype Operation = ReadLock | TryReadLock | ReadUnlock | WriteLock | TryWriteLock | WriteUnlock

  datatype Point =
    | Idle
    | ReadSpin | ReadAdd | ReadCheck | ReadBack
    | TryReadAdd | TryReadCheck | TryReadBack
    | ReadRelease
    | WriteClaim | WriteWait
    | TryWriteClaim | TryWriteCheck | TryWriteBack
    | WriteRelease

  /** `reading` and `writing` count the sections the thread is in; `result` is what the last `try`
      returned. */
  datatype Thread = Thread(point: Point, reading: nat, writing: nat, result: bool) {
    function Read(): nat {
      reading + (if point in {ReadCheck, ReadBack, TryReadCheck, TryReadBack} then 1 else 0)
    }

    function Write(): nat {
      writing + (if point in {WriteWait, TryWriteCheck, TryWriteBack} then 1 else 0)
    }

    predicate Sensible() {
      && (point == ReadRelease ==> reading > 0)
      && (point == WriteRelease ==> writing > 0)
    }
  }

  datatype Lock = Lock(read: int, write: int, threads: seq<Thread>)

  datatype View = View(read: int, write: int, me: Thread)

  const FRESH := Thread(Idle, 0, 0, false)

  function Initial(n: nat): Lock {
    Lock(0, 0, seq(n, _ => FRESH))
  }

  /** A client begins an operation.  It only unlocks what it has locked. */
  function Begun(t: Thread, op: Operation): Thread {
    match op
    case ReadLock => t.(point := ReadSpin)
    case TryReadLock => t.(point := TryReadAdd)
    case ReadUnlock => if t.reading > 0 then t.(point := ReadRelease) else t
    case WriteLock => t.(point := WriteClaim)
    case TryWriteLock => t.(point := TryWriteClaim)
    case WriteUnlock => if t.writing > 0 then t.(point := WriteRelease) else t
  }

  function Acted(v: View, op: Operation): View {
    var t := v.me;
    match t.point
    case Idle => v.(me := Begun(t, op))

    case ReadSpin => v.(me := if v.write != 0 then t else t.(point := ReadAdd))
    case ReadAdd => v.(read := v.read + 1, me := t.(point := ReadCheck))
    case ReadCheck =>
      v.(me := if v.write != 0 then t.(point := ReadBack) else t.(point := Idle, reading := t.reading + 1))
    case ReadBack => v.(read := v.read - 1, me := t.(point := ReadSpin))

    case TryReadAdd => v.(read := v.read + 1, me := t.(point := TryReadCheck))
    case TryReadCheck => v.(me := if v.write != 0 then t.(point := TryReadBack)
                                  else t.(point := Idle, reading := t.reading + 1, result := true))
    case TryReadBack => v.(read := v.read - 1, me := t.(point := Idle, result := false))

    case ReadRelease =>
      v.(read := v.read - 1, me := t.(point := Idle, reading := if t.reading > 0 then t.reading - 1 else 0))

    case WriteClaim => if v.write == 0 then v.(write := 1, me := t.(point := WriteWait)) else v
    case WriteWait => v.(me := if v.read != 0 then t else t.(point := Idle, writing := t.writing + 1))

    case TryWriteClaim => if v.write == 0 then v.(write := 1, me := t.(point := TryWriteCheck))
                          else v.(me := t.(point := Idle, result := false))
    case TryWriteCheck => v.(me := if v.read != 0 then t.(point := TryWriteBack)
                                   else t.(point := Idle, writing := t.writing + 1, result := true))
    case TryWriteBack => v.(write := 0, me := t.(point := Idle, result := false))

    case WriteRelease =>
      v.(write := v.write - 1, me := t.(point := Idle, writing := if t.writing > 0 then t.writing - 1 else 0))
  }

  function ViewOf(s: Lock, i: nat): View
    requires i < |s.threads|
  {
    View(s.read, s.write, s.threads[i])
  }

  function Step(s: Lock, i: nat, op: Operation): (s': Lock)
    requires i < |s.threads|
    ensures |s'.threads| == |s.threads|
  {
    var v := Acted(ViewOf(s, i), op);
    Lock(v.read, v.write, s.threads[i := v.me])
  }

  function Reads(ts: seq<Thread>): (ns: seq<nat>)
    ensures |ns| == |ts|
  {
    seq(|ts|, k requires 0 <= k < |ts| => ts[k].Read())
  }

  function Writes(ts: seq<Thread>): (ns: seq<nat>)
    ensures |ns| == |ts|
  {
    seq(|ts|, k requires 0 <= k < |ts| => ts[k].Write())
  }

  ghost predicate Counted(s: Lock) {
    s.read == Sum(Reads(s.threads)) && s.write == Sum(Writes(s.threads))
  }

  /** `m_write` is 0 or 1; while a thread is in a write section, all others are out of theirs. */
  ghost predicate Inv(s: Lock) {
    && Counted(s) && s.write <= 1
    && (forall i | 0 <= i < |s.threads| :: s.threads[i].Sensible())
    && (forall i, j | 0 <= i < |s.threads| && 0 <= j < |s.threads| && i != j ::
          && (s.threads[i].Write() == 0 || s.threads[j].Write() == 0)
          && (s.threads[i].writing > 0 ==> s.threads[j].reading == 0))
  }

  lemma InitialInv(n: nat)
    ensures Inv(Initial(n))
  {
    SumOfZeros(Reads(Initial(n).threads));
    SumOfZeros(Writes(Initial(n).threads));
  }

  lemma SharesBound(s: Lock, i: nat)
    requires Counted(s) && i < |s.threads|
    ensures s.threads[i].Read() <= s.read && s.threads[i].Write() <= s.write
  {
    PartOfSum(Reads(s.threads), i);
    PartOfSum(Writes(s.threads), i);
  }

  lemma StepCounted(s: Lock, i: nat, op: Operation)
    requires Inv(s) && i < |s.threads|
    ensures Counted(Step(s, i, op)) && Step(s, i, op).write <= 1
  {
    SharesBound(s, i);
    var t := Step(s, i, op).threads[i];
    SumUpdate(Reads(s.threads), i, t.Read());
    SumUpdate(Writes(s.threads), i, t.Write());
    assert Reads(Step(s, i, op).threads) == Reads(s.threads)[i := t.Read()];
    assert Writes(Step(s, i, op).threads) == Writes(s.threads)[i := t.Write()];
  }

  lemma StepInv(s: Lock, i: nat, op: Operation)
    requires Inv(s) && i < |s.threads|
    ensures Inv(Step(s, i, op))
  {
    StepCounted(s, i, op);
    var s' := Step(s, i, op);
    SharesBound(s, i);
    forall j | 0 <= j < |s.threads| && j != i
      ensures s'.threads[i].Write() == 0 || s'.threads[j].Write() == 0
      ensures s'.threads[i].writing > 0 ==> s'.threads[j].reading == 0
      ensures s'.threads[j].writing > 0 ==> s'.threads[i].reading == 0
    {
      SharesBound(s, j);
    }
  }

  datatype Turn = Turn(thread: nat, op: Operation)

  /** A run: any interleaving of the threads. */
  function Run(s: Lock, turns: seq<Turn>): (s': Lock)
    ensures |s'.threads| == |s.threads|
    decreases |turns|
  {
    if turns == [] then s
    else Run(if turns[0].thread < |s.threads| then Step(s, turns[0].thread, turns[0].op) else s, turns[1..])
  }

  lemma {:induction false} RunInv(s: Lock, turns: seq<Turn>)
    requires Inv(s)
    ensures Inv(Run(s, turns))
    decreases |turns|
  {
    if turns != [] {
      if turns[0].thread < |s.threads| {
        StepInv(s, turns[0].thread, turns[0].op);
        RunInv(Step(s, turns[0].thread, turns[0].op), turns[1..]);
      } else {
        RunInv(s, turns[1..]);
      }
    }
  }

  /** Mutual exclusion, over every run of any number of threads, and `try` never blocks it. */
  lemma Exclusion(n: nat, turns: seq<Turn>, i: nat, j: nat)
    requires var s := Run(Initial(n), turns);
             i < |s.threads| && j < |s.threads| && i != j && s.threads[i].writing > 0
    ensures var s := Run(Initial(n), turns);
            s.threads[i].writing == 1 && s.threads[j].writing == 0 && s.threads[j].reading == 0
  {
    InitialInv(n);
    RunInv(Initial(n), turns);
    SharesBound(Run(Initial(n), turns), i);
  }

  /** The thread, which was `t0` when it began the operation, is on its way through it. */
  predicate OnItsWay(op: Operation, t0: Thread, t: Thread) {
    && t == t0.(point := t.point)
    && match op
       case ReadLock => t.point in {ReadSpin, ReadAdd, ReadCheck, ReadBack}
       case TryReadLock => t.point in {TryReadAdd, TryReadCheck, TryReadBack}
       case ReadUnlock => t.point == ReadRelease
       case WriteLock => t.point in {WriteClaim, WriteWait}
       case TryWriteLock => t.point in {TryWriteClaim, TryWriteCheck, TryWriteBack}
       case WriteUnlock => t.point == WriteRelease
  }

  /** What the operation has done for the thread when it returns. */
  predicate HasReturned(op: Operation, t0: Thread, t: Thread) {
    match op
    case ReadLock => t == t0.(reading := t0.reading + 1)
    case TryReadLock => t == t0.(reading := t0.reading + 1, result := true) || t == t0.(result := false)
    case ReadUnlock => t == t0.(reading := if t0.reading > 0 then t0.reading - 1 else 0)
    case WriteLock => t == t0.(writing := t0.writing + 1)
    case TryWriteLock => t == t0.(writing := t0.writing + 1, result := true) || t == t0.(result := false)
    case WriteUnlock => t == t0.(writing := if t0.writing > 0 then t0.writing - 1 else 0)
  }

  lemma ActedGoesOn(v: View, other: Operation, op: Operation, t0: Thread)
    requires t0.point == Idle && OnItsWay(op, t0, v.me)
    ensures var t := Acted(v, other).me; OnItsWay(op, t0, t) || HasReturned(op, t0, t)
  {
  }

  lemma ActedBegins(v: View, op: Operation)
    requires v.me.point == Idle
    ensures var t := Acted(v, op).me; OnItsWay(op, v.me, t) || HasReturned(op, v.me, t)
  {
  }

  lemma FirstTurn(s: Lock, turns: seq<Turn>)
    requires turns != []
    ensures Run(s, turns[..1]) == if turns[0].thread < |s.threads| then Step(s, turns[0].thread, turns[0].op) else s
  {
    hide Step;
    var s1 := if turns[0].thread < |s.threads| then Step(s, turns[0].thread, turns[0].op) else s;
    assert turns[..1][1..] == [] && turns[..1][0] == turns[0];
    assert Run(s, turns[..1]) == Run(s1, []);
  }

  lemma RunOneMore(s: Lock, turns: seq<Turn>, k: nat)
    requires k < |turns|
    ensures Run(s, turns[..k + 1]) == Run(Run(s, turns[..1]), turns[1..][..k])
  {
    hide Step;
    assert turns[..k + 1][1..] == turns[1..][..k] && turns[..k + 1][0] == turns[0];
    assert turns[..1][1..] == [] && turns[..1][0] == turns[0];
  }

  lemma {:induction false} TurnsGoOn(s: Lock, turns: seq<Turn>, i: nat, op: Operation, t0: Thread)
    requires i < |s.threads| && t0.point == Idle && OnItsWay(op, t0, s.threads[i])
    requires forall k | 0 < k < |turns| :: Run(s, turns[..k]).threads[i].point != Idle
    ensures var t := Run(s, turns).threads[i];
            if t.point == Idle then HasReturned(op, t0, t) else OnItsWay(op, t0, t)
    decreases |turns|
  {
    if turns != [] {
      var s1 := Run(s, turns[..1]);
      FirstTurn(s, turns);
      if turns[0].thread == i {
        ActedGoesOn(ViewOf(s, i), turns[0].op, op, t0);
      }
      hide Acted;
      RunOneMore(s, turns, |turns| - 1);
      assert turns[..|turns|] == turns && turns[1..][..|turns| - 1] == turns[1..];
      if |turns| > 1 {
        assert s1.threads[i].point != Idle;
        forall k | 0 < k < |turns[1..]|
          ensures Run(s1, turns[1..][..k]).threads[i].point != Idle
        {
          RunOneMore(s, turns, k);
        }
        TurnsGoOn(s1, turns[1..], i, op, t0);
      }
    }
  }

  /** In every interleaving, whatever state the lock is in: an operation that a thread begins and that returns
      has done for the thread what it is for, and while it has not returned the thread holds what it held. */
  lemma ReturnsDone(s: Lock, turns: seq<Turn>, i: nat, op: Operation)
    requires i < |s.threads| && s.threads[i].point == Idle && turns != [] && turns[0] == Turn(i, op)
    requires forall k | 0 < k < |turns| :: Run(s, turns[..k]).threads[i].point != Idle
    ensures var t0, t := s.threads[i], Run(s, turns).threads[i];
            if t.point == Idle then HasReturned(op, t0, t) else OnItsWay(op, t0, t)
  {
    var t0, s1 := s.threads[i], Run(s, turns[..1]);
    hide Acted, Run;
    FirstTurn(s, turns);
    ActedBegins(ViewOf(s, i), op);
    RunOneMore(s, turns, |turns| - 1);
    assert turns[..|turns|] == turns && turns[1..][..|turns| - 1] == turns[1..];
    if |turns| > 1 {
      assert s1.threads[i].point != Idle;
      forall k | 0 < k < |turns[1..]|
        ensures Run(s1, turns[1..][..k]).threads[i].point != Idle
      {
        RunOneMore(s, turns, k);
      }
      TurnsGoOn(s1, turns[1..], i, op, t0);
    }
  }

  /** A thread runs on alone until its operation is over, for at most `fuel` steps. */
  function Alone(v: View, fuel: nat): View
    decreases fuel
  {
    if fuel == 0 || v.me.point == Idle then v else Alone(Acted(v, ReadLock), fuel - 1)
  }

  function Called(v: View, op: Operation): View {
    Alone(Acted(v, op), 4)
  }

  predicate Open(v: View, op: Operation) {
    match op
    case ReadLock => v.write == 0
    case WriteLock => v.write == 0 && v.read == 0
    case ReadUnlock => v.me.reading > 0
    case WriteUnlock => v.me.writing > 0
    case _ => true
  }

  function Intended(v: View, op: Operation): View {
    var t := v.me;
    var inRead := v.(read := v.read + 1, me := t.(reading := t.reading + 1));
    var inWrite := v.(write := v.write + 1, me := t.(writing := t.writing + 1));
    match op
    case ReadLock => inRead
    case TryReadLock =>
      if v.write == 0 then inRead.(me := inRead.me.(result := true)) else v.(me := t.(result := false))
    case ReadUnlock => v.(read := v.read - 1, me := t.(reading := if t.reading > 0 then t.reading - 1 else 0))
    case WriteLock => inWrite
    case TryWriteLock =>
      if v.write == 0 && v.read == 0 then inWrite.(me := inWrite.me.(result := true)) else v.(me := t.(result := false))
    case WriteUnlock => v.(write := v.write - 1, me := t.(writing := if t.writing > 0 then t.writing - 1 else 0))
  }

  /** The states a thread goes through on its own, one for each step. */
  ghost predicate IsPath(path: seq<View>) {
    && 0 < |path| <= 5 && path[|path| - 1].me.point == Idle
    && (forall k | 0 <= k < |path| - 1 :: path[k].me.point != Idle && Acted(path[k], ReadLock) == path[k + 1])
  }

  lemma {:induction false} AlonePath(path: seq<View>, k: nat)
    requires IsPath(path) && k < |path|
    ensures Alone(path[k], 4 - k) == path[|path| - 1]
    decreases |path| - k
  {
    if k < |path| - 1 {
      hide Acted;
      AlonePath(path, k + 1);
      AloneFor(path[k], 4 - k);
    }
  }

  lemma CalledToRead(v: View, op: Operation)
    requires v.me.point == Idle && v.me.Sensible() && Open(v, op)
    requires op in {ReadLock, TryReadLock, ReadUnlock}
    ensures Called(v, op) == Intended(v, op)
  {
    var t, end := v.me, Intended(v, op);
    var more := v.(read := v.read + 1);
    if op == ReadUnlock {
      AlonePath([v.(me := t.(point := ReadRelease)), end], 0);
    } else if op == ReadLock {
      AlonePath([v.(me := t.(point := ReadSpin)), v.(me := t.(point := ReadAdd)),
                 more.(me := t.(point := ReadCheck)), end], 0);
    } else if v.write == 0 {
      AlonePath([v.(me := t.(point := TryReadAdd)), more.(me := t.(point := TryReadCheck)), end], 0);
    } else {
      AlonePath([v.(me := t.(point := TryReadAdd)), more.(me := t.(point := TryReadCheck)),
                 more.(me := t.(point := TryReadBack)), end], 0);
    }
  }

  lemma CalledToWrite(v: View, op: Operation)
    requires v.me.point == Idle && v.me.Sensible() && Open(v, op)
    requires op in {WriteLock, TryWriteLock, WriteUnlock}
    ensures Called(v, op) == Intended(v, op)
  {
    var t, end := v.me, Intended(v, op);
    var claimed := v.(write := 1);
    var claim, check := v.(me := t.(point := TryWriteClaim)), claimed.(me := t.(point := TryWriteCheck));
    if op == WriteUnlock {
      AlonePath([v.(me := t.(point := WriteRelease)), end], 0);
    } else if op == WriteLock {
      AlonePath([v.(me := t.(point := WriteClaim)), claimed.(me := t.(point := WriteWait)), end], 0);
    } else if v.write != 0 {
      AlonePath([claim, end], 0);
    } else if v.read != 0 {
      AlonePath([claim, check, claimed.(me := t.(point := TryWriteBack)), end], 0);
    } else {
      AlonePath([claim, check, end], 0);
    }
  }

  /** An undisturbed call does what the operation is for; a `try` succeeds exactly when the lock is
      free for it, and leaves no trace when it fails. */
  lemma CalledAsIntended(v: View, op: Operation)
    requires v.me.point == Idle && v.me.Sensible() && Open(v, op)
    ensures Called(v, op) == Intended(v, op)
  {
    if op in {ReadLock, TryReadLock, ReadUnlock} {
      CalledToRead(v, op);
    } else {
      CalledToWrite(v, op);
    }
  }

  lemma AloneFor(v: View, fuel: nat)
    requires fuel > 0
    ensures Alone(v, fuel) == if v.me.point == Idle then v else Alone(Acted(v, ReadLock), fuel - 1)
  {
  }
}
