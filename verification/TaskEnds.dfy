/** How a task ends: it is never forgotten while it lives, whoever asks for it and is not given it lost it to
    an end before, and left to themselves the manager's operations do what they are for. */
module TaskEnds {
  import opened BinaryHeap
  import opened Sums
  import opened TaskManagers
  import TaskExecutions

  /** A task that was dispatched and lives is in the map, or a worker is about to end it; and whoever lets
      go of a task without having ended it does so because it had ended. */
  ghost predicate Followed(s: Manager, id: Id) {
    && TaskExecutions.Spent(s, id)
    && (forall c | 0 <= c < |s.callers| && s.callers[c].id == id ::
          s.callers[c].at in {UnlockLost, UnlockWon} ==> s.tasks[id].destroyed)
    && (s.tasks[id].dispatches > 0 && !s.tasks[id].destroyed ==>
          id in s.items || exists w | 0 <= w < |s.workers| :: TaskExecutions.Parked(s.workers[w], id))
  }

  lemma LookedFollowed(s: Manager, w: nat, now: int, id: Id)
    requires Inv(s) && Followed(s, id) && w < |s.workers| && s.workers[w].at == Looking
    ensures Followed(Looked(s, w, now), id)
  {
    var s' := Looked(s, w, now);
    TaskExecutions.LookedSpent(s, w, now, id);
    LookedShape(s, w, now);
    hide PopHeap, Inv, TaskExecutions.ParkedCount;
    if v :| 0 <= v < |s.workers| && TaskExecutions.Parked(s.workers[v], id) {
      assert s'.workers[v] == s.workers[v];
    }
    if id in s.items && id !in s'.items && !s.tasks[id].destroyed {
      assert TaskExecutions.Parked(s'.workers[w], id);
    }
  }

  lemma WorkedFollowed(s: Manager, w: nat, now: int, inside: Inside, id: Id)
    requires Inv(s) && Followed(s, id) && w < |s.workers| && s.workers[w].at != Looking
    ensures Followed(Worked(s, w, now, inside), id)
  {
    var s' := Worked(s, w, now, inside);
    TaskExecutions.WorkedSpent(s, w, now, inside, id);
    TaskExecutions.WorkedAccount(s, w, now, inside, id);
    WorkedShape(s, w, now, inside);
    WorkedDispatches(s, w, now, inside, id);
    hide Worked, Inv, TaskExecutions.Spent;
    if v :| 0 <= v < |s.workers| && TaskExecutions.Parked(s.workers[v], id) {
      assert v != w ==> s'.workers[v] == s.workers[v];
      assert !s'.tasks[id].destroyed ==> TaskExecutions.Parked(s'.workers[v], id);
    }
  }

  lemma WorkedDispatches(s: Manager, w: nat, now: int, inside: Inside, id: Id)
    requires w < |s.workers| && s.workers[w].at != Looking && id < |s.tasks|
    ensures var s' := Worked(s, w, now, inside);
            && s'.callers == s.callers && id < |s'.tasks| && s'.tasks[id].dispatches == s.tasks[id].dispatches
            && (s.tasks[id].destroyed ==> s'.tasks[id].destroyed)
  {
    hide SiftUp;
  }

  lemma OthersFollowed(s: Manager, a: Action, id: Id)
    requires Inv(s) && Followed(s, id) && !a.Work?
    ensures Followed(Step(s, a), id)
  {
    TaskExecutions.OthersSpent(s, a, id);
    var s' := Step(s, a);
    hide SiftUp, Inv, Worked, TaskExecutions.Spent;
    assert s'.workers == s.workers;
    if v :| 0 <= v < |s.workers| && TaskExecutions.Parked(s.workers[v], id) {
      assert TaskExecutions.Parked(s'.workers[v], id);
    }
  }

  lemma StepFollowed(s: Manager, a: Action, id: Id)
    requires Inv(s) && Followed(s, id)
    ensures Followed(Step(s, a), id)
  {
    match a {
      case Work(w, now, inside) =>
        hide Followed, Inv, Worked;
        if w < |s.workers| {
          if s.workers[w].at == Looking {
            LooksFirst(s, w, now, inside);
            LookedFollowed(s, w, now, id);
          } else {
            WorkedFollowed(s, w, now, inside, id);
          }
        }
      case _ => OthersFollowed(s, a, id);
    }
  }

  lemma {:induction false} RunFollowed(s: Manager, actions: seq<Action>, id: Id)
    requires Inv(s) && Followed(s, id)
    ensures Followed(Run(s, actions), id)
    decreases |actions|
  {
    if actions != [] {
      StepInv(s, actions[0]);
      StepFollowed(s, actions[0], id);
      hide Followed, Inv, Step;
      RunFollowed(Step(s, actions[0]), actions[1..], id);
    }
  }

  lemma Begun(certificates: seq<int>, workers: nat, callers: nat, actions: seq<Action>, id: Id)
    requires id < |certificates|
    ensures Inv(Run(Initial(certificates, workers, callers), actions))
    ensures Followed(Run(Initial(certificates, workers, callers), actions), id)
  {
    var s := Initial(certificates, workers, callers);
    InitialInv(certificates, workers, callers);
    SumOfZeros(TaskExecutions.Marks(s.workers, id));
    RunFromInv(s, actions);
    RunFollowed(s, actions, id);
  }

  /** Over every run a task that was dispatched and has not ended is in the map, or in the hands of a worker
      that is about to end it. */
  lemma NeverForgotten(certificates: seq<int>, workers: nat, callers: nat, actions: seq<Action>, id: Id)
    requires id < |certificates|
    ensures var s := Run(Initial(certificates, workers, callers), actions);
            && id < |s.tasks|
            && (s.tasks[id].dispatches > 0 && !s.tasks[id].destroyed ==>
                  id in s.items || exists w | 0 <= w < |s.workers| :: TaskExecutions.Parked(s.workers[w], id))
  {
    Begun(certificates, workers, callers, actions, id);
  }

  /** Over every run a caller of `destroy` that is not given the task it knows the certificate of lost it to an
      earlier end. */
  lemma LostToAnEnd(certificates: seq<int>, workers: nat, callers: nat, actions: seq<Action>, c: nat)
    requires var s := Run(Initial(certificates, workers, callers), actions);
             c < |s.callers| && s.callers[c].at == UnlockLost && s.callers[c].id < |certificates|
    ensures var s := Run(Initial(certificates, workers, callers), actions);
            s.callers[c].id < |s.tasks| && s.tasks[s.callers[c].id].destroyed
  {
    var s := Run(Initial(certificates, workers, callers), actions);
    Begun(certificates, workers, callers, actions, s.callers[c].id);
  }

  /** The same action, `n` times. */
  function Alone(s: Manager, a: Action, n: nat): Manager
    decreases n
  {
    if n == 0 then s else Alone(Step(s, a), a, n - 1)
  }

  function Repeated(a: Action, n: nat): seq<Action> {
    if n == 0 then [] else [a] + Repeated(a, n - 1)
  }

  lemma {:induction false} RunRepeated(s: Manager, a: Action, n: nat)
    ensures Run(s, Repeated(a, n)) == Alone(s, a, n)
    decreases n
  {
    hide Step;
    if n > 0 {
      assert Repeated(a, n)[1..] == Repeated(a, n - 1);
      RunRepeated(Step(s, a), a, n - 1);
    }
  }

  /** What a `destroy` that nobody disturbs is to leave of the tasks. */
  function Destroyed(s: Manager, id: Id, certificate: int): seq<Task> {
    if id !in s.items || id >= |s.tasks| || s.tasks[id].certificate != certificate || s.tasks[id].destroyed then s.tasks
    else
      var t := s.tasks[id];
      s.tasks[id := t.(destroyed := true, claims := t.claims + 1, returned := t.returned + 1)]
  }

  /** `destroy` of a live task in the map, its mutex free, with its certificate returns it, once, and ends it;
      of one that has ended it returns nothing, and with another certificate it does nothing. */
  lemma UndisturbedDestroy(s: Manager, c: nat, id: Id, certificate: int)
    requires c < |s.callers| && s.callers[c].at == Resting
    requires id in s.items ==> id < |s.tasks| && s.tasks[id].lockedBy == 0
    ensures var s' := Run(s, [Destroy(c, id, certificate)] + Repeated(Continue(c), 4));
            && s'.tasks == Destroyed(s, id, certificate)
            && s'.items == s.items && s'.heap == s.heap && s'.workers == s.workers
            && s'.callers == if id in s.items && s.tasks[id].certificate == certificate
                             then s.callers[c := Caller(Resting, id)] else s.callers
  {
    hide Step, Alone, Repeated;
    var actions := [Destroy(c, id, certificate)] + Repeated(Continue(c), 4);
    var s1 := Step(s, Destroy(c, id, certificate));
    assert actions[1..] == Repeated(Continue(c), 4);
    RunRepeated(s1, Continue(c), 4);
    DestroyBegins(s, c, id, certificate);
    if id !in s.items || s.tasks[id].certificate != certificate {
      RestingStays(s, c, 4);
    } else {
      DestroyGoesOn(s, s1, c, id);
    }
  }

  lemma DestroyBegins(s: Manager, c: nat, id: Id, certificate: int)
    requires c < |s.callers| && s.callers[c].at == Resting && (id in s.items ==> id < |s.tasks|)
    ensures Step(s, Destroy(c, id, certificate))
            == if id in s.items && s.tasks[id].certificate == certificate then CallerAt(s, c, DestroyLock, id) else s
  {
  }

  lemma {:induction false} RestingStays(s: Manager, c: nat, n: nat)
    requires c < |s.callers| && s.callers[c].at == Resting
    ensures Alone(s, Continue(c), n) == s
  {
    if n > 0 {
      assert Step(s, Continue(c)) == s;
      RestingStays(s, c, n - 1);
    }
  }

  lemma DestroyGoesOn(s: Manager, s1: Manager, c: nat, id: Id)
    requires c < |s.callers| && id < |s.tasks| && s.tasks[id].lockedBy == 0
    requires s1 == CallerAt(s, c, DestroyLock, id)
    ensures var t, s' := s.tasks[id], Alone(s1, Continue(c), 4);
            && s'.callers == s.callers[c := Caller(Resting, id)]
            && s'.items == s.items && s'.heap == s.heap && s'.workers == s.workers
            && s'.tasks == if t.destroyed then s.tasks
                           else s.tasks[id := t.(destroyed := true, claims := t.claims + 1, returned := t.returned + 1)]
  {
    var t, me := s.tasks[id], |s.workers| + c + 1;
    var locked := t.(lockedBy := me);
    var s2 := WithTask(CallerAt(s, c, DestroyCheck, id), id, locked);
    assert Continued(s1, c) == s2;
    if t.destroyed {
      var s3 := WithTask(CallerAt(s, c, UnlockLost, id), id, locked);
      var s4 := CallerAt(s, c, Resting, id);
      assert Continued(s2, c) == s3;
      assert s.tasks[id := locked][id := t] == s.tasks;
      assert Continued(s3, c) == s4;
      FourTimes(s1, s2, s3, s4, s4, Continue(c));
    } else {
      var won := locked.(destroyed := true, claims := t.claims + 1);
      var s3 := WithTask(CallerAt(s, c, DestroyKill, id), id, locked);
      var s4 := WithTask(CallerAt(s, c, UnlockWon, id), id, won);
      var s5 := WithTask(CallerAt(s, c, Resting, id), id, won.(lockedBy := 0, returned := t.returned + 1));
      assert Continued(s2, c) == s3 && Continued(s3, c) == s4 && Continued(s4, c) == s5;
      FourTimes(s1, s2, s3, s4, s5, Continue(c));
    }
  }

  lemma FourTimes(s1: Manager, s2: Manager, s3: Manager, s4: Manager, s5: Manager, a: Action)
    requires Step(s1, a) == s2 && Step(s2, a) == s3 && Step(s3, a) == s4 && Step(s4, a) == s5
    ensures Alone(s1, a, 4) == s5
  {
    hide Step;
    assert Alone(s4, a, 1) == Alone(s5, a, 0);
    assert Alone(s3, a, 2) == Alone(s4, a, 1);
    assert Alone(s2, a, 3) == Alone(s3, a, 2);
  }

  /** Who has a task's mutex is on its way from the lock to the unlock. */
  predicate Keeping(s: Manager, id: Id)
    requires id < |s.tasks|
  {
    var n := s.tasks[id].lockedBy;
    if 0 < n <= |s.workers| then s.workers[n - 1].Holds() && s.workers[n - 1].id == id
    else
      && |s.workers| < n <= |s.workers| + |s.callers|
      && s.callers[n - |s.workers| - 1].Holds() && s.callers[n - |s.workers| - 1].id == id
  }

  predicate FreeOrKept(s: Manager, id: Id)
    requires id < |s.tasks|
  {
    s.tasks[id].lockedBy == 0 || Keeping(s, id)
  }

  /** How many steps a worker, or a caller, is from its unlock. */
  function StepsOf(at: WorkerPoint): nat {
    match at
    case TimeCheck => 4
    case TimeCall => 3
    case TimeKill => 2
    case ExecCheck => 3
    case ExecCall => 2
    case _ => 1
  }

  function CallersStepsOf(at: CallerPoint): nat {
    match at
    case DestroyCheck => 3
    case DestroyKill => 2
    case _ => 1
  }

  lemma LookedKeeps(s: Manager, w: nat, now: int, id: Id)
    requires w < |s.workers| && s.workers[w].at == Looking && id < |s.tasks| && FreeOrKept(s, id)
    ensures id < |Looked(s, w, now).tasks| && FreeOrKept(Looked(s, w, now), id)
  {
    LookedShape(s, w, now);
    hide Looked;
  }

  /** What a worker's step does to the mutex of its task. */
  lemma WorkedMutex(s: Manager, w: nat, now: int, inside: Inside)
    requires w < |s.workers| && s.workers[w].at != Looking && s.workers[w].id < |s.tasks|
    requires s.workers[w].Holds() ==> s.tasks[s.workers[w].id].lockedBy == w + 1
    ensures var s', id := Worked(s, w, now, inside), s.workers[w].id;
            && s'.workers == s.workers[w := s'.workers[w]] && s'.callers == s.callers && |s'.tasks| == |s.tasks|
            && (forall x | 0 <= x < |s.tasks| && x != id :: s'.tasks[x] == s.tasks[x])
            && (if s'.workers[w].Holds() then s'.workers[w].id == id && s'.tasks[id].lockedBy == w + 1
                else s'.tasks[id].lockedBy == if s.workers[w].Holds() then 0 else s.tasks[id].lockedBy)
            && (s'.workers[w].Holds() && !s.workers[w].Holds() ==> s.tasks[id].lockedBy == 0)
            && (s.workers[w].Holds() && s'.workers[w].Holds() ==>
                  StepsOf(s'.workers[w].at) < StepsOf(s.workers[w].at))
  {
    hide SiftUp;
  }

  lemma WorkedKeeps(s: Manager, w: nat, now: int, inside: Inside, id: Id)
    requires Inv(s) && w < |s.workers| && id < |s.tasks| && FreeOrKept(s, id)
    ensures id < |Worked(s, w, now, inside).tasks| && FreeOrKept(Worked(s, w, now, inside), id)
  {
    assert WorkerOk(s, w);
    hide Worked, Looked, Inv, StepsOf;
    if s.workers[w].at == Looking {
      LooksFirst(s, w, now, inside);
      LookedKeeps(s, w, now, id);
    } else {
      WorkedMutex(s, w, now, inside);
    }
  }

  lemma StepKeepsMutex(s: Manager, a: Action, id: Id)
    requires Inv(s) && id < |s.tasks| && FreeOrKept(s, id)
    ensures id < |Step(s, a).tasks| && FreeOrKept(Step(s, a), id)
  {
    match a {
      case Work(w, now, inside) =>
        hide Worked, Inv, FreeOrKept;
        if w < |s.workers| {
          WorkedKeeps(s, w, now, inside, id);
        }
      case Continue(c) => ContinuedKeeps(s, c, id);
      case Dispatch(x, executeAt, maxStay) => DispatchedShape(s, x, executeAt, maxStay); hide Dispatched, Inv;
      case Destroy(c, x, certificate) => hide Inv;
    }
  }

  lemma ContinuedKeeps(s: Manager, c: nat, id: Id)
    requires Inv(s) && id < |s.tasks| && FreeOrKept(s, id)
    ensures id < |Step(s, Continue(c)).tasks| && FreeOrKept(Step(s, Continue(c)), id)
  {
    if c < |s.callers| {
      assert CallerOk(s, c);
    }
    hide Agreed, InOrder, TaskOk, WorkerOk;
  }

  lemma {:induction false} RunKeepsMutex(s: Manager, actions: seq<Action>, id: Id)
    requires Inv(s) && id < |s.tasks| && FreeOrKept(s, id)
    ensures id < |Run(s, actions).tasks| && FreeOrKept(Run(s, actions), id) && Inv(Run(s, actions))
    decreases |actions|
  {
    hide FreeOrKept, Inv, Step;
    if actions != [] {
      StepInv(s, actions[0]);
      StepKeepsMutex(s, actions[0], id);
      RunKeepsMutex(Step(s, actions[0]), actions[1..], id);
    }
  }

  /** The next step of whoever has the task's mutex; and how many there are to its unlock. */
  function HoldersTurn(s: Manager, id: Id, now: int, inside: Inside): Action
    requires id < |s.tasks| && Keeping(s, id)
  {
    var n := s.tasks[id].lockedBy;
    if n <= |s.workers| then Work(n - 1, now, inside) else Continue(n - |s.workers| - 1)
  }

  function ToUnlock(s: Manager, id: Id): nat
    requires id < |s.tasks| && Keeping(s, id)
  {
    var n := s.tasks[id].lockedBy;
    if n <= |s.workers| then StepsOf(s.workers[n - 1].at) else CallersStepsOf(s.callers[n - |s.workers| - 1].at)
  }

  /** What the step of a caller that has a task's mutex does to it. */
  lemma ContinuedMutex(s: Manager, c: nat)
    requires c < |s.callers| && s.callers[c].Holds() && s.callers[c].id < |s.tasks|
    requires s.tasks[s.callers[c].id].lockedBy == |s.workers| + c + 1
    ensures var s', id := Continued(s, c), s.callers[c].id;
            && s'.workers == s.workers && s'.callers == s.callers[c := s'.callers[c]] && |s'.tasks| == |s.tasks|
            && (|| s'.tasks[id].lockedBy == 0
                || (&& s'.tasks[id].lockedBy == |s.workers| + c + 1
                    && s'.callers[c].Holds() && s'.callers[c].id == id
                    && CallersStepsOf(s'.callers[c].at) < CallersStepsOf(s.callers[c].at)))
  {
  }

  lemma HolderGoesOn(s: Manager, id: Id, now: int, inside: Inside)
    requires Inv(s) && id < |s.tasks| && Keeping(s, id)
    ensures var s' := Step(s, HoldersTurn(s, id, now, inside));
            && Inv(s') && id < |s'.tasks|
            && (|| s'.tasks[id].lockedBy == 0
                || (&& Keeping(s', id) && ToUnlock(s', id) < ToUnlock(s, id)
                    && HoldersTurn(s', id, now, inside) == HoldersTurn(s, id, now, inside)))
  {
    hide Inv, Worked, Continued, StepsOf, CallersStepsOf;
    StepInv(s, HoldersTurn(s, id, now, inside));
    var n := s.tasks[id].lockedBy;
    if n <= |s.workers| {
      WorkedMutex(s, n - 1, now, inside);
    } else {
      ContinuedMutex(s, n - |s.workers| - 1);
    }
  }

  lemma {:induction false} HolderLetsGo(s: Manager, id: Id, now: int, inside: Inside) returns (n: nat)
    requires Inv(s) && id < |s.tasks| && Keeping(s, id)
    ensures n <= ToUnlock(s, id)
    ensures var s' := Alone(s, HoldersTurn(s, id, now, inside), n); id < |s'.tasks| && s'.tasks[id].lockedBy == 0
    decreases ToUnlock(s, id)
  {
    hide Inv, Step, Keeping, ToUnlock, HoldersTurn;
    var a := HoldersTurn(s, id, now, inside);
    var s' := Step(s, a);
    HolderGoesOn(s, id, now, inside);
    AtLeastOne(s, id);
    if s'.tasks[id].lockedBy == 0 {
      n := 1;
      assert Alone(s, a, 1) == Alone(s', a, 0);
    } else {
      var m := HolderLetsGo(s', id, now, inside);
      n := m + 1;
    }
  }

  lemma AtLeastOne(s: Manager, id: Id)
    requires id < |s.tasks| && Keeping(s, id)
    ensures 1 <= ToUnlock(s, id) <= 4
  {
  }

  /** Over every run a task's mutex is free, or at most four steps of the one thread that has it free it:
      nobody leaves a mutex behind, and nobody who has one waits for another. */
  lemma NoDeadlock(certificates: seq<int>, workers: nat, callers: nat, actions: seq<Action>, id: Id,
                   now: int, inside: Inside) returns (turn: Action, n: nat)
    requires id < |certificates|
    ensures n <= 4 && (turn.Work? || turn.Continue?)
    ensures var s := Run(Run(Initial(certificates, workers, callers), actions), Repeated(turn, n));
            id < |s.tasks| && s.tasks[id].lockedBy == 0
  {
    InitialInv(certificates, workers, callers);
    RunKeepsMutex(Initial(certificates, workers, callers), actions, id);
    var s := Run(Initial(certificates, workers, callers), actions);
    hide Inv, Step, ToUnlock;
    if s.tasks[id].lockedBy == 0 {
      turn, n := Continue(0), 0;
    } else {
      turn := HoldersTurn(s, id, now, inside);
      n := HolderLetsGo(s, id, now, inside);
      AtLeastOne(s, id);
      RunRepeated(s, turn, n);
    }
  }

  /** Nobody is at work, and no task's mutex is taken. */
  ghost predicate Idle(s: Manager) {
    && Inv(s)
    && (forall w | 0 <= w < |s.workers| :: s.workers[w].at == Looking)
    && (forall id | 0 <= id < |s.tasks| :: s.tasks[id].lockedBy == 0)
  }

  /** With nobody at work everything in the map is in the heap. */
  lemma IdleHeap(s: Manager)
    requires Idle(s)
    ensures Ids(s.heap) == s.items.Keys && (s.heap == [] <==> s.items == map[])
    ensures s.heap != [] ==> s.heap[0] in s.items && s.heap[0] < |s.tasks|
  {
    assert CarriedIds(s.workers) == {};
    if s.heap != [] {
      assert s.heap[0] in Ids(s.heap);
    } else {
      assert Ids(s.heap) == {};
    }
  }

  function GivenUp(t: Task): Task {
    t.(destroyed := true, timeouts := t.timeouts + 1)
  }

  /** The steps from the mutex of a task that is out of time to the next look. */
  lemma TimesOut(s: Manager, w: nat, id: Id, now: int)
    requires w < |s.workers| && s.workers[w] == Worker(TimeLock, id) && id < |s.tasks|
    requires s.tasks[id].lockedBy == 0 && !s.tasks[id].destroyed
    ensures var t, s' := s.tasks[id], Alone(s, Work(w, now, Nothing), 5);
            && s'.tasks == s.tasks[id := GivenUp(t)]
            && s'.workers == s.workers[w := Worker(Looking, id)]
            && s'.items == s.items && s'.heap == s.heap && s'.callers == s.callers
  {
    hide Step, Alone;
    var t, a := s.tasks[id], Work(w, now, Nothing);
    var locked := t.(lockedBy := w + 1);
    var s3 := WithTask(At(s, w, TimeCall, id), id, locked);
    ToTimeOut(s, w, id, now);
    FromTimeOut(s3, w, id, now);
    FiveTimes(s, a);
    assert s3.tasks[id := GivenUp(locked).(lockedBy := 0)] == s.tasks[id := GivenUp(t)];
  }

  lemma ToTimeOut(s: Manager, w: nat, id: Id, now: int)
    requires w < |s.workers| && s.workers[w] == Worker(TimeLock, id) && id < |s.tasks|
    requires s.tasks[id].lockedBy == 0 && !s.tasks[id].destroyed
    ensures var a := Work(w, now, Nothing);
            Step(Step(s, a), a) == WithTask(At(s, w, TimeCall, id), id, s.tasks[id].(lockedBy := w + 1))
  {
    hide SiftUp, Looked;
    assert Step(s, Work(w, now, Nothing)) == WithTask(At(s, w, TimeCheck, id), id, s.tasks[id].(lockedBy := w + 1));
  }

  lemma FromTimeOut(s: Manager, w: nat, id: Id, now: int)
    requires w < |s.workers| && s.workers[w] == Worker(TimeCall, id) && id < |s.tasks|
    ensures var t, a := s.tasks[id], Work(w, now, Nothing);
            Step(Step(Step(s, a), a), a) == WithTask(At(s, w, Looking, id), id, GivenUp(t).(lockedBy := 0))
  {
    hide SiftUp, Looked;
    var t, a := s.tasks[id], Work(w, now, Nothing);
    var called := WithTask(At(s, w, TimeKill, id), id, t.(timeouts := t.timeouts + 1));
    var killed := WithTask(At(s, w, TimeUnlock, id), id, GivenUp(t));
    assert Step(s, a) == called;
    assert Step(called, a) == killed;
  }

  lemma FiveTimes(s: Manager, a: Action)
    ensures Alone(s, a, 5) == Step(Step(Step(Step(Step(s, a), a), a), a), a)
  {
    hide Step;
    var s1 := Step(s, a);
    var s3 := Step(Step(s1, a), a);
    FourTimes(s1, Step(s1, a), s3, Step(s3, a), Step(Step(s3, a), a), a);
  }

  lemma IdleStill(s: Manager, s': Manager, id: Id)
    requires Idle(s) && Inv(s') && id < |s.tasks| == |s'.tasks| && |s'.workers| == |s.workers|
    requires forall v | 0 <= v < |s.workers| :: s'.workers[v].at == Looking || s'.workers[v] == s.workers[v]
    requires forall x | 0 <= x < |s.tasks| :: s'.tasks[x].lockedBy == s.tasks[x].lockedBy
    ensures Idle(s')
  {
    hide Inv;
  }

  lemma LookStep(s: Manager, w: nat, now: int, inside: Inside, n: nat)
    requires w < |s.workers| && s.workers[w].at == Looking && n > 0
    ensures Alone(s, Work(w, now, inside), n) == Alone(Looked(s, w, now), Work(w, now, inside), n - 1)
    ensures Inv(s) ==> Inv(Alone(s, Work(w, now, inside), n))
  {
    hide Inv, Looked, Worked;
    LooksFirst(s, w, now, inside);
    RunRepeated(s, Work(w, now, inside), n);
    if Inv(s) {
      RunFromInv(s, Repeated(Work(w, now, inside), n));
    }
  }

  /** The look, and what follows it. */
  lemma FrontEnds(s: Manager, w: nat, now: int)
    requires Idle(s) && w < |s.workers| && s.heap != [] && s.heap[0] in s.items && s.heap[0] < |s.tasks|
    requires now > s.items[s.heap[0]].maxStay
    ensures var id := s.heap[0];
            var t, a := s.tasks[id], Work(w, now, Nothing);
            var s' := Alone(s, a, if t.destroyed then 1 else 6);
            && Idle(s') && s'.items == s.items - {id} && |s'.workers| == |s.workers|
            && s'.tasks == if t.destroyed then s.tasks else s.tasks[id := GivenUp(t)]
  {
    hide Inv, Looked, Worked, Step;
    var id := s.heap[0];
    var t, a := s.tasks[id], Work(w, now, Nothing);
    LookStep(s, w, now, Nothing, if t.destroyed then 1 else 6);
    FrontLeaves(s, w, now);
    var s1 := Looked(s, w, now);
    if t.destroyed {
      assert Alone(s1, a, 0) == s1;
      IdleStill(s, s1, id);
    } else {
      TimesOut(s1, w, id, now);
      IdleStill(s, Alone(s1, a, 5), id);
    }
  }

  lemma FrontLeaves(s: Manager, w: nat, now: int)
    requires w < |s.workers| && s.workers[w].at == Looking
    requires s.heap != [] && s.heap[0] in s.items && s.heap[0] < |s.tasks| && now > s.items[s.heap[0]].maxStay
    ensures var id, s1 := s.heap[0], Looked(s, w, now);
            && s1.items == s.items - {id} && s1.tasks == s.tasks && s1.callers == s.callers
            && s1.workers == if s.tasks[id].destroyed then s.workers else s.workers[w := Worker(TimeLock, id)]
  {
    hide PopHeap;
  }

  /** Everything that is in the map out of time has ended, a live task by a time-out, and nothing else has. */
  ghost predicate TimedOut(s: Manager, s': Manager) {
    && |s'.tasks| == |s.tasks|
    && forall id | 0 <= id < |s.tasks| ::
         s'.tasks[id] == if id in s.items && !s.tasks[id].destroyed
                         then GivenUp(s.tasks[id]) else s.tasks[id]
  }

  lemma OneMoreTimedOut(s: Manager, s1: Manager, s': Manager, id: Id)
    requires id in s.items && id < |s.tasks| && s1.items == s.items - {id} && TimedOut(s1, s')
    requires var t := s.tasks[id];
             s1.tasks == if t.destroyed then s.tasks else s.tasks[id := GivenUp(t)]
    ensures TimedOut(s, s')
  {
  }

  lemma NoneLeft(s: Manager)
    requires s.items == map[]
    ensures Run(s, []) == s && TimedOut(s, s)
  {
  }

  /** A worker that is left alone once everything is out of time empties the map. */
  lemma {:induction false} EverythingEnds(s: Manager, w: nat, now: int) returns (actions: seq<Action>)
    requires Idle(s) && w < |s.workers| && forall id | id in s.items :: now > s.items[id].maxStay
    ensures var s' := Run(s, actions); s'.items == map[] && s'.heap == [] && TimedOut(s, s')
    decreases |s.items|
  {
    hide Idle, Alone, Step, Run, Repeated, TimedOut;
    IdleHeap(s);
    if s.heap == [] {
      actions := [];
      NoneLeft(s);
    } else {
      var id, a := s.heap[0], Work(w, now, Nothing);
      var n := if s.tasks[id].destroyed then 1 else 6;
      FrontEnds(s, w, now);
      var s1 := Alone(s, a, n);
      RunRepeated(s, a, n);
      var rest := EverythingEnds(s1, w, now);
      actions := Repeated(a, n) + rest;
      TaskExecutions.RunInTwo(s, Repeated(a, n), rest);
      OneMoreTimedOut(s, s1, Run(s1, rest), id);
    }
  }

  /** What an execution is to leave of a task: one that ends itself is ended, and returned if it asked. */
  function Executed(t: Task, inside: Inside): Task {
    match inside
    case Nothing => t.(executions := t.executions + 1)
    case Destroys => t.(executions := t.executions + 1, destroyed := true)
    case ClaimsItself =>
      t.(executions := t.executions + 1, destroyed := true, claims := t.claims + 1, returned := t.returned + 1)
  }

  /** And of the map: a task that ended itself leaves it, another waits for its time-out. */
  function ItemsAfter(items: map<Id, Item>, id: Id, inside: Inside): map<Id, Item>
    requires id in items
  {
    if inside == Nothing then items[id := items[id].(executed := true)] else items - {id}
  }

  /** Left alone, a worker executes a task that is due, once, and puts its item back to wait for its time-out,
      unless the task ended itself. */
  lemma DueIsExecuted(s: Manager, w: nat, now: int, inside: Inside)
    requires Idle(s) && w < |s.workers| && s.heap != [] && s.heap[0] in s.items && s.heap[0] < |s.tasks|
    requires var it := s.items[s.heap[0]]; it.executeAt < now <= it.maxStay && !it.executed
    requires !s.tasks[s.heap[0]].destroyed
    ensures var id, s' := s.heap[0], Run(s, Repeated(Work(w, now, inside), 7));
            && Idle(s') && s'.tasks == s.tasks[id := Executed(s.tasks[id], inside)]
            && s'.items == ItemsAfter(s.items, id, inside) && (inside == Nothing <==> id in s'.heap)
  {
    hide Inv, Looked, Worked, Step, Repeated, Run, Alone;
    var id, a := s.heap[0], Work(w, now, inside);
    RunRepeated(s, a, 7);
    LookStep(s, w, now, inside, 7);
    FrontCarried(s, w, now);
    var s1 := Looked(s, w, now);
    IsExecuted(s1, w, id, now, inside);
    var s' := Alone(s1, a, 6);
    IdleStill(s, s', id);
    IdleHeap(s');
    assert id in Ids(s'.heap) <==> id in s'.heap;
  }

  /** A task that has not ended, is not out of time, and is not due or was executed is left in the heap. */
  lemma NotYetIsLeft(s: Manager, w: nat, now: int)
    requires w < |s.workers| && s.workers[w].at == Looking && s.heap != [] && s.heap[0] in s.items
    requires s.heap[0] < |s.tasks| && !s.tasks[s.heap[0]].destroyed
    requires var it := s.items[s.heap[0]]; now <= it.maxStay && (now <= it.executeAt || it.executed)
    ensures forall inside :: Step(s, Work(w, now, inside)) == s
  {
    hide PopHeap;
  }

  lemma FrontCarried(s: Manager, w: nat, now: int)
    requires w < |s.workers| && s.workers[w].at == Looking
    requires s.heap != [] && s.heap[0] in s.items && s.heap[0] < |s.tasks| && !s.tasks[s.heap[0]].destroyed
    requires var it := s.items[s.heap[0]]; it.executeAt < now <= it.maxStay && !it.executed
    ensures var id, s1 := s.heap[0], Looked(s, w, now);
            && s1.items == s.items && s1.tasks == s.tasks && s1.callers == s.callers
            && s1.workers == s.workers[w := Worker(ExecLock, id)]
  {
    hide PopHeap;
  }

  lemma IsExecuted(s: Manager, w: nat, id: Id, now: int, inside: Inside)
    requires w < |s.workers| && s.workers[w] == Worker(ExecLock, id) && id < |s.tasks| && id in s.items
    requires s.tasks[id].lockedBy == 0 && !s.tasks[id].destroyed
    ensures var s' := Alone(s, Work(w, now, inside), 6);
            && s'.tasks == s.tasks[id := Executed(s.tasks[id], inside)]
            && s'.workers == s.workers[w := Worker(Looking, id)]
            && s'.items == ItemsAfter(s.items, id, inside) && s'.callers == s.callers
  {
    hide Step;
    var t, a := s.tasks[id], Work(w, now, inside);
    var done := Executed(t, inside).(lockedBy := w + 1);
    var s0 := s.(items := s.items[id := s.items[id].(executed := true)]);
    var s4 := WithTask(At(s0, w, ExecUnlock, id), id, done);
    ToExecution(s, w, id, now, inside);
    FromExecution(s4, w, id, now, inside);
    var s1 := Step(s, a);
    var s2 := Step(s1, a);
    assert Alone(s1, a, 5) == Alone(s2, a, 4);
    assert Alone(s2, a, 4) == Alone(s4, a, 3);
    var s5 := Step(s4, a);
    assert Alone(s5, a, 2) == Alone(Step(s5, a), a, 1);
    assert Alone(Step(s5, a), a, 1) == Alone(Step(Step(s5, a), a), a, 0);
    assert s.tasks[id := done][id := done.(lockedBy := 0)] == s.tasks[id := done.(lockedBy := 0)];
    assert s.items[id := s.items[id].(executed := true)] - {id} == s.items - {id};
  }

  lemma ToExecution(s: Manager, w: nat, id: Id, now: int, inside: Inside)
    requires w < |s.workers| && s.workers[w] == Worker(ExecLock, id) && id < |s.tasks| && id in s.items
    requires s.tasks[id].lockedBy == 0 && !s.tasks[id].destroyed
    ensures var a := Work(w, now, inside);
            var s0 := s.(items := s.items[id := s.items[id].(executed := true)]);
            Step(Step(Step(s, a), a), a)
            == WithTask(At(s0, w, ExecUnlock, id), id, Executed(s.tasks[id], inside).(lockedBy := w + 1))
  {
    hide SiftUp, Looked;
    var t, a := s.tasks[id], Work(w, now, inside);
    var s2 := WithTask(At(s, w, ExecCheck, id), id, t.(lockedBy := w + 1));
    var s3 := WithTask(At(s, w, ExecCall, id), id, t.(lockedBy := w + 1));
    assert Step(s, a) == s2;
    assert Step(s2, a) == s3;
  }

  lemma FromExecution(s: Manager, w: nat, id: Id, now: int, inside: Inside)
    requires w < |s.workers| && s.workers[w] == Worker(ExecUnlock, id) && id < |s.tasks|
    ensures var t, a := s.tasks[id], Work(w, now, inside);
            var s' := Step(Step(Step(s, a), a), a);
            && s'.tasks == s.tasks[id := t.(lockedBy := 0)] && s'.workers == s.workers[w := Worker(Looking, id)]
            && s'.items == (if t.destroyed then s.items - {id} else s.items) && s'.callers == s.callers
  {
    hide SiftUp, Looked;
    var t, a := s.tasks[id], Work(w, now, inside);
    var s2 := WithTask(At(s, w, ExecLook, id), id, t.(lockedBy := 0));
    var s3 := WithTask(At(s, w, if t.destroyed then Erase else PushBack, id), id, t.(lockedBy := 0));
    assert Step(s, a) == s2;
    assert Step(s2, a) == s3;
  }
}
