/** How often a task can be executed: at most once for each dispatch and once for each worker, and that
    often it can be.  A task that is out of time leaves the map before its mutex is taken, so it can be
    dispatched again while it is alive; the worker on its way to the mutex executes nothing meanwhile. */
module TaskExecutions {
  import opened BinaryHeap
  import opened Sums
  import opened TaskManagers

  /** The worker has taken the task out of the map, out of time, and has not yet ended it. */
  predicate Parked(x: Worker, id: Id) {
    x.id == id && x.at in {TimeLock, TimeCheck, TimeCall, TimeKill}
  }

  function Marks(ws: seq<Worker>, id: Id): (ns: seq<nat>)
    ensures |ns| == |ws|
  {
    seq(|ws|, k requires 0 <= k < |ws| => if Parked(ws[k], id) then 1 else 0)
  }

  function ParkedCount(ws: seq<Worker>, id: Id): nat {
    Sum(Marks(ws, id))
  }

  lemma ParkedUpdate(ws: seq<Worker>, w: nat, x: Worker, id: Id)
    requires w < |ws|
    ensures ParkedCount(ws[w := x], id)
            == ParkedCount(ws, id) - (if Parked(ws[w], id) then 1 else 0) + (if Parked(x, id) then 1 else 0)
  {
    var mark: nat := if Parked(x, id) then 1 else 0;
    assert Marks(ws[w := x], id) == Marks(ws, id)[w := mark];
    SumUpdate(Marks(ws, id), w, mark);
  }

  lemma {:induction false} SumOfMarks(ns: seq<nat>)
    requires forall k | 0 <= k < |ns| :: ns[k] <= 1
    ensures Sum(ns) <= |ns|
  {
    if ns != [] {
      SumOfMarks(ns[1..]);
    }
  }

  /** A worker that is not parked leaves room for one more. */
  lemma NotAllParked(ws: seq<Worker>, w: nat, id: Id)
    requires w < |ws| && !Parked(ws[w], id)
    ensures ParkedCount(ws, id) < |ws|
  {
    SumUpdate(Marks(ws, id), w, 1);
    SumOfMarks(Marks(ws, id)[w := 1]);
  }

  /** While the task lives, each execution but the current dispatch's has a worker parked at it. */
  ghost predicate Spent(s: Manager, id: Id) {
    && id < |s.tasks|
    && (forall w | 0 <= w < |s.workers| && s.workers[w].id == id ::
          s.workers[w].at in {SkipUnlock, Erase, TimeUnlock} ==> s.tasks[id].destroyed)
    && (!s.tasks[id].destroyed ==>
          s.tasks[id].executions + (if Pending(s, id) then 1 else 0)
          <= (if id in s.items then 1 else 0) + ParkedCount(s.workers, id))
    && s.tasks[id].executions <= |s.workers|
  }

  lemma LookedSpent(s: Manager, w: nat, now: int, id: Id)
    requires Inv(s) && Spent(s, id) && w < |s.workers| && s.workers[w].at == Looking
    ensures Spent(Looked(s, w, now), id)
  {
    var s' := Looked(s, w, now);
    LookedShape(s, w, now);
    ParkedUpdate(s.workers, w, s'.workers[w], id);
    hide PopHeap, Inv, ParkedCount;
    assert s'.workers[w].at in {Looking, TimeLock, ExecLock};
  }

  /** What a worker's step does to the account of one task. */
  lemma WorkedAccount(s: Manager, w: nat, now: int, inside: Inside, id: Id)
    requires Inv(s) && Spent(s, id) && w < |s.workers| && s.workers[w].at != Looking
    ensures var s', at := Worked(s, w, now, inside), s.workers[w].at;
            var mine := s.workers[w].id == id;
            && id < |s'.tasks|
            && (s.tasks[id].destroyed ==> s'.tasks[id].destroyed && s'.tasks[id].executions == s.tasks[id].executions)
            && (mine && at == ExecCall ==> !s.tasks[id].destroyed && Pending(s, id) && !Pending(s', id))
            && s'.tasks[id].executions == s.tasks[id].executions + (if mine && at == ExecCall then 1 else 0)
            && (Pending(s', id) ==> Pending(s, id))
            && (!s'.tasks[id].destroyed ==> id in s.items ==> id in s'.items)
            && (!s'.tasks[id].destroyed && Parked(s.workers[w], id) ==> Parked(s'.workers[w], id))
            && (s'.workers[w].id == id && s'.workers[w].at in {SkipUnlock, Erase, TimeUnlock} ==>
                  s'.tasks[id].destroyed)
  {
    hide SiftUp, Agreed, InOrder, TaskOk, CallerOk, ParkedCount;
    assert WorkerOk(s, w);
  }

  lemma WorkedSpent(s: Manager, w: nat, now: int, inside: Inside, id: Id)
    requires Inv(s) && Spent(s, id) && w < |s.workers| && s.workers[w].at != Looking
    ensures Spent(Worked(s, w, now, inside), id)
  {
    var s' := Worked(s, w, now, inside);
    WorkedShape(s, w, now, inside);
    WorkedAccount(s, w, now, inside, id);
    ParkedUpdate(s.workers, w, s'.workers[w], id);
    if !Parked(s.workers[w], id) {
      NotAllParked(s.workers, w, id);
    }
    hide Worked, Inv, ParkedCount, Pending;
  }

  lemma OthersSpent(s: Manager, a: Action, id: Id)
    requires Inv(s) && Spent(s, id) && !a.Work?
    ensures Spent(Step(s, a), id)
  {
    hide SiftUp, Inv, Worked, ParkedCount;
  }

  lemma StepSpent(s: Manager, a: Action, id: Id)
    requires Inv(s) && Spent(s, id)
    ensures Spent(Step(s, a), id)
  {
    match a {
      case Work(w, now, inside) =>
        hide Spent, Inv, Worked;
        if w < |s.workers| {
          if s.workers[w].at == Looking {
            LooksFirst(s, w, now, inside);
            LookedSpent(s, w, now, id);
          } else {
            WorkedSpent(s, w, now, inside, id);
          }
        }
      case _ => OthersSpent(s, a, id);
    }
  }

  lemma {:induction false} RunSpent(s: Manager, actions: seq<Action>, id: Id)
    requires Inv(s) && Spent(s, id)
    ensures Spent(Run(s, actions), id)
    decreases |actions|
  {
    if actions != [] {
      StepInv(s, actions[0]);
      StepSpent(s, actions[0], id);
      RunSpent(Step(s, actions[0]), actions[1..], id);
    }
  }

  /** Over every run a task is executed at most once for each dispatch, and at most once for each worker:
      with one worker, at most once whatever happens. */
  lemma ExecutionsBounded(certificates: seq<int>, workers: nat, callers: nat, actions: seq<Action>, id: Id)
    requires id < |certificates|
    ensures var s := Run(Initial(certificates, workers, callers), actions);
            && id < |s.tasks|
            && s.tasks[id].executions <= s.tasks[id].dispatches
            && s.tasks[id].executions <= workers
  {
    var s := Initial(certificates, workers, callers);
    InitialInv(certificates, workers, callers);
    SumOfZeros(Marks(s.workers, id));
    RunSpent(s, actions, id);
    RunFromInv(s, actions);
    RunKeepsWorkers(s, actions);
    assert TaskOk(Run(s, actions), id);
  }

  lemma {:induction false} RunKeepsWorkers(s: Manager, actions: seq<Action>)
    requires Inv(s)
    ensures |Run(s, actions).workers| == |s.workers|
    decreases |actions|
  {
    if actions != [] {
      StepInv(s, actions[0]);
      StepKeepsWorkers(s, actions[0]);
      RunKeepsWorkers(Step(s, actions[0]), actions[1..]);
    }
  }

  lemma StepKeepsWorkers(s: Manager, a: Action)
    ensures |Step(s, a).workers| == |s.workers|
  {
    hide SiftUp, PopHeap;
  }

  /** The first `k` of `n` workers are parked. */
  function Line(n: nat, k: nat): seq<Worker> {
    seq(n, i => Worker(if i < k then TimeLock else Looking, 0))
  }

  /** One task, executed `k` times, out of the map and alive. */
  function Parade(n: nat, k: nat): Manager {
    Manager(map[], [], [Task(7, false, 0, k, k, 0, 0, 0)], Line(n, k), [])
  }

  /** The task is dispatched again; the next worker executes it, puts it back, finds it out of time and
      takes it out of the map. */
  function Round(k: nat): seq<Action> {
    var work := Work(k, 5, Nothing);
    [Dispatch(0, 0, 10), work] + ([work, work, work] + ([work, work, work] + [Work(k, 20, Nothing)]))
  }

  function Rounds(k: nat): seq<Action> {
    if k == 0 then [] else Rounds(k - 1) + Round(k - 1)
  }

  /** A state within a round: where worker `k` is, and what map, heap and task are. */
  function Within(n: nat, k: nat, at: WorkerPoint, items: map<Id, Item>, heap: seq<Id>, t: Task): Manager
    requires k < n
  {
    Manager(items, heap, [t], Line(n, k)[k := Worker(at, 0)], [])
  }

  const FRESH_ITEM := Item(0, 10, false)
  const DONE_ITEM := Item(0, 10, true)

  lemma RoundBegins(n: nat, k: nat)
    requires k < n
    ensures var t := Task(7, false, 0, k + 1, k, 0, 0, 0);
            var work := Work(k, 5, Nothing);
            var s1 := Step(Parade(n, k), Dispatch(0, 0, 10));
            Step(s1, work) == Within(n, k, ExecLock, map[0 := FRESH_ITEM], [], t)
  {
    var t := Task(7, false, 0, k + 1, k, 0, 0, 0);
    var s1 := Step(Parade(n, k), Dispatch(0, 0, 10));
    assert s1 == Manager(map[0 := FRESH_ITEM], [0], [t], Line(n, k), []);
    PopOne(s1);
    hide PopHeap;
  }

  lemma PopOne(s: Manager)
    requires |s.heap| == 1
    ensures Popped(s) == s.(heap := [])
  {
    assert Popped(s).heap == [];
  }

  lemma RoundExecutes(n: nat, k: nat)
    requires k < n
    ensures var t := Task(7, false, 0, k + 1, k, 0, 0, 0);
            var work := Work(k, 5, Nothing);
            var s5 := Step(Step(Step(Within(n, k, ExecLock, map[0 := FRESH_ITEM], [], t), work), work), work);
            s5 == Within(n, k, ExecUnlock, map[0 := DONE_ITEM], [], t.(lockedBy := k + 1, executions := k + 1))
  {
    hide SiftUp, PopHeap;
    var t := Task(7, false, 0, k + 1, k, 0, 0, 0);
    var work := Work(k, 5, Nothing);
    var s3 := Step(Within(n, k, ExecLock, map[0 := FRESH_ITEM], [], t), work);
    assert s3 == Within(n, k, ExecCheck, map[0 := FRESH_ITEM], [], t.(lockedBy := k + 1));
    var s4 := Step(s3, work);
    assert s4 == Within(n, k, ExecCall, map[0 := FRESH_ITEM], [], t.(lockedBy := k + 1));
  }

  lemma RoundReturns(n: nat, k: nat)
    requires k < n
    ensures var t := Task(7, false, 0, k + 1, k + 1, 0, 0, 0);
            var work := Work(k, 5, Nothing);
            var s5 := Within(n, k, ExecUnlock, map[0 := DONE_ITEM], [], t.(lockedBy := k + 1));
            var s8 := Step(Step(Step(s5, work), work), work);
            s8 == Within(n, k, Looking, map[0 := DONE_ITEM], [0], t)
  {
    hide PopHeap;
    var t := Task(7, false, 0, k + 1, k + 1, 0, 0, 0);
    var work := Work(k, 5, Nothing);
    var s6 := Step(Within(n, k, ExecUnlock, map[0 := DONE_ITEM], [], t.(lockedBy := k + 1)), work);
    assert s6 == Within(n, k, ExecLook, map[0 := DONE_ITEM], [], t);
    var s7 := Step(s6, work);
    assert s7 == Within(n, k, PushBack, map[0 := DONE_ITEM], [], t);
  }

  lemma RoundParks(n: nat, k: nat)
    requires k < n
    ensures var t := Task(7, false, 0, k + 1, k + 1, 0, 0, 0);
            Step(Within(n, k, Looking, map[0 := DONE_ITEM], [0], t), Work(k, 20, Nothing)) == Parade(n, k + 1)
  {
    var t := Task(7, false, 0, k + 1, k + 1, 0, 0, 0);
    var s8 := Within(n, k, Looking, map[0 := DONE_ITEM], [0], t);
    PopOne(s8);
    hide PopHeap, SiftUp;
    assert Line(n, k)[k := Worker(TimeLock, 0)] == Line(n, k + 1);
  }

  lemma RunShort(s: Manager, a: Action, b: Action, c: Action)
    ensures Run(s, [a]) == Step(s, a)
    ensures Run(s, [a, b]) == Step(Step(s, a), b)
    ensures Run(s, [a, b, c]) == Step(Step(Step(s, a), b), c)
  {
    hide Step;
    assert [a, b, c][1..] == [b, c] && [b, c][1..] == [c] && [a, b][1..] == [b];
    var s1 := Step(s, a);
    var s2 := Step(s1, b);
    assert Run(s2, [c]) == Run(Step(s2, c), []);
    assert Run(s1, [b]) == Run(s2, []);
    assert Run(s1, [b, c]) == Run(s2, [c]);
    assert Run(s, [a]) == Run(s1, []);
  }

  lemma OneRound(n: nat, k: nat)
    requires k < n
    ensures Run(Parade(n, k), Round(k)) == Parade(n, k + 1)
  {
    var work, d, l := Work(k, 5, Nothing), Dispatch(0, 0, 10), Work(k, 20, Nothing);
    var first, three := [d, work], [work, work, work];
    RoundBegins(n, k);
    RoundExecutes(n, k);
    RoundReturns(n, k);
    RoundParks(n, k);
    assert Round(k) == first + (three + (three + [l]));
    hide *;
    var s0 := Parade(n, k);
    RunShort(s0, d, work, work);
    var s2 := Run(s0, first);
    RunShort(s2, work, work, work);
    var s5 := Run(s2, three);
    RunShort(s5, work, work, work);
    var s8 := Run(s5, three);
    RunShort(s8, l, l, l);
    RunInTwo(s0, first, three + (three + [l]));
    RunInTwo(s2, three, three + [l]);
    RunInTwo(s5, three, [l]);
  }

  lemma {:induction false} RunInTwo(s: Manager, first: seq<Action>, second: seq<Action>)
    ensures Run(s, first + second) == Run(Run(s, first), second)
    decreases |first|
  {
    if first == [] {
      assert first + second == second;
    } else {
      hide Step;
      assert (first + second)[1..] == first[1..] + second;
      RunInTwo(Step(s, first[0]), first[1..], second);
    }
  }

  lemma {:induction false} ManyRounds(n: nat, k: nat)
    requires k <= n
    ensures Run(Parade(n, 0), Rounds(k)) == Parade(n, k)
    decreases k
  {
    if k > 0 {
      ManyRounds(n, k - 1);
      OneRound(n, k - 1);
      hide Step, Parade, Round;
      RunInTwo(Parade(n, 0), Rounds(k - 1), Round(k - 1));
    }
  }

  /** The bounds are met: with any number of workers a run executes a task that many times, for that many
      dispatches, and it is still alive. */
  lemma BoundIsMet(n: nat)
    ensures var s := Run(Initial([7], n, 0), Rounds(n));
            s.tasks == [Task(7, false, 0, n, n, 0, 0, 0)]
  {
    ManyRounds(n, n);
    assert Initial([7], n, 0) == Parade(n, 0);
  }
}
