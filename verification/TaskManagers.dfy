/** The timed task manager: its heap and id map, any number of workers, any number of threads that
    dispatch and destroy tasks, in every interleaving.  A section under the manager's mutex is one
    step; so is each call made under a task's own mutex. */
module TaskManagers {
  import opened BinaryHeap
  import opened Sums

  type Id = nat

  /** An entry of the manager: when to execute, when to give up, and whether it was executed. */
  datatype Item = Item(executeAt: int, maxStay: int, executed: bool) {
    function SortKey(): Key {
      Key(if executed then maxStay else executeAt, 0.0)
    }
  }

  /** A task, its mutex (`lockedBy` is 0 when it is free), and what happened to it so far:
      successful dispatches, `execute` and `timeout` calls, `destroy` calls of the manager that found
      it alive, and those that have `returned` it. */
  datatype Task = Task(certificate: int, destroyed: bool, lockedBy: nat,
                       dispatches: nat, executions: nat, timeouts: nat, claims: nat, returned: nat)

  datatype WorkerPoint =
    | Looking
    | TimeLock | TimeCheck | TimeCall | TimeKill | TimeUnlock
    | ExecLock | ExecCheck | ExecCall | ExecUnlock | ExecLook | SkipUnlock | Erase | PushBack

  datatype Worker = Worker(at: WorkerPoint, id: Id) {
    predicate Holds() {
      at in {TimeCheck, TimeCall, TimeKill, TimeUnlock, ExecCheck, ExecCall, ExecUnlock, SkipUnlock}
    }

    /** The worker has taken the item off the heap to execute its task. */
    predicate Carries() {
      at in {ExecLock, ExecCheck, ExecCall, ExecUnlock, ExecLook, SkipUnlock, Erase, PushBack}
    }
  }

  datatype CallerPoint = Resting | DestroyLock | DestroyCheck | DestroyKill | UnlockWon | UnlockLost

  datatype Caller = Caller(at: CallerPoint, id: Id) {
    predicate Holds() {
      at in {DestroyCheck, DestroyKill, UnlockWon, UnlockLost}
    }
  }

  datatype Manager = Manager(items: map<Id, Item>, heap: seq<Id>, tasks: seq<Task>,
                             workers: seq<Worker>, callers: seq<Caller>)

  /** What a task's `execute` does to the task itself: nothing, `destroy()`, or asking the manager to
      destroy it, which its recursive mutex lets through. */
  datatype Inside = Nothing | Destroys | ClaimsItself

  datatype Action =
    | Dispatch(id: Id, executeAt: int, maxStay: int)
    | Work(worker: nat, now: int, inside: Inside)
    | Destroy(caller: nat, id: Id, certificate: int)
    | Continue(caller: nat)

  function Keys(items: map<Id, Item>): map<Id, Key> {
    map id | id in items :: items[id].SortKey()
  }

  function Initial(certificates: seq<int>, workers: nat, callers: nat): Manager {
    Manager(map[], [],
            seq(|certificates|, k requires 0 <= k < |certificates| => Task(certificates[k], false, 0, 0, 0, 0, 0, 0)),
            seq(workers, _ => Worker(Looking, 0)), seq(callers, _ => Caller(Resting, 0)))
  }

  function Pushed(s: Manager, id: Id): Manager {
    s.(heap := SiftUp(s.heap + [id], Keys(s.items), |s.heap|))
  }

  function Popped(s: Manager): Manager
    requires |s.heap| > 0
  {
    s.(heap := PopHeap(s.heap, Keys(s.items))[..|s.heap| - 1])
  }

  function At(s: Manager, w: nat, at: WorkerPoint, id: Id): Manager
    requires w < |s.workers|
  {
    s.(workers := s.workers[w := Worker(at, id)])
  }

  function CallerAt(s: Manager, c: nat, at: CallerPoint, id: Id): Manager
    requires c < |s.callers|
  {
    s.(callers := s.callers[c := Caller(at, id)])
  }

  function WithTask(s: Manager, id: Id, t: Task): (s': Manager)
    requires id < |s.tasks|
    ensures |s'.tasks| == |s.tasks|
  {
    s.(tasks := s.tasks[id := t])
  }

  /** The section in which a worker looks at the front of the heap. */
  function Looked(s: Manager, w: nat, now: int): Manager
    requires w < |s.workers|
  {
    if s.heap == [] then s
    else
      var id := s.heap[0];
      if id !in s.items || id >= |s.tasks| then s
      else
        var it := s.items[id];
        if s.tasks[id].destroyed then Popped(s).(items := s.items - {id})
        else if now > it.maxStay then At(Popped(s).(items := s.items - {id}), w, TimeLock, id)
        else if now > it.executeAt && !it.executed then At(Popped(s), w, ExecLock, id)
        else s
  }

  function Worked(s: Manager, w: nat, now: int, inside: Inside): Manager
    requires w < |s.workers|
  {
    var Worker(at, id) := s.workers[w];
    if at == Looking then Looked(s, w, now)
    else if id >= |s.tasks| then s
    else
      var t := s.tasks[id];
      match at
      case TimeLock => if t.lockedBy == 0 then WithTask(At(s, w, TimeCheck, id), id, t.(lockedBy := w + 1)) else s
      case TimeCheck => At(s, w, if t.destroyed then TimeUnlock else TimeCall, id)
      case TimeCall => WithTask(At(s, w, TimeKill, id), id, t.(timeouts := t.timeouts + 1))
      case TimeKill => WithTask(At(s, w, TimeUnlock, id), id, t.(destroyed := true))
      case TimeUnlock => WithTask(At(s, w, Looking, id), id, t.(lockedBy := 0))
      case ExecLock => if t.lockedBy == 0 then WithTask(At(s, w, ExecCheck, id), id, t.(lockedBy := w + 1)) else s
      case ExecCheck => At(s, w, if t.destroyed then SkipUnlock else ExecCall, id)
      case ExecCall =>
        var done := t.(executions := t.executions + 1);
        var after := match inside
                     case Nothing => done
                     case Destroys => done.(destroyed := true)
                     case ClaimsItself => done.(destroyed := true, claims := t.claims + 1, returned := t.returned + 1);
        var marked := if id in s.items then s.(items := s.items[id := s.items[id].(executed := true)]) else s;
        WithTask(At(marked, w, ExecUnlock, id), id, after)
      case ExecUnlock => WithTask(At(s, w, ExecLook, id), id, t.(lockedBy := 0))
      case ExecLook => At(s, w, if t.destroyed then Erase else PushBack, id)
      case SkipUnlock => WithTask(At(s, w, Erase, id), id, t.(lockedBy := 0))
      case Erase => At(s.(items := s.items - {id}), w, Looking, id)
      case PushBack => At(Pushed(s, id), w, Looking, id)
  }

  function Continued(s: Manager, c: nat): Manager
    requires c < |s.callers|
  {
    var Caller(at, id) := s.callers[c];
    if id >= |s.tasks| then s
    else
      var t := s.tasks[id];
      match at
      case Resting => s
      case DestroyLock =>
        if t.lockedBy != 0 then s
        else WithTask(CallerAt(s, c, DestroyCheck, id), id, t.(lockedBy := |s.workers| + c + 1))
      case DestroyCheck => CallerAt(s, c, if t.destroyed then UnlockLost else DestroyKill, id)
      case DestroyKill => WithTask(CallerAt(s, c, UnlockWon, id), id, t.(destroyed := true, claims := t.claims + 1))
      case UnlockWon => WithTask(CallerAt(s, c, Resting, id), id, t.(lockedBy := 0, returned := t.returned + 1))
      case UnlockLost => WithTask(CallerAt(s, c, Resting, id), id, t.(lockedBy := 0))
  }

  function Dispatched(s: Manager, id: Id, executeAt: int, maxStay: int): Manager {
    if id in s.items || id >= |s.tasks| then s
    else
      var t := s.tasks[id];
      var s1 := WithTask(s, id, t.(dispatches := t.dispatches + 1));
      Pushed(s1.(items := s.items[id := Item(executeAt, maxStay, false)]), id)
  }

  function Step(s: Manager, a: Action): Manager {
    match a
    case Dispatch(id, executeAt, maxStay) => Dispatched(s, id, executeAt, maxStay)
    case Work(w, now, inside) => if w < |s.workers| then Worked(s, w, now, inside) else s
    case Destroy(c, id, certificate) =>
      if c < |s.callers| && s.callers[c].at == Resting
         && id in s.items && id < |s.tasks| && s.tasks[id].certificate == certificate
      then CallerAt(s, c, DestroyLock, id) else s
    case Continue(c) => if c < |s.callers| then Continued(s, c) else s
  }

  function Run(s: Manager, actions: seq<Action>): Manager
    decreases |actions|
  {
    if actions == [] then s else Run(Step(s, actions[0]), actions[1..])
  }

  ghost function Ids(heap: seq<Id>): set<Id> {
    set id | id in heap
  }

  ghost function CarriedIds(ws: seq<Worker>): set<Id> {
    set w | 0 <= w < |ws| && ws[w].Carries() :: ws[w].id
  }

  /** Every entry is in the heap, once, or in the hands of exactly one worker. */
  ghost predicate Matched(entries: set<Id>, heap: seq<Id>, ws: seq<Worker>) {
    && Distinct(heap)
    && entries == Ids(heap) + CarriedIds(ws)
    && Ids(heap) !! CarriedIds(ws)
    && (forall v, w | 0 <= v < w < |ws| && ws[v].Carries() && ws[w].Carries() :: ws[v].id != ws[w].id)
  }

  /** The manager's map and its heap agree, and all entries are of tasks there are. */
  ghost predicate Agreed(s: Manager) {
    && Matched(s.items.Keys, s.heap, s.workers)
    && (forall id | id in s.items :: id < |s.tasks|)
  }

  ghost predicate InOrder(s: Manager) {
    IsHeap(s.heap, Keys(s.items), |s.heap|)
  }

  lemma InitialAgreed(certificates: seq<int>, workers: nat, callers: nat)
    ensures Agreed(Initial(certificates, workers, callers)) && InOrder(Initial(certificates, workers, callers))
  {
  }

  lemma Carrying(ws: seq<Worker>, w: nat, x: Worker)
    requires w < |ws|
    requires forall v | 0 <= v < |ws| && v != w && ws[v].Carries() && ws[w].Carries() :: ws[v].id != ws[w].id
    ensures CarriedIds(ws[w := x]) == CarriedIds(ws) - (if ws[w].Carries() then {ws[w].id} else {})
                                      + (if x.Carries() then {x.id} else {})
  {
    var us := ws[w := x];
    forall id | id in CarriedIds(ws) && !(ws[w].Carries() && id == ws[w].id)
      ensures id in CarriedIds(us)
    {
      var v :| 0 <= v < |ws| && ws[v].Carries() && ws[v].id == id;
      assert us[v] == ws[v];
    }
    if x.Carries() {
      assert us[w] == x;
    }
  }

  /** The worker at `w` turns into `x`, and its item, if that changes hands, goes to or comes from
      the heap or leaves the map. */
  lemma MatchedStill(entries: set<Id>, heap: seq<Id>, ws: seq<Worker>, w: nat, x: Worker,
                     entries': set<Id>, heap': seq<Id>)
    requires Matched(entries, heap, ws) && w < |ws| && Distinct(heap')
    requires x.Carries() ==> (ws[w].Carries() && x.id == ws[w].id) || x.id !in CarriedIds(ws)
    requires var taken := if x.Carries() then {x.id} else {};
             var given := if ws[w].Carries() then {ws[w].id} else {};
             entries' == Ids(heap') + (CarriedIds(ws) - given + taken) && Ids(heap') !! (CarriedIds(ws) - given + taken)
    ensures Matched(entries', heap', ws[w := x])
  {
    Carrying(ws, w, x);
    hide Distinct;
    forall v | 0 <= v < |ws| && v != w && ws[v].Carries() && x.Carries()
      ensures ws[v].id != x.id
    {
      assert ws[v].id in CarriedIds(ws);
    }
  }

  lemma SameKeysInHeap(s: Manager, items: map<Id, Item>)
    requires InOrder(s) && forall id | id in s.heap :: id in s.items && id in items && items[id] == s.items[id]
    ensures IsHeap(s.heap, Keys(items), |s.heap|)
  {
    HeapOfPrefix(s.heap, Keys(s.items), |s.heap|, Keys(items));
    assert s.heap[..|s.heap|] == s.heap;
  }

  lemma PoppedAgrees(s: Manager)
    requires Distinct(s.heap) && InOrder(s) && |s.heap| > 0
    ensures var p := Popped(s);
            Distinct(p.heap) && InOrder(p) && Ids(p.heap) == Ids(s.heap) - {s.heap[0]}
  {
    FrontRemoved(s.heap, Keys(s.items));
    OneLeft(s.heap, s.heap[0], Popped(s).heap);
  }

  lemma PushedAgrees(s: Manager, id: Id)
    requires Distinct(s.heap) && InOrder(s) && id !in s.heap
    ensures var p := Pushed(s, id);
            Distinct(p.heap) && InOrder(p) && Ids(p.heap) == Ids(s.heap) + {id}
  {
    InsertedLast(s.heap, Keys(s.items), id);
    var p := Pushed(s, id);
    forall x
      ensures x in p.heap <==> x in s.heap || x == id
    {
      assert x in p.heap <==> x in multiset(p.heap);
      assert x in s.heap <==> x in multiset(s.heap);
    }
  }

  /** The item taken off the heap goes out of the map, or into the hands of a worker. */
  lemma TakenAgrees(s: Manager, w: nat, x: Worker, items: map<Id, Item>)
    requires Agreed(s) && InOrder(s) && w < |s.workers| && !s.workers[w].Carries() && s.heap != []
    requires x.Carries() ==> x.id == s.heap[0]
    requires items == if x.Carries() then s.items else s.items - {s.heap[0]}
    ensures var s' := Popped(s).(items := items, workers := s.workers[w := x]);
            Agreed(s') && InOrder(s')
  {
    var p := Popped(s);
    var id := s.heap[0];
    PoppedAgrees(s);
    assert id in Ids(s.heap);
    assert forall y | y in p.heap :: y in Ids(p.heap);
    SameKeysInHeap(p, items);
    hide IsHeap, Distinct, PopHeap;
    assert items.Keys == if x.Carries() then s.items.Keys else s.items.Keys - {id};
    MatchedStill(s.items.Keys, s.heap, s.workers, w, x, items.Keys, p.heap);
  }

  lemma LookedAgrees(s: Manager, w: nat, now: int)
    requires Agreed(s) && InOrder(s) && w < |s.workers| && s.workers[w].at == Looking
    ensures Agreed(Looked(s, w, now)) && InOrder(Looked(s, w, now))
  {
    if s.heap != [] {
      var id := s.heap[0];
      TakenAgrees(s, w, s.workers[w], s.items - {id});
      assert s.workers[w := s.workers[w]] == s.workers;
      TakenAgrees(s, w, Worker(TimeLock, id), s.items - {id});
      TakenAgrees(s, w, Worker(ExecLock, id), s.items);
      hide IsHeap, Matched, PopHeap;
    }
  }

  lemma WorkedShape(s: Manager, w: nat, now: int, inside: Inside)
    requires w < |s.workers| && s.workers[w].at != Looking
    ensures var Worker(at, id) := s.workers[w];
            var s' := Worked(s, w, now, inside);
            && s'.workers == s.workers[w := s'.workers[w]] && |s'.tasks| == |s.tasks|
            && (s'.workers[w].Carries() ==> s.workers[w].Carries() && s'.workers[w].id == id)
            && (if id < |s.tasks| && at == Erase then s'.items == s.items - {id} && !s'.workers[w].Carries()
                else if id < |s.tasks| && at == PushBack then s'.items == s.items && !s'.workers[w].Carries()
                else s'.items.Keys == s.items.Keys && s'.workers[w].Carries() == s.workers[w].Carries())
            && (if id < |s.tasks| && at == PushBack then s'.heap == Pushed(s, id).heap else s'.heap == s.heap)
            && (forall x | x in s.items && x in s'.items && !(x == id && s.workers[w].Carries()) ::
                  s'.items[x] == s.items[x])
  {
    hide SiftUp;
  }

  /** All that a worker does with an item, and where it goes next. */
  lemma WorkedAgrees(s: Manager, w: nat, now: int, inside: Inside)
    requires Agreed(s) && InOrder(s) && w < |s.workers| && s.workers[w].at != Looking
    ensures Agreed(Worked(s, w, now, inside)) && InOrder(Worked(s, w, now, inside))
  {
    var Worker(at, id) := s.workers[w];
    var s' := Worked(s, w, now, inside);
    WorkedShape(s, w, now, inside);
    hide Worked;
    if s.workers[w].Carries() {
      assert id in CarriedIds(s.workers) && id !in Ids(s.heap);
    }
    assert forall y | y in s.heap :: y in Ids(s.heap);
    if id < |s.tasks| && at == PushBack {
      PushedAgrees(s, id);
    } else {
      SameKeysInHeap(s, s'.items);
    }
    hide IsHeap, Distinct, Pushed, Keys;
    MatchedStill(s.items.Keys, s.heap, s.workers, w, s'.workers[w], s'.items.Keys, s'.heap);
  }

  lemma ContinuedAgrees(s: Manager, c: nat)
    requires Agreed(s) && InOrder(s) && c < |s.callers|
    ensures Agreed(Continued(s, c)) && InOrder(Continued(s, c))
  {
    hide IsHeap, Matched;
    var s' := Continued(s, c);
    assert s'.items == s.items && s'.heap == s.heap && s'.workers == s.workers && |s'.tasks| == |s.tasks|;
  }

  lemma DispatchedAgrees(s: Manager, id: Id, executeAt: int, maxStay: int)
    requires Agreed(s) && InOrder(s)
    ensures Agreed(Dispatched(s, id, executeAt, maxStay)) && InOrder(Dispatched(s, id, executeAt, maxStay))
  {
    if id !in s.items && id < |s.tasks| {
      var t := s.tasks[id];
      var s0 := WithTask(s, id, t.(dispatches := t.dispatches + 1));
      var s1 := s0.(items := s.items[id := Item(executeAt, maxStay, false)]);
      assert forall x | x in s.heap :: x in Ids(s.heap);
      assert id !in Ids(s.heap) && id !in CarriedIds(s.workers);
      SameKeysInHeap(s, s1.items);
      PushedAgrees(s1, id);
      hide IsHeap, Distinct, SiftUp;
    }
  }

  lemma StepAgrees(s: Manager, a: Action)
    requires Agreed(s) && InOrder(s)
    ensures Agreed(Step(s, a)) && InOrder(Step(s, a))
  {
    hide IsHeap, Matched, Dispatched, Looked, Continued;
    match a {
      case Dispatch(id, executeAt, maxStay) => DispatchedAgrees(s, id, executeAt, maxStay);
      case Work(w, now, inside) =>
        if w < |s.workers| {
          if s.workers[w].at == Looking {
            assert Step(s, a) == Looked(s, w, now);
            LookedAgrees(s, w, now);
          } else {
            hide Worked;
            WorkedAgrees(s, w, now, inside);
          }
        }
      case Destroy(c, id, certificate) =>
      case Continue(c) => if c < |s.callers| { ContinuedAgrees(s, c); }
    }
  }

  /** Over every run, whenever the manager's mutex is free: the ids in the map are those in the heap
      and those of the items workers hold, with none in two places; and the heap is in order, although
      execution changes an item's key. */
  lemma {:induction false} MapAndHeapAgree(s: Manager, actions: seq<Action>)
    requires Agreed(s) && InOrder(s)
    ensures Agreed(Run(s, actions)) && InOrder(Run(s, actions))
    decreases |actions|
  {
    if actions != [] {
      StepAgrees(s, actions[0]);
      MapAndHeapAgree(Step(s, actions[0]), actions[1..]);
    }
  }

  /** Something is to be done with the item: its task is destroyed, it is out of time, or it is time
      to execute it. */
  predicate Actionable(s: Manager, id: Id, now: int)
    requires id in s.items && id < |s.tasks|
  {
    var it := s.items[id];
    s.tasks[id].destroyed || now > it.maxStay || (now > it.executeAt && !it.executed)
  }

  /** If no item gives up before it executes, then as soon as any item in the heap is due the front
      is actionable: the worker that looks at the front alone misses nothing. */
  lemma FrontIsActionable(s: Manager, id: Id, now: int)
    requires Agreed(s) && InOrder(s) && id in s.heap && id in s.items
    requires forall x | x in s.items :: s.items[x].maxStay >= s.items[x].executeAt
    requires now > s.items[id].maxStay || (now > s.items[id].executeAt && !s.items[id].executed)
    ensures s.heap[0] in s.items && s.heap[0] < |s.tasks| && Actionable(s, s.heap[0], now)
  {
    assert forall x | x in s.heap :: x in Ids(s.heap);
    var k :| 0 <= k < |s.heap| && s.heap[k] == id;
    FrontIsLeast(s.heap, Keys(s.items), |s.heap|, k);
  }

  /** The task gives up no later than it is to be executed, and nobody is about to execute it. */
  ghost predicate Hopeless(s: Manager, id: Id) {
    && (id in s.items ==> s.items[id].maxStay <= s.items[id].executeAt)
    && (forall w | 0 <= w < |s.workers| && s.workers[w].at in {ExecLock, ExecCheck, ExecCall} :: s.workers[w].id != id)
  }

  /** A task whose time-outs come no later than its executions are due, as with the overload of `dispatch`
      that is given one time for both, is never executed, whatever the others do. */
  lemma {:induction false} NothingExecuted(s: Manager, actions: seq<Action>, id: Id)
    requires Hopeless(s, id) && id < |s.tasks|
    requires forall k | 0 <= k < |actions| && actions[k].Dispatch? && actions[k].id == id ::
               actions[k].maxStay <= actions[k].executeAt
    ensures Hopeless(Run(s, actions), id) && |Run(s, actions).tasks| == |s.tasks|
    ensures Run(s, actions).tasks[id].executions == s.tasks[id].executions
    decreases |actions|
  {
    if actions != [] {
      StaysHopeless(s, actions[0], id);
      NothingExecuted(Step(s, actions[0]), actions[1..], id);
    }
  }

  lemma StaysHopeless(s: Manager, a: Action, id: Id)
    requires Hopeless(s, id) && id < |s.tasks|
    requires a.Dispatch? && a.id == id ==> a.maxStay <= a.executeAt
    ensures Hopeless(Step(s, a), id) && |Step(s, a).tasks| == |s.tasks|
    ensures Step(s, a).tasks[id].executions == s.tasks[id].executions
  {
    match a {
      case Work(w, now, inside) =>
        hide Hopeless, Worked, Looked;
        if w < |s.workers| {
          if s.workers[w].at == Looking {
            LooksFirst(s, w, now, inside);
            LookedHopeless(s, w, now, id);
          } else {
            WorkedHopeless(s, w, now, inside, id);
          }
        }
      case _ =>
        hide Worked, SiftUp;
    }
  }

  lemma LookedHopeless(s: Manager, w: nat, now: int, id: Id)
    requires Hopeless(s, id) && w < |s.workers| && s.workers[w].at == Looking
    ensures Hopeless(Looked(s, w, now), id) && Looked(s, w, now).tasks == s.tasks
  {
    hide PopHeap;
  }

  lemma WorkedHopeless(s: Manager, w: nat, now: int, inside: Inside, id: Id)
    requires Hopeless(s, id) && id < |s.tasks| && w < |s.workers| && s.workers[w].at != Looking
    ensures var s' := Worked(s, w, now, inside);
            && Hopeless(s', id) && |s'.tasks| == |s.tasks| && s'.tasks[id].executions == s.tasks[id].executions
  {
    hide SiftUp, Looked;
  }

  lemma LooksFirst(s: Manager, w: nat, now: int, inside: Inside)
    requires w < |s.workers| && s.workers[w].at == Looking
    ensures Worked(s, w, now, inside) == Looked(s, w, now)
  {
  }

  /** A worker that looks takes the front off exactly when it is actionable. */
  lemma LookTakesActionable(s: Manager, w: nat, now: int)
    requires Agreed(s) && InOrder(s) && w < |s.workers| && s.workers[w].at == Looking && s.heap != []
    ensures s.heap[0] in s.items && s.heap[0] < |s.tasks|
    ensures Looked(s, w, now).heap == s.heap <==> !Actionable(s, s.heap[0], now)
    ensures Actionable(s, s.heap[0], now) ==> Ids(Looked(s, w, now).heap) == Ids(s.heap) - {s.heap[0]}
  {
    assert s.heap[0] in Ids(s.heap);
    PoppedAgrees(s);
  }

  /** What a worker knows while it is at a point of its loop: whoever holds a task's mutex is named
      in it; nobody gives up, executes or kills a destroyed task, and only what was never executed
      is executed. */
  ghost predicate WorkerOk(s: Manager, w: nat)
    requires w < |s.workers|
  {
    var Worker(at, id) := s.workers[w];
    at != Looking ==>
      && id < |s.tasks|
      && (s.workers[w].Holds() ==> s.tasks[id].lockedBy == w + 1)
      && (at == TimeCall ==> !s.tasks[id].destroyed && s.tasks[id].timeouts == 0)
      && (at == TimeKill ==> !s.tasks[id].destroyed && s.tasks[id].timeouts == 1)
      && (at == ExecCall ==> !s.tasks[id].destroyed)
      && (at in {ExecLock, ExecCheck, ExecCall} ==> id in s.items && !s.items[id].executed)
  }

  ghost predicate CallerOk(s: Manager, c: nat)
    requires c < |s.callers|
  {
    var Caller(at, id) := s.callers[c];
    at != Resting ==>
      && id < |s.tasks|
      && (s.callers[c].Holds() ==> s.tasks[id].lockedBy == |s.workers| + c + 1)
      && (at == DestroyKill ==> !s.tasks[id].destroyed && s.tasks[id].timeouts == 0)
  }

  /** A worker has called `timeout` and not yet `destroy`; a caller has won the task and not yet
      returned it. */
  predicate GivingUp(s: Manager, id: Id)
    requires id < |s.tasks|
  {
    0 < s.tasks[id].lockedBy <= |s.workers| && s.workers[s.tasks[id].lockedBy - 1] == Worker(TimeKill, id)
  }

  predicate Winning(s: Manager, id: Id)
    requires id < |s.tasks|
  {
    |s.workers| < s.tasks[id].lockedBy <= |s.workers| + |s.callers|
    && s.callers[s.tasks[id].lockedBy - |s.workers| - 1] == Caller(UnlockWon, id)
  }

  predicate Pending(s: Manager, id: Id) {
    id in s.items && !s.items[id].executed
  }

  ghost predicate TaskOk(s: Manager, id: Id)
    requires id < |s.tasks|
  {
    var t := s.tasks[id];
    && t.timeouts + t.claims <= 1
    && (!t.destroyed ==> t.claims == 0 && (t.timeouts == 0 || GivingUp(s, id)))
    && t.claims == t.returned + (if Winning(s, id) then 1 else 0)
    && t.executions + (if Pending(s, id) then 1 else 0) <= t.dispatches
  }

  ghost predicate Inv(s: Manager) {
    && Agreed(s)
    && InOrder(s)
    && (forall w | 0 <= w < |s.workers| :: WorkerOk(s, w))
    && (forall c | 0 <= c < |s.callers| :: CallerOk(s, c))
    && (forall id | 0 <= id < |s.tasks| :: TaskOk(s, id))
  }

  lemma InitialInv(certificates: seq<int>, workers: nat, callers: nat)
    ensures Inv(Initial(certificates, workers, callers))
  {
    InitialAgreed(certificates, workers, callers);
  }

  lemma LookedShape(s: Manager, w: nat, now: int)
    requires w < |s.workers| && s.workers[w].at == Looking
    ensures var s' := Looked(s, w, now);
            && s'.tasks == s.tasks && s'.callers == s.callers
            && s'.workers == s.workers[w := s'.workers[w]]
            && (s'.items == s.items || (s.heap != [] && s'.items == s.items - {s.heap[0]}))
            && (s'.workers[w].at != Looking ==>
                  && s.heap != [] && s'.workers[w].id == s.heap[0] < |s.tasks|
                  && s'.workers[w].at in {TimeLock, ExecLock}
                  && (s'.workers[w].at == ExecLock ==> s'.items == s.items && Pending(s, s.heap[0])))
  {
    hide PopHeap;
  }

  lemma LookedOthers(s: Manager, w: nat, now: int, v: nat)
    requires Inv(s) && w < |s.workers| && s.workers[w].at == Looking && v < |s.workers|
    ensures |Looked(s, w, now).workers| == |s.workers| && WorkerOk(Looked(s, w, now), v)
  {
    LookedShape(s, w, now);
    assert WorkerOk(s, v);
    var x := s.workers[v];
    if x.Carries() && s.heap != [] {
      assert s.heap[0] in Ids(s.heap) && x.id in CarriedIds(s.workers);
    }
    hide InOrder, Looked, Matched, TaskOk, CallerOk, Ids, CarriedIds;
  }

  lemma LookedRest(s: Manager, w: nat, now: int)
    requires Inv(s) && w < |s.workers| && s.workers[w].at == Looking
    ensures var s' := Looked(s, w, now);
            && (forall c | 0 <= c < |s'.callers| :: CallerOk(s', c))
            && (forall x | 0 <= x < |s'.tasks| :: TaskOk(s', x))
  {
    var s' := Looked(s, w, now);
    LookedShape(s, w, now);
    hide InOrder, Looked, Agreed, WorkerOk;
    forall c | 0 <= c < |s'.callers|
      ensures CallerOk(s', c)
    {
      assert CallerOk(s, c);
    }
    hide CallerOk;
    forall x | 0 <= x < |s'.tasks|
      ensures TaskOk(s', x)
    {
      assert TaskOk(s, x);
    }
  }

  lemma LookedInv(s: Manager, w: nat, now: int)
    requires Inv(s) && w < |s.workers| && s.workers[w].at == Looking
    ensures Inv(Looked(s, w, now))
  {
    var s' := Looked(s, w, now);
    LookedAgrees(s, w, now);
    LookedShape(s, w, now);
    LookedRest(s, w, now);
    hide InOrder, Looked, Agreed, WorkerOk, CallerOk, TaskOk;
    forall v | 0 <= v < |s'.workers|
      ensures WorkerOk(s', v)
    {
      LookedOthers(s, w, now, v);
    }
  }

  /** What a worker's step leaves alone: a task whose mutex another holds, and what is known of the
      items in other hands. */
  lemma WorkedFrame(s: Manager, w: nat, now: int, inside: Inside)
    requires Inv(s) && w < |s.workers| && s.workers[w].at != Looking
    ensures var Worker(at, id) := s.workers[w];
            var s' := Worked(s, w, now, inside);
            && id < |s.tasks| && s'.callers == s.callers
            && (forall x | 0 <= x < |s.tasks| && x != id :: s'.tasks[x] == s.tasks[x])
            && (s'.tasks[id] != s.tasks[id] ==>
                  s.tasks[id].lockedBy == 0 || (s.tasks[id].lockedBy == w + 1 && s.workers[w].Holds()))
            && (s'.tasks[id].lockedBy == s.tasks[id].lockedBy || s'.tasks[id].lockedBy in {0, w + 1})
            && (forall x :: Pending(s, x) && !(x == id && at in {ExecCall, Erase}) ==> Pending(s', x))
            && (forall x :: Pending(s', x) ==> Pending(s, x))
  {
    hide SiftUp, Agreed, InOrder, TaskOk, CallerOk;
    assert WorkerOk(s, w);
  }

  lemma WorkedSelf(s: Manager, w: nat, now: int, inside: Inside)
    requires Inv(s) && w < |s.workers| && s.workers[w].at != Looking
    ensures var s' := Worked(s, w, now, inside);
            && WorkerOk(s', w)
            && TaskOk(s', s.workers[w].id)
  {
    hide SiftUp, Agreed, InOrder, CallerOk;
    assert WorkerOk(s, w) && TaskOk(s, s.workers[w].id);
  }

  lemma WorkedOthers(s: Manager, w: nat, now: int, inside: Inside, v: nat)
    requires Inv(s) && w < |s.workers| && s.workers[w].at != Looking && v < |s.workers| && v != w
    ensures |Worked(s, w, now, inside).workers| == |s.workers| && WorkerOk(Worked(s, w, now, inside), v)
  {
    WorkedShape(s, w, now, inside);
    WorkedFrame(s, w, now, inside);
    assert WorkerOk(s, v);
    if s.workers[v].Carries() && s.workers[w].Carries() {
      assert s.workers[v].id != s.workers[w].id;
    }
    hide Agreed, InOrder, CallerOk, TaskOk, Worked;
  }

  lemma WorkedCallers(s: Manager, w: nat, now: int, inside: Inside, c: nat)
    requires Inv(s) && w < |s.workers| && s.workers[w].at != Looking && c < |s.callers|
    ensures Worked(s, w, now, inside).callers == s.callers && CallerOk(Worked(s, w, now, inside), c)
  {
    WorkedShape(s, w, now, inside);
    WorkedFrame(s, w, now, inside);
    assert CallerOk(s, c);
    hide Agreed, InOrder, Worked, WorkerOk, TaskOk;
    var x, s' := s.callers[c], Worked(s, w, now, inside);
    assert x.Holds() ==> s'.tasks[x.id] == s.tasks[x.id];
  }

  /** What is known of a task stays known while another's worker moves. */
  lemma TaskStays(s: Manager, s': Manager, w: nat, x: nat)
    requires w < |s.workers| == |s'.workers| && s'.callers == s.callers && x < |s.tasks| == |s'.tasks|
    requires s'.workers == s.workers[w := s'.workers[w]] && s.workers[w].id != x
    requires s'.tasks[x] == s.tasks[x] && (Pending(s', x) ==> Pending(s, x)) && TaskOk(s, x)
    ensures TaskOk(s', x)
  {
    hide Pending;
  }

  lemma WorkedTasks(s: Manager, w: nat, now: int, inside: Inside, x: nat)
    requires Inv(s) && w < |s.workers| && s.workers[w].at != Looking && x < |s.tasks| && x != s.workers[w].id
    ensures x < |Worked(s, w, now, inside).tasks| && TaskOk(Worked(s, w, now, inside), x)
  {
    WorkedShape(s, w, now, inside);
    WorkedFrame(s, w, now, inside);
    hide Agreed, InOrder, Worked, WorkerOk, CallerOk, TaskOk, Pending;
    var s' := Worked(s, w, now, inside);
    TaskStays(s, s', w, x);
  }

  lemma WorkedInv(s: Manager, w: nat, now: int, inside: Inside)
    requires Inv(s) && w < |s.workers| && s.workers[w].at != Looking
    ensures Inv(Worked(s, w, now, inside))
  {
    var s' := Worked(s, w, now, inside);
    WorkedAgrees(s, w, now, inside);
    WorkedShape(s, w, now, inside);
    WorkedSelf(s, w, now, inside);
    hide Worked, Agreed, InOrder, WorkerOk, CallerOk, TaskOk;
    forall v | 0 <= v < |s'.workers| && v != w
      ensures WorkerOk(s', v)
    {
      WorkedOthers(s, w, now, inside, v);
    }
    forall c | 0 <= c < |s'.callers|
      ensures CallerOk(s', c)
    {
      WorkedFrame(s, w, now, inside);
      WorkedCallers(s, w, now, inside, c);
    }
    forall x | 0 <= x < |s'.tasks| && x != s.workers[w].id
      ensures TaskOk(s', x)
    {
      WorkedTasks(s, w, now, inside, x);
    }
  }

  lemma ContinuedInv(s: Manager, c: nat)
    requires Inv(s) && c < |s.callers|
    ensures Inv(Continued(s, c))
  {
    var s' := Continued(s, c);
    ContinuedAgrees(s, c);
    assert CallerOk(s, c);
    hide Agreed, InOrder;
    forall w | 0 <= w < |s'.workers|
      ensures WorkerOk(s', w)
    {
      assert WorkerOk(s, w);
    }
    forall d | 0 <= d < |s'.callers|
      ensures CallerOk(s', d)
    {
      assert CallerOk(s, d);
      if d == c {
        assert s.callers[c].at != Resting ==> TaskOk(s, s.callers[c].id);
      } else {
        assert s.callers[d].Holds() ==> s'.tasks[s.callers[d].id] == s.tasks[s.callers[d].id];
      }
    }
    forall x | 0 <= x < |s'.tasks|
      ensures TaskOk(s', x)
    {
      assert TaskOk(s, x);
    }
  }

  lemma DispatchedShape(s: Manager, id: Id, executeAt: int, maxStay: int)
    ensures var s' := Dispatched(s, id, executeAt, maxStay);
            && s'.workers == s.workers && s'.callers == s.callers && |s'.tasks| == |s.tasks|
            && (forall x | x in s.items :: x in s'.items && s'.items[x] == s.items[x])
            && (forall x | 0 <= x < |s.tasks| :: s'.tasks[x] == s.tasks[x].(dispatches := s'.tasks[x].dispatches))
            && (forall x | 0 <= x < |s.tasks| ::
                  s'.tasks[x].dispatches - s.tasks[x].dispatches
                  >= (if Pending(s', x) then 1 else 0) - (if Pending(s, x) then 1 else 0))
  {
    hide SiftUp;
  }

  lemma DispatchedInv(s: Manager, id: Id, executeAt: int, maxStay: int)
    requires Inv(s)
    ensures Inv(Dispatched(s, id, executeAt, maxStay))
  {
    var s' := Dispatched(s, id, executeAt, maxStay);
    DispatchedAgrees(s, id, executeAt, maxStay);
    DispatchedShape(s, id, executeAt, maxStay);
    hide Agreed, InOrder, Dispatched;
    forall w | 0 <= w < |s'.workers|
      ensures WorkerOk(s', w)
    {
      assert WorkerOk(s, w);
    }
    hide WorkerOk;
    forall c | 0 <= c < |s'.callers|
      ensures CallerOk(s', c)
    {
      assert CallerOk(s, c);
      var x := s.callers[c].id;
      assert x < |s.tasks| ==> s'.tasks[x] == s.tasks[x].(dispatches := s'.tasks[x].dispatches);
    }
    hide CallerOk, Pending;
    forall x | 0 <= x < |s'.tasks|
      ensures TaskOk(s', x)
    {
      assert TaskOk(s, x);
      assert s'.tasks[x] == s.tasks[x].(dispatches := s'.tasks[x].dispatches);
      assert GivingUp(s, x) ==> GivingUp(s', x);
      assert Winning(s, x) == Winning(s', x);
    }
  }

  lemma DestroyInv(s: Manager, c: nat, id: Id)
    requires Inv(s) && c < |s.callers| && s.callers[c].at == Resting && id in s.items
    ensures Inv(CallerAt(s, c, DestroyLock, id))
  {
    var s' := CallerAt(s, c, DestroyLock, id);
    hide InOrder;
    forall w | 0 <= w < |s'.workers|
      ensures WorkerOk(s', w)
    {
      assert WorkerOk(s, w);
    }
    forall d | 0 <= d < |s'.callers|
      ensures CallerOk(s', d)
    {
      assert CallerOk(s, d);
    }
    forall x | 0 <= x < |s'.tasks|
      ensures TaskOk(s', x)
    {
      assert TaskOk(s, x);
    }
  }

  lemma StepInv(s: Manager, a: Action)
    requires Inv(s)
    ensures Inv(Step(s, a))
  {
    hide Inv, Dispatched, Looked, Continued;
    match a {
      case Dispatch(id, executeAt, maxStay) => DispatchedInv(s, id, executeAt, maxStay);
      case Work(w, now, inside) =>
        if w < |s.workers| {
          if s.workers[w].at == Looking {
            assert Step(s, a) == Looked(s, w, now);
            LookedInv(s, w, now);
          } else {
            hide Worked;
            WorkedInv(s, w, now, inside);
          }
        }
      case Destroy(c, id, certificate) =>
        if Step(s, a) != s {
          DestroyInv(s, c, id);
        }
      case Continue(c) => if c < |s.callers| { ContinuedInv(s, c); }
    }
  }

  lemma {:induction false} RunFromInv(s: Manager, actions: seq<Action>)
    requires Inv(s)
    ensures Inv(Run(s, actions))
    decreases |actions|
  {
    if actions != [] {
      StepInv(s, actions[0]);
      RunFromInv(Step(s, actions[0]), actions[1..]);
    }
  }

  /** A task meets at most one end: over every run, of `timeout` being called and `destroy` returning
      the task at most one happens, at most once; and it is executed at most once for each time it
      was dispatched (`TaskExecutions` has the exact bound). */
  lemma OneOutcome(certificates: seq<int>, workers: nat, callers: nat, actions: seq<Action>, id: Id)
    requires id < |Run(Initial(certificates, workers, callers), actions).tasks|
    ensures var t := Run(Initial(certificates, workers, callers), actions).tasks[id];
            && t.timeouts + t.returned <= t.timeouts + t.claims <= 1
            && t.executions <= t.dispatches
            && (t.dispatches <= 1 ==> t.executions <= 1)
  {
    InitialInv(certificates, workers, callers);
    RunFromInv(Initial(certificates, workers, callers), actions);
    assert TaskOk(Run(Initial(certificates, workers, callers), actions), id);
  }

  /** In any state a run can reach, only a task that is not destroyed is executed, given up or won;
      once it is destroyed it stays so. */
  lemma OnlyTheLiving(s: Manager, a: Action, id: Id)
    requires Inv(s) && id < |s.tasks|
    ensures |Step(s, a).tasks| == |s.tasks|
    ensures var t, t' := s.tasks[id], Step(s, a).tasks[id];
            && (t'.executions != t.executions || t'.timeouts != t.timeouts || t'.claims != t.claims ==> !t.destroyed)
            && (t.destroyed ==> t'.destroyed)
  {
    hide Agreed, InOrder, TaskOk, SiftUp, PopHeap;
    match a {
      case Work(w, now, inside) =>
        if w < |s.workers| && s.workers[w].at == Looking {
          LookedShape(s, w, now);
          hide Looked;
        } else if w < |s.workers| {
          assert WorkerOk(s, w);
          hide Looked;
        }
      case Continue(c) =>
        if c < |s.callers| {
          assert CallerOk(s, c);
        }
        hide Worked;
      case _ =>
        hide Worked;
    }
  }

  /** The action could win the task: it shows the certificate, or is the task's own, while it is executed. */
  predicate Entitled(s: Manager, a: Action, id: Id, certificate: int) {
    match a
    case Destroy(_, x, c) => x == id && c == certificate
    case Work(w, _, inside) => inside == ClaimsItself && w < |s.workers| && s.workers[w].id == id
    case _ => false
  }

  predicate NeverEntitled(s: Manager, actions: seq<Action>, id: Id, certificate: int)
    decreases |actions|
  {
    actions == []
    || (!Entitled(s, actions[0], id, certificate) && NeverEntitled(Step(s, actions[0]), actions[1..], id, certificate))
  }

  ghost predicate Unclaimed(s: Manager, id: Id, certificate: int) {
    && id < |s.tasks| && s.tasks[id].certificate == certificate && s.tasks[id].claims == s.tasks[id].returned == 0
    && (forall c | 0 <= c < |s.callers| :: s.callers[c].at == Resting || s.callers[c].id != id)
  }

  /** `destroy` never returns a task to anybody who does not know its certificate, over every run. */
  lemma {:induction false} OnlyWithTheCertificate(s: Manager, actions: seq<Action>, id: Id, certificate: int)
    requires Unclaimed(s, id, certificate) && NeverEntitled(s, actions, id, certificate)
    ensures Unclaimed(Run(s, actions), id, certificate)
    decreases |actions|
  {
    if actions != [] {
      UnclaimedStill(s, actions[0], id, certificate);
      OnlyWithTheCertificate(Step(s, actions[0]), actions[1..], id, certificate);
    }
  }

  lemma UnclaimedStill(s: Manager, a: Action, id: Id, certificate: int)
    requires Unclaimed(s, id, certificate) && !Entitled(s, a, id, certificate)
    ensures Unclaimed(Step(s, a), id, certificate)
  {
    hide SiftUp, PopHeap;
    match a {
      case Work(w, now, inside) =>
        if w < |s.workers| {
          WorkedUnclaimed(s, w, now, inside, id, certificate);
        }
      case _ =>
        hide Worked;
    }
  }

  lemma WorkedUnclaimed(s: Manager, w: nat, now: int, inside: Inside, id: Id, certificate: int)
    requires Unclaimed(s, id, certificate) && w < |s.workers|
    requires inside == ClaimsItself ==> s.workers[w].id != id
    ensures Unclaimed(Worked(s, w, now, inside), id, certificate)
  {
    hide SiftUp, PopHeap;
  }
}
