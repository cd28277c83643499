/** The transfer scheduler's book-keeping: its map of tasks, its queue, its own thread, and any number
    of threads that add, remove, stop, resume and answer tasks.  A section under the scheduler's mutex
    or under a task's is one step. */
module TransferQueues {
  import opened FileTasks

  type Id = nat

  /** A task object; objects are numbered in the order they were made. */
  datatype Entry = Entry(id: Id, starter: Starter, state: State) {
    predicate Live() {
      starter == Self && state in {WaitingForStart, Preparing, Transmitting}
    }
  }

  /** What the scheduler's thread has in hand: an object it took off the queue and has not looked at,
      one it is to put back, one whose id it is to take out of the map. */
  datatype Hand = Nothing | Taken(task: nat) | Return(task: nat) | Erase(task: nat)

  /** `resumers` are the objects in the hands of threads inside `resumeTask`. */
  datatype Scheduler = Scheduler(objects: seq<Entry>, tasks: map<Id, nat>, queue: seq<nat>, hand: Hand,
                                 resumers: multiset<nat>)

  datatype Action =
    | Add(id: Id, starter: Starter, state: State)
    | Remove(id: Id)
    | Take
    | Look(opens: bool, expired: bool)
    | PutBack
    | Stop(task: nat)
    | Resume(task: nat)
    | Requeue(task: nat)
    | OpenAnswered(task: nat, success: bool)
    | BlockFailed(task: nat, end: bool)

  /** The queue without the first object that has the id. */
  function WithoutFirst(queue: seq<nat>, objects: seq<Entry>, id: Id): seq<nat> {
    if queue == [] then []
    else if queue[0] < |objects| && objects[queue[0]].id == id then queue[1..]
    else [queue[0]] + WithoutFirst(queue[1..], objects, id)
  }

  lemma {:induction false} WithoutFirstAt(queue: seq<nat>, objects: seq<Entry>, id: Id, k: nat)
    requires k <= |queue| && forall j | 0 <= j < k :: !(queue[j] < |objects| && objects[queue[j]].id == id)
    ensures WithoutFirst(queue, objects, id) == queue[..k] + WithoutFirst(queue[k..], objects, id)
    decreases k
  {
    if k > 0 {
      WithoutFirstAt(queue[1..], objects, id, k - 1);
      assert queue[1..][k - 1..] == queue[k..];
      assert [queue[0]] + (queue[1..][..k - 1] + WithoutFirst(queue[k..], objects, id))
             == queue[..k] + WithoutFirst(queue[k..], objects, id);
    } else {
      assert queue[..0] + WithoutFirst(queue[0..], objects, id) == WithoutFirst(queue, objects, id) by {
        assert queue[0..] == queue;
      }
    }
  }

  /** The loop of `removeTask` over the queue. */
  method RemoveFirst(queue: seq<nat>, objects: seq<Entry>, id: Id) returns (rest: seq<nat>)
    ensures rest == WithoutFirst(queue, objects, id)
  {
    for i := 0 to |queue|
      invariant forall j | 0 <= j < i :: !(queue[j] < |objects| && objects[queue[j]].id == id)
    {
      if queue[i] < |objects| && objects[queue[i]].id == id {
        WithoutFirstAt(queue, objects, id, i);
        assert queue[i..][1..] == queue[i + 1..];
        return queue[..i] + queue[i + 1..];
      }
    }
    WithoutFirstAt(queue, objects, id, |queue|);
    assert queue[..|queue|] + [] == queue;
    return queue;
  }

  function WithState(s: Scheduler, o: nat, state: State): Scheduler
    requires o < |s.objects|
  {
    s.(objects := s.objects[o := s.objects[o].(state := state)])
  }

  /** `exec`, when it looks at the object it took. */
  function Looked(s: Scheduler, o: nat, opens: bool, expired: bool): (s': Scheduler)
    requires o < |s.objects|
    ensures |s'.objects| == |s.objects|
  {
    match s.objects[o].state
    case WaitingForStart =>
      if opens then WithState(s, o, Preparing).(hand := Return(o)) else WithState(s, o, Failed).(hand := Nothing)
    case Preparing => (if expired then WithState(s, o, Stopped) else s).(hand := Return(o))
    case Transmitting => (if expired then WithState(s, o, Stopped) else s).(hand := Return(o))
    case _ => s.(hand := if s.objects[o].starter == Partner then Erase(o) else Nothing)
  }

  function Step(s: Scheduler, a: Action): (s': Scheduler)
    ensures |s'.objects| >= |s.objects|
  {
    match a
    case Add(id, starter, state) =>
      if id in s.tasks then s
      else
        var o := |s.objects|;
        s.(objects := s.objects + [Entry(id, starter, state)], tasks := s.tasks[id := o], queue := s.queue + [o])
    case Remove(id) => s.(tasks := s.tasks - {id}, queue := WithoutFirst(s.queue, s.objects, id))
    case Take =>
      if s.hand == Nothing && s.queue != [] then s.(hand := Taken(s.queue[0]), queue := s.queue[1..]) else s
    case Look(opens, expired) =>
      if s.hand.Taken? && s.hand.task < |s.objects| then Looked(s, s.hand.task, opens, expired) else s
    case PutBack =>
      if s.hand.Return? then s.(hand := Nothing, queue := s.queue + [s.hand.task])
      else if s.hand.Erase? && s.hand.task < |s.objects|
      then s.(hand := Nothing, tasks := s.tasks - {s.objects[s.hand.task].id})
      else s
    case Stop(o) =>
      if o < |s.objects| && s.objects[o].starter == Self && s.objects[o].state == Transmitting
      then WithState(s, o, Stopped) else s
    case Resume(o) =>
      if o < |s.objects| && s.objects[o].starter == Self && s.objects[o].state == Stopped
      then WithState(s, o, WaitingForStart).(resumers := s.resumers + multiset{o}) else s
    case Requeue(o) =>
      if o in s.resumers then s.(resumers := s.resumers - multiset{o}, queue := s.queue + [o]) else s
    case OpenAnswered(o, success) =>
      if o < |s.objects| && s.objects[o].state == Preparing
      then WithState(s, o, if success then Transmitting else Failed) else s
    case BlockFailed(o, end) =>
      if o < |s.objects| && s.objects[o].starter == Self && s.objects[o].state == Transmitting
      then WithState(s, o, if end then Finished else Failed) else s
  }

  function Run(s: Scheduler, actions: seq<Action>): (s': Scheduler)
    ensures |s'.objects| >= |s.objects|
    decreases |actions|
  {
    if actions == [] then s else Run(Step(s, actions[0]), actions[1..])
  }

  const EMPTY := Scheduler([], map[], [], Nothing, multiset{})

  predicate Kept(s: Scheduler, o: nat) {
    o in s.queue || s.hand == Taken(o) || s.hand == Return(o) || o in s.resumers
  }

  predicate Registered(s: Scheduler, o: nat) {
    o < |s.objects| && s.objects[o].id in s.tasks && s.tasks[s.objects[o].id] == o
  }

  ghost predicate Sane(s: Scheduler) {
    && (forall id | id in s.tasks :: s.tasks[id] < |s.objects| && s.objects[s.tasks[id]].id == id)
    && (forall o | o in s.queue :: o < |s.objects|)
    && (forall o | o in s.resumers :: o < |s.objects|)
    && (!s.hand.Nothing? ==> s.hand.task < |s.objects|)
  }

  /** Every live task that is in the map will be looked at again. */
  ghost predicate Inv(s: Scheduler) {
    && Sane(s)
    && (forall o | 0 <= o < |s.objects| && Registered(s, o) && s.objects[o].Live() :: Kept(s, o))
  }

  lemma {:induction false} OthersStay(queue: seq<nat>, objects: seq<Entry>, id: Id, o: nat)
    requires o < |objects|
    ensures o in WithoutFirst(queue, objects, id) ==> o in queue
    ensures o in queue && objects[o].id != id ==> o in WithoutFirst(queue, objects, id)
  {
    if queue != [] && !(queue[0] < |objects| && objects[queue[0]].id == id) {
      OthersStay(queue[1..], objects, id, o);
    }
  }

  lemma {:induction false} NoneAdded(queue: seq<nat>, objects: seq<Entry>, id: Id, o: nat)
    requires o in WithoutFirst(queue, objects, id)
    ensures o in queue
  {
    if !(queue[0] < |objects| && objects[queue[0]].id == id) && o != queue[0] {
      NoneAdded(queue[1..], objects, id, o);
    }
  }

  lemma RemoveKeeps(s: Scheduler, id: Id)
    requires Inv(s)
    ensures Inv(Step(s, Remove(id)))
  {
    var s' := Step(s, Remove(id));
    forall o | 0 <= o < |s.objects| && Registered(s', o) && s.objects[o].Live()
      ensures Kept(s', o)
    {
      assert Registered(s, o);
      OthersStay(s.queue, s.objects, id, o);
    }
    forall o | o in s'.queue
      ensures o < |s.objects|
    {
      NoneAdded(s.queue, s.objects, id, o);
    }
  }

  lemma AddKeeps(s: Scheduler, a: Action)
    requires Inv(s) && a.Add?
    ensures Inv(Step(s, a))
  {
    var s' := Step(s, a);
    forall o | 0 <= o < |s'.objects| && Registered(s', o) && s'.objects[o].Live()
      ensures Kept(s', o)
    {
      if o < |s.objects| {
        assert Registered(s, o);
      }
    }
  }

  lemma TakeKeeps(s: Scheduler)
    requires Inv(s)
    ensures Inv(Step(s, Take))
  {
    var s' := Step(s, Take);
    assert s.queue != [] ==> s.queue[0] in s.queue;
    assert forall o | o in s'.queue :: o in s.queue;
    forall o | 0 <= o < |s'.objects| && Registered(s', o) && s'.objects[o].Live()
      ensures Kept(s', o)
    {
      assert Registered(s, o);
    }
  }

  lemma RequeueKeeps(s: Scheduler, r: nat)
    requires Inv(s)
    ensures Inv(Step(s, Requeue(r)))
  {
    var s' := Step(s, Requeue(r));
    assert forall o | o in s'.queue :: o in s.queue || o in s.resumers;
    forall o | 0 <= o < |s'.objects| && Registered(s', o) && s'.objects[o].Live()
      ensures Kept(s', o)
    {
      assert Registered(s, o);
    }
  }

  lemma PutBackKeeps(s: Scheduler)
    requires Inv(s)
    ensures Inv(Step(s, PutBack))
  {
    var s' := Step(s, PutBack);
    forall o | 0 <= o < |s'.objects| && Registered(s', o) && s'.objects[o].Live()
      ensures Kept(s', o)
    {
      assert Registered(s, o);
    }
  }

  lemma StateKeeps(s: Scheduler, a: Action)
    requires Inv(s) && (a.Stop? || a.Resume? || a.OpenAnswered? || a.BlockFailed?)
    ensures Inv(Step(s, a))
  {
    var s' := Step(s, a);
    forall o | 0 <= o < |s'.objects| && Registered(s', o) && s'.objects[o].Live()
      ensures Kept(s', o)
    {
      assert Registered(s, o);
    }
  }

  lemma LookKeeps(s: Scheduler, a: Action)
    requires Inv(s) && a.Look?
    ensures Inv(Step(s, a))
  {
    var s' := Step(s, a);
    forall o | 0 <= o < |s'.objects| && Registered(s', o) && s'.objects[o].Live()
      ensures Kept(s', o)
    {
      assert Registered(s, o);
    }
  }

  lemma StepKeeps(s: Scheduler, a: Action)
    requires Inv(s)
    ensures Inv(Step(s, a))
  {
    hide Inv, Step;
    if a.Remove? {
      RemoveKeeps(s, a.id);
    } else if a.Add? {
      AddKeeps(s, a);
    } else if a.Look? {
      LookKeeps(s, a);
    } else if a.PutBack? {
      PutBackKeeps(s);
    } else if a.Take? {
      TakeKeeps(s);
    } else if a.Requeue? {
      RequeueKeeps(s, a.task);
    } else {
      StateKeeps(s, a);
    }
  }

  lemma {:induction false} RunKeeps(s: Scheduler, actions: seq<Action>)
    requires Inv(s)
    ensures Inv(Run(s, actions))
    decreases |actions|
  {
    if actions != [] {
      StepKeeps(s, actions[0]);
      RunKeeps(Step(s, actions[0]), actions[1..]);
    }
  }

  /** No live transfer is lost: over every run, a task its own side started that is in the map and waits,
      prepares or transmits is in the queue, or in the hands of the scheduler's thread or of a thread
      inside `resumeTask`. */
  lemma NoneIsLost(actions: seq<Action>, id: Id)
    requires var s := Run(EMPTY, actions);
             id in s.tasks && s.tasks[id] < |s.objects| && s.objects[s.tasks[id]].Live()
    ensures Kept(Run(EMPTY, actions), Run(EMPTY, actions).tasks[id])
  {
    RunKeeps(EMPTY, actions);
    var s := Run(EMPTY, actions);
    assert Registered(s, s.tasks[id]);
  }

  /** What is finished or has failed stays so, whoever acts on it. */
  lemma {:induction false} OverStaysOver(s: Scheduler, actions: seq<Action>, o: nat)
    requires o < |s.objects| && s.objects[o].state in {Finished, Failed}
    ensures o < |Run(s, actions).objects| && Run(s, actions).objects[o] == s.objects[o]
    decreases |actions|
  {
    if actions != [] {
      OverStaysOver(Step(s, actions[0]), actions[1..], o);
    }
  }

  /** A task that is removed is out of the map, and its first object out of the queue; all else stays. */
  lemma RemovedIsGone(s: Scheduler, id: Id, k: nat)
    requires k <= |s.queue| && forall j | 0 <= j < |s.queue| :: s.queue[j] < |s.objects|
    requires forall j | 0 <= j < k :: s.objects[s.queue[j]].id != id
    requires k < |s.queue| ==> s.objects[s.queue[k]].id == id
    ensures var s' := Step(s, Remove(id));
            && id !in s'.tasks && (forall x | x in s.tasks && x != id :: x in s'.tasks && s'.tasks[x] == s.tasks[x])
            && s'.queue == (if k < |s.queue| then s.queue[..k] + s.queue[k + 1..] else s.queue)
            && s'.objects == s.objects && s'.hand == s.hand && s'.resumers == s.resumers
  {
    WithoutFirstAt(s.queue, s.objects, id, k);
    if k == |s.queue| {
      assert s.queue[..k] + [] == s.queue;
    } else {
      assert s.queue[k..][0] == s.queue[k] && s.queue[k..][1..] == s.queue[k + 1..];
    }
  }

  /** Only a partner's task is taken out of the map by the scheduler's thread. */
  predicate ErasesPartners(s: Scheduler) {
    s.hand.Erase? ==> s.hand.task < |s.objects| && s.objects[s.hand.task].starter == Partner
  }

  /** The object is the map's for its id, and nobody but its own side ever made one with that id. */
  ghost predicate Owned(s: Scheduler, o: nat) {
    && ErasesPartners(s) && Registered(s, o)
    && forall p | 0 <= p < |s.objects| && s.objects[p].id == s.objects[o].id :: s.objects[p].starter == Self
  }

  lemma StaysOwned(s: Scheduler, a: Action, o: nat)
    requires Owned(s, o) && a != Remove(s.objects[o].id)
    ensures Owned(Step(s, a), o) && Step(s, a).objects[o].id == s.objects[o].id
  {
    hide WithoutFirst;
  }

  lemma {:induction false} RunStaysOwned(s: Scheduler, actions: seq<Action>, o: nat)
    requires Owned(s, o) && Remove(s.objects[o].id) !in actions
    ensures Owned(Run(s, actions), o) && Run(s, actions).objects[o].id == s.objects[o].id
    decreases |actions|
  {
    hide Step;
    if actions != [] {
      StaysOwned(s, actions[0], o);
      RunStaysOwned(Step(s, actions[0]), actions[1..], o);
    }
  }

  lemma {:induction false} RunErasesPartners(s: Scheduler, actions: seq<Action>)
    requires ErasesPartners(s)
    ensures ErasesPartners(Run(s, actions))
    decreases |actions|
  {
    hide WithoutFirst;
    if actions != [] {
      RunErasesPartners(Step(s, actions[0]), actions[1..]);
    }
  }

  /** Over every run: a task that its own side started stays the map's for its id until it is removed, whoever
      else adds a task with that id, if none of a partner's had it before. */
  lemma StaysUntilRemoved(before: seq<Action>, actions: seq<Action>, o: nat)
    requires var s := Run(EMPTY, before);
             && Registered(s, o) && Remove(s.objects[o].id) !in actions
             && forall p | 0 <= p < |s.objects| && s.objects[p].id == s.objects[o].id :: s.objects[p].starter == Self
    ensures Registered(Run(Run(EMPTY, before), actions), o)
  {
    RunErasesPartners(EMPTY, before);
    RunStaysOwned(Run(EMPTY, before), actions, o);
  }

  /** The scheduler and a task object with the same starter and state do the same to the state: when it is
      stopped or resumed, when it is answered, and when the scheduler's thread looks at it. */
  lemma StopsAsTheTask(s: Scheduler, o: nat, t: Task)
    requires o < |s.objects| && t.starter == s.objects[o].starter && t.state == s.objects[o].state
    ensures Step(s, Action.Stop(o)).objects[o].state == Handled(t, Event.Stop).state
    ensures Step(s, Action.Resume(o)).objects[o].state == Handled(t, Event.Resume).state
  {
    hide Started, WroteBlock, ReadBlock, Looked, WithoutFirst;
  }

  lemma OpensAsTheTask(s: Scheduler, o: nat, t: Task, error: Error)
    requires o < |s.objects| && t.starter == s.objects[o].starter && t.state == s.objects[o].state
    ensures Step(s, OpenAnswered(o, true)).objects[o].state == Handled(t, OpenDone).state
    ensures Step(s, OpenAnswered(o, false)).objects[o].state == Handled(t, OpenFails(error)).state
  {
    hide Started, WroteBlock, ReadBlock, Looked, WithoutFirst;
  }

  lemma FailsAsTheTask(s: Scheduler, o: nat, t: Task, error: Error)
    requires o < |s.objects| && t.starter == s.objects[o].starter && t.state == s.objects[o].state
    requires error !in {NoError, EndOfFile}
    ensures Step(s, BlockFailed(o, true)).objects[o].state == Handled(t, ReadFails(EndOfFile)).state
    ensures Step(s, BlockFailed(o, false)).objects[o].state
            == Handled(t, ReadFails(error)).state == Handled(t, WriteFails(error)).state
  {
    hide Started, WroteBlock, ReadBlock, Looked, WithoutFirst;
  }

  lemma LooksAsTheTask(s: Scheduler, o: nat, t: Task, opens: bool, seeks: bool)
    requires o < |s.objects| && t.starter == s.objects[o].starter && t.state == s.objects[o].state
    ensures t.state in {Preparing, Transmitting} ==>
              Looked(s, o, opens, true).objects[o].state == Handled(t, Expire).state
    ensures t.state == WaitingForStart ==>
              var t' := Handled(t, Begin(opens, seeks));
              Looked(s, o, t'.state == Preparing, false).objects[o].state == t'.state
  {
    hide Opened, WroteBlock, ReadBlock;
  }

  function Turn(opens: bool, expired: bool): seq<Action> {
    [Take, Look(opens, expired), PutBack]
  }

  function Turns(n: nat, opens: bool, expired: bool): seq<Action> {
    if n == 0 then [] else Turns(n - 1, opens, expired) + Turn(opens, expired)
  }

  /** What the scheduler's thread makes of an object it looks at. */
  function StateLooked(state: State, opens: bool, expired: bool): State {
    if state == WaitingForStart then (if opens then Preparing else Failed)
    else if state in {Preparing, Transmitting} && expired then Stopped
    else state
  }

  /** It is put back into the queue if it was in use, or is now. */
  predicate GoesBack(was: State, state: State) {
    was in {Preparing, Transmitting} || state == Preparing
  }

  /** The scheduler `s'` is `s` after its thread has looked at the object at the front of its queue. */
  ghost predicate Turned(s: Scheduler, s': Scheduler, opens: bool, expired: bool)
    requires s.queue != [] && s.queue[0] < |s.objects|
  {
    var o := s.queue[0];
    var was, x := s.objects[o], s.objects[o].(state := StateLooked(s.objects[o].state, opens, expired));
    && s'.hand == Nothing && s'.objects == s.objects[o := x] && s'.resumers == s.resumers
    && s'.queue == s.queue[1..] + (if GoesBack(was.state, x.state) then [o] else [])
    && s'.tasks == (if was.state in {Stopped, Finished, Failed} && was.starter == Partner
                    then s.tasks - {was.id} else s.tasks)
  }

  lemma OneTurn(s: Scheduler, opens: bool, expired: bool)
    requires Sane(s) && s.hand == Nothing && s.queue != [] && s.queue[0] < |s.objects|
    ensures Turned(s, Run(s, Turn(opens, expired)), opens, expired)
  {
    hide Step, Turned, Sane;
    var s1 := Step(s, Take);
    var s2 := Step(s1, Look(opens, expired));
    var s3 := Step(s2, PutBack);
    assert Turn(opens, expired)[1..] == [Look(opens, expired), PutBack];
    assert [Look(opens, expired), PutBack][1..] == [PutBack];
    assert Run(s2, [PutBack]) == Run(s3, []) == s3;
    assert Run(s1, [Look(opens, expired), PutBack]) == s3;
    TakesLooksPuts(s, opens, expired);
  }

  lemma TakesLooksPuts(s: Scheduler, opens: bool, expired: bool)
    requires s.hand == Nothing && s.queue != [] && s.queue[0] < |s.objects|
    ensures Turned(s, Step(Step(Step(s, Take), Look(opens, expired)), PutBack), opens, expired)
  {
    hide WithoutFirst;
    var o := s.queue[0];
    var s1 := s.(hand := Taken(o), queue := s.queue[1..]);
    assert Step(s, Take) == s1;
    assert Step(s1, Look(opens, expired)) == Looked(s1, o, opens, expired);
    assert s.queue[1..] + [] == s.queue[1..];
    assert s.objects[o := s.objects[o]] == s.objects;
  }

  /** The first `n` in the queue were looked at. */
  ghost predicate LookedAt(s: Scheduler, s': Scheduler, n: nat, opens: bool, expired: bool)
    requires n <= |s.queue|
  {
    && Sane(s') && s'.hand == Nothing && |s'.objects| == |s.objects| && s.queue[n..] <= s'.queue
    && (forall o | 0 <= o < |s.objects| :: s'.objects[o] == s.objects[o].(state := s'.objects[o].state))
    && (forall o | 0 <= o < |s.objects| && o !in s.queue[..n] :: s'.objects[o] == s.objects[o])
    && (forall o | 0 <= o < |s.objects| && o in s.queue[..n] ::
          && s'.objects[o].state != WaitingForStart
          && (expired ==> s'.objects[o].state != Transmitting)
          && (!expired ==> s'.objects[o].state == StateLooked(s.objects[o].state, opens, false))
          && (s.objects[o].state in {Stopped, Finished, Failed} && s.objects[o].starter == Partner ==>
                s.objects[o].id !in s'.tasks))
  }

  lemma {:induction false} TurnsLook(s: Scheduler, n: nat, opens: bool, expired: bool)
    requires Sane(s) && s.hand == Nothing && n <= |s.queue|
    ensures LookedAt(s, Run(s, Turns(n, opens, expired)), n, opens, expired)
    decreases n
  {
    if n > 0 {
      TurnsLook(s, n - 1, opens, expired);
      var s1 := Run(s, Turns(n - 1, opens, expired));
      RunInTwo(s, Turns(n - 1, opens, expired), Turn(opens, expired));
      assert s1.queue[0] == s.queue[n - 1..][0] == s.queue[n - 1] && s.queue[n - 1] in s.queue;
      OneTurn(s1, opens, expired);
      OneMoreLooked(s, s1, Run(s1, Turn(opens, expired)), n, opens, expired);
    }
  }

  lemma OneMoreLooked(s: Scheduler, s1: Scheduler, s': Scheduler, n: nat, opens: bool, expired: bool)
    requires 0 < n <= |s.queue| && LookedAt(s, s1, n - 1, opens, expired) && Sane(s)
    requires s1.queue != [] && s1.queue[0] == s.queue[n - 1] < |s.objects|
    requires Turned(s1, s', opens, expired)
    ensures LookedAt(s, s', n, opens, expired)
  {
    var o := s1.queue[0];
    assert s.queue[..n] == s.queue[..n - 1] + [o];
    assert s.queue[n - 1..] <= s1.queue && s.queue[n..] == s.queue[n - 1..][1..];
    assert s.queue[n..] <= s1.queue[1..];
    TurnIsSane(s1, s', opens, expired);
    forall p | 0 <= p < |s.objects|
      ensures p in s.queue[..n] <==> p in s.queue[..n - 1] || p == o
    {
    }
  }

  lemma TurnIsSane(s: Scheduler, s': Scheduler, opens: bool, expired: bool)
    requires Sane(s) && s.queue != [] && s.queue[0] < |s.objects| && Turned(s, s', opens, expired)
    ensures Sane(s')
  {
    forall o | o in s'.queue
      ensures o < |s'.objects|
    {
      assert o in s.queue;
    }
  }

  lemma {:induction false} RunInTwo(s: Scheduler, first: seq<Action>, second: seq<Action>)
    ensures Run(s, first + second) == Run(Run(s, first), second)
    decreases |first|
  {
    if first == [] {
      assert first + second == second;
    } else {
      assert (first + second)[1..] == first[1..] + second;
      RunInTwo(Step(s, first[0]), first[1..], second);
    }
  }

  /** One round of the scheduler's thread: every task in the queue is looked at.  One that waits is started, or
      fails; one in use that is out of time is stopped; a partner's that is over or stopped leaves the map; and
      nothing happens to the others. */
  lemma RoundLooksAtAll(s: Scheduler, opens: bool, expired: bool)
    requires Sane(s) && s.hand == Nothing
    ensures LookedAt(s, Run(s, Turns(|s.queue|, opens, expired)), |s.queue|, opens, expired)
  {
    TurnsLook(s, |s.queue|, opens, expired);
  }

  /** So one's own stopped task, once resumed, is started in the next round. */
  lemma ResumedIsStarted(s: Scheduler, o: nat)
    requires Sane(s) && s.hand == Nothing && o < |s.objects| && o !in s.queue
    requires s.objects[o].starter == Self && s.objects[o].state == Stopped
    ensures var s1 := Run(s, [Action.Resume(o), Requeue(o)]);
            o in s1.queue && Run(s1, Turns(|s1.queue|, true, false)).objects[o].state == Preparing
  {
    var s0 := Step(s, Action.Resume(o));
    var s1 := Step(s0, Requeue(o));
    assert [Action.Resume(o), Requeue(o)][1..] == [Requeue(o)];
    assert Run(s0, [Requeue(o)]) == Run(s1, []) == s1;
    assert Sane(s1);
    RoundLooksAtAll(s1, true, false);
    assert s1.queue[..|s1.queue|] == s1.queue;
  }
}
