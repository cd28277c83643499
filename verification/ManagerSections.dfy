/** The sections of the task manager that its mutex guards, as its code runs them: in place, on its map
    and its heap.  Each does to them what the step of `TaskManagers` it is named after does. */
module ManagerSections {
  import opened BinaryHeap
  import opened TaskManagers

  /** Does `s` have this map and this heap? */
  predicate Holds(s: Manager, items: map<Id, Item>, heap: seq<Id>) {
    s.items == items && s.heap == heap
  }

  class TaskManager {
    var items: map<Id, Item>
    var heap: seq<Id>

    constructor ()
      ensures items == map[] && heap == []
    {
      items, heap := map[], [];
    }

    /** The comparison of two items: does the first come after the second?  An item that was executed
        waits for its time-out. */
    predicate Compare(id1: Id, id2: Id)
      reads this
      requires id1 in items && id2 in items
      ensures Compare(id1, id2) == Before(KeyOf(Keys(items), id2), KeyOf(Keys(items), id1))
    {
      var it1, it2 := items[id1], items[id2];
      var t1 := if it1.executed then it1.maxStay else it1.executeAt;
      var t2 := if it2.executed then it2.maxStay else it2.executeAt;
      t1 > t2
    }

    method PushHeap(id: Id)
      requires id in items && forall x | x in heap :: x in items
      modifies `heap
      ensures heap == SiftUp(old(heap) + [id], Keys(items), |old(heap)|)
    {
      heap := heap + [id];
      SiftLast(|heap| - 1);
    }

    /** `push_heap` on the prefix that ends at `last`. */
    method SiftLast(last: nat)
      requires last < |heap| && forall x | x in heap :: x in items
      modifies `heap
      ensures heap == SiftUp(old(heap), Keys(items), last)
      ensures forall x | x in heap :: x in items
    {
      var i := last;
      while i > 0 && Compare(heap[Parent(i)], heap[i])
        invariant 0 <= i < |heap| && forall x | x in heap :: x in items
        invariant SiftUp(heap, Keys(items), i) == SiftUp(old(heap), Keys(items), last)
      {
        assert forall x | x in Swap(heap, i, Parent(i)) :: x in heap;
        heap := Swap(heap, i, Parent(i));
        i := Parent(i);
      }
    }

    /** Moves the element at the front down to a leaf of the first `m` elements. */
    method SinkFront(m: nat) returns (h: nat)
      requires 0 < m <= |heap| && forall x | x in heap :: x in items
      modifies `heap
      ensures (heap, h) == Sink(old(heap), Keys(items), 0, m)
      ensures forall x | x in heap :: x in items
    {
      h := 0;
      while 2 * h + 1 < m
        invariant h < m <= |heap| && forall x | x in heap :: x in items
        invariant Sink(heap, Keys(items), h, m) == Sink(old(heap), Keys(items), 0, m)
      {
        var c := 2 * h + 1;
        if 2 * h + 2 < m && !Compare(heap[2 * h + 2], heap[2 * h + 1]) {
          c := 2 * h + 2;
        }
        assert c == BetterChild(heap, Keys(items), h, m);
        SinkStep(heap, Keys(items), h, m);
        assert forall x | x in Swap(heap, h, c) :: x in heap;
        heap := Swap(heap, h, c);
        h := c;
      }
    }

    method PopHeap()
      requires heap != [] && forall x | x in heap :: x in items
      modifies `heap
      ensures heap == BinaryHeap.PopHeap(old(heap), Keys(items))[..|old(heap)| - 1]
    {
      var m := |heap| - 1;
      if m > 0 {
        assert forall x | x in Swap(heap, 0, m) :: x in heap;
        heap := Swap(heap, 0, m);
        var leaf := SinkFront(m);
        SiftLast(leaf);
      }
      heap := heap[..m];
    }

    /** `dispatch`: the task goes into the map and the heap, unless its id is in the map. */
    method Dispatch(id: Id, executeAt: int, maxStay: int, ghost s: Manager) returns (ok: bool)
      requires Holds(s, items, heap) && id < |s.tasks| && forall x | x in heap :: x in items
      modifies this
      ensures Holds(Dispatched(s, id, executeAt, maxStay), items, heap)
      ensures ok <==> id !in s.items
      ensures ok <==> Dispatched(s, id, executeAt, maxStay).tasks[id].dispatches == s.tasks[id].dispatches + 1
    {
      ok := id !in items;
      if ok {
        items := items[id := Item(executeAt, maxStay, false)];
        PushHeap(id);
      }
    }

    /** The section in which worker `w` looks at the front: it drops a destroyed task, takes one that
        is out of time or to be executed, or leaves it. */
    method Look(w: nat, now: int, ghost s: Manager, destroyed: Id -> bool) returns (next: WorkerPoint, id: Id)
      requires Holds(s, items, heap) && w < |s.workers| && s.workers[w].at == Looking && Agreed(s)
      requires forall x | x in items :: destroyed(x) == s.tasks[x].destroyed
      modifies this
      ensures Holds(Looked(s, w, now), items, heap)
      ensures Looked(s, w, now).workers[w] == if next == Looking then s.workers[w] else Worker(next, id)
    {
      next, id := Looking, 0;
      assert forall x | x in heap :: x in Ids(heap);
      if heap == [] {
        return;
      }
      id := heap[0];
      var it := items[id];
      hide Matched, IsHeap, BinaryHeap.PopHeap, SiftUp;
      if destroyed(id) {
        PopHeap();
        items := items - {id};
      } else if now > it.maxStay {
        PopHeap();
        items := items - {id};
        next := TimeLock;
      } else if now > it.executeAt && !it.executed {
        PopHeap();
        next := ExecLock;
      }
    }

    /** A worker is about to execute the task of the item in its hands. */
    method MarkExecuted(w: nat, id: Id, now: int, inside: Inside, ghost s: Manager)
      requires Holds(s, items, heap) && Agreed(s) && id in items
      requires w < |s.workers| && s.workers[w] == Worker(ExecCall, id) && id < |s.tasks|
      modifies `items
      ensures Holds(Worked(s, w, now, inside), items, heap)
    {
      var it := items[id];
      items := items[id := it.(executed := true)];
    }

    /** What a worker does with an item it took off the heap once its task was executed, or turned out
        to be destroyed: the map forgets it, or it goes back into the heap. */
    method Finish(w: nat, id: Id, destroyed: bool, now: int, ghost s: Manager)
      requires Holds(s, items, heap) && Agreed(s)
      requires w < |s.workers| && s.workers[w] == Worker(if destroyed then Erase else PushBack, id) && id < |s.tasks|
      modifies this
      ensures Holds(Worked(s, w, now, Nothing), items, heap)
    {
      assert id in CarriedIds(s.workers);
      assert forall x | x in heap :: x in Ids(heap);
      hide Matched, IsHeap, SiftUp;
      if destroyed {
        items := items - {id};
      } else {
        PushHeap(id);
      }
    }
  }
}
