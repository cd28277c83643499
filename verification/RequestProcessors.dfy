/** The request scheduler of one event-loop thread: a binary heap of the connections that have
    requests waiting, ordered by reservation and then limit tag. */
module RequestProcessors {
  import opened BinaryHeap
  import opened UserConnections

  /** One call of a request's handler: whose request, which, and the scheduler's clock. */
  datatype Call = Call(con: UserConnection, request: Request, at: int)

  const MAX_COUNT: nat := 20

  ghost function CallsOf(log: seq<Call>, c: UserConnection): seq<Request> {
    if log == [] then []
    else
      var last := log[|log| - 1];
      CallsOf(log[..|log| - 1], c) + (if last.con == c then [last.request] else [])
  }

  lemma CallsOfAppend(log: seq<Call>, call: Call, c: UserConnection)
    ensures CallsOf(log + [call], c) == CallsOf(log, c) + (if call.con == c then [call.request] else [])
  {
    assert (log + [call])[..|log|] == log;
  }

  lemma {:induction false} NoCalls(log: seq<Call>, c: UserConnection)
    requires forall k | 0 <= k < |log| :: log[k].con != c
    ensures CallsOf(log, c) == []
  {
    if log != [] {
      NoCalls(log[..|log| - 1], c);
    }
  }

  ghost function Keys(cs: set<UserConnection>): map<UserConnection, Key>
    reads cs
  {
    map c | c in cs :: c.SortKey()
  }

  /** How many requests are waiting on each connection of a set, and on all together. */
  ghost function Counts(cs: set<UserConnection>): map<UserConnection, nat>
    reads cs
  {
    map c | c in cs :: |c.requests|
  }

  ghost function Total<T>(m: map<T, nat>): nat {
    if m == map[] then 0
    else
      var x :| x in m;
      m[x] + Total(m - {x})
  }

  ghost function Waiting(cs: set<UserConnection>): nat
    reads cs
  {
    Total(Counts(cs))
  }

  lemma {:induction false} TotalSplit<T>(m: map<T, nat>, x: T)
    requires x in m
    ensures Total(m) == m[x] + Total(m - {x})
    decreases |m|
  {
    var y :| y in m && Total(m) == m[y] + Total(m - {y});
    if y != x {
      TotalSplit(m - {y}, x);
      TotalSplit(m - {x}, y);
      assert m - {y} - {x} == m - {x} - {y};
    }
  }

  lemma TotalChange<T>(m: map<T, nat>, x: T, n: nat)
    requires x in m
    ensures Total(m[x := n]) == Total(m) - m[x] + n
  {
    TotalSplit(m, x);
    TotalSplit(m[x := n], x);
    assert m[x := n] - {x} == m - {x};
  }

  ghost predicate Within(q: seq<UserConnection>, cs: set<UserConnection>) {
    forall x | x in q :: x in cs
  }

  lemma SwapWithin(q: seq<UserConnection>, i: nat, j: nat, cs: set<UserConnection>)
    requires i < |q| && j < |q| && Within(q, cs)
    ensures Within(Swap<UserConnection>(q, i, j), cs)
  {
  }

  /** `index` is the choice of the second phase: among the leading elements, at most twenty, whose
      limit tag is due, the last with the least proportion tag. */
  ghost predicate IsLimitChoice(q: seq<UserConnection>, t: int, index: nat)
    reads q
  {
    exists scanned: nat {:trigger LeadingDue(q, t, scanned)} ::
      && LeadingDue(q, t, scanned)
      && index < scanned
      && (forall k | 0 <= k < scanned :: q[index].proportion <= q[k].proportion)
      && (forall k | index < k < scanned :: q[index].proportion < q[k].proportion)
  }

  /** The scan of the second phase stops after `n` elements. */
  ghost predicate LeadingDue(q: seq<UserConnection>, t: int, n: nat)
    reads q
  {
    && n <= |q| && n <= MAX_COUNT
    && (forall k | 0 <= k < n :: q[k].limit <= t as real)
    && (n < |q| && n < MAX_COUNT ==> q[n].limit > t as real)
  }

  /** In other words: the client is due by its limit, and so are all in front of it; and of the first twenty up
      to one that is not due, none has sent less for its weight, nor any behind it as little. */
  lemma LimitChoiceIsLeast(q: seq<UserConnection>, t: int, index: nat, k: nat)
    requires IsLimitChoice(q, t, index) && k < |q| && k < 20 && forall j | 0 <= j <= k :: q[j].limit <= t as real
    ensures index < |q| && index < 20 && forall j | 0 <= j <= index :: q[j].limit <= t as real
    ensures q[index].proportion <= q[k].proportion
    ensures k > index ==> q[index].proportion < q[k].proportion
  {
    var scanned: nat :| LeadingDue(q, t, scanned) && index < scanned
      && (forall k | 0 <= k < scanned :: q[index].proportion <= q[k].proportion)
      && (forall k | index < k < scanned :: q[index].proportion < q[k].proportion);
    assert k < scanned;
  }

  class Heap {
    var queue: seq<UserConnection>

    /** All connections that ever came to this scheduler, and the handler calls it made. */
    ghost var conns: set<UserConnection>
    ghost var log: seq<Call>

    /** The comparison given to the heap algorithms: does `o1` come after `o2`? */
    predicate Compare(o1: UserConnection, o2: UserConnection)
      reads o1, o2
      ensures Compare(o1, o2) <==>
              || Truncated(o1.reservation) > Truncated(o2.reservation)
              || (Truncated(o1.reservation) == Truncated(o2.reservation) && o1.limit > o2.limit)
      ensures Compare(o1, o2) == Before(o2.SortKey(), o1.SortKey())
    {
      var dif := Truncated(o1.reservation) - Truncated(o2.reservation);
      if dif == 0 then o1.limit > o2.limit else dif > 0
    }

    /** What holds of the array and the connections, whoever's turn it is. */
    ghost predicate Consistent()
      reads this`queue, this`conns, conns
    {
      && (forall c | c in conns :: c.Valid() && c.TakenWhenDue())
      && Ordered()
      && (forall c | c in conns :: c in queue <==> c.requests != [])
    }

    ghost predicate Ordered()
      reads this`queue, this`conns, conns
    {
      && Within(queue, conns)
      && Distinct<UserConnection>(queue)
      && IsHeap<UserConnection>(queue, Keys(conns), |queue|)
    }

    /** The log has the calls of known connections, and of each exactly the requests it gave up. */
    ghost predicate Logged()
      reads this`log, this`conns, conns
    {
      && (forall k | 0 <= k < |log| :: log[k].con in conns)
      && (forall c | c in conns :: CallsOf(log, c) == c.taken)
    }

    /** What holds whenever the scheduler's mutex is free. */
    ghost predicate Valid()
      reads this, conns
    {
      Consistent() && Logged()
    }

    constructor ()
      ensures Valid() && queue == [] && conns == {} && log == []
    {
      queue, conns, log := [], {}, [];
    }

    /** `push_heap` on the first `n` elements. */
    method PushHeap(n: nat)
      requires 0 < n <= |queue| && Within(queue, conns)
      modifies this`queue
      ensures queue == SiftUp<UserConnection>(old(queue), Keys(conns), n - 1)
      ensures Within(queue, conns)
    {
      ghost var keys: map<UserConnection, Key> := Keys(conns);
      var i := n - 1;
      while i > 0 && Compare(queue[Parent(i)], queue[i])
        invariant 0 <= i < |queue| && Within(queue, conns)
        invariant SiftUp<UserConnection>(queue, keys, i) == SiftUp<UserConnection>(old(queue), keys, n - 1)
      {
        SwapWithin(queue, i, Parent(i), conns);
        queue := Swap<UserConnection>(queue, i, Parent(i));
        i := Parent(i);
      }
    }

    /** Moves the element at the front down to a leaf of the first `m` elements. */
    method SinkFront(m: nat) returns (h: nat)
      requires 0 < m <= |queue| && Within(queue, conns)
      modifies this`queue
      ensures (queue, h) == Sink<UserConnection>(old(queue), Keys(conns), 0, m)
      ensures Within(queue, conns)
    {
      h := 0;
      ghost var keys: map<UserConnection, Key> := Keys(conns);
      while 2 * h + 1 < m
        invariant h < m <= |queue| && Within(queue, conns)
        invariant Sink<UserConnection>(queue, keys, h, m) == Sink<UserConnection>(old(queue), keys, 0, m)
      {
        var c := 2 * h + 1;
        if 2 * h + 2 < m && !Compare(queue[2 * h + 2], queue[2 * h + 1]) {
          c := 2 * h + 2;
        }
        assert c == BetterChild<UserConnection>(queue, keys, h, m);
        SinkStep<UserConnection>(queue, keys, h, m);
        SwapWithin(queue, h, c, conns);
        queue := Swap<UserConnection>(queue, h, c);
        h := c;
      }
    }

    /** `pop_heap` on the whole array. */
    method PopHeap()
      requires |queue| > 0 && Within(queue, conns)
      modifies this`queue
      ensures queue == BinaryHeap.PopHeap<UserConnection>(old(queue), Keys(conns))
      ensures Within(queue, conns)
    {
      var m := |queue| - 1;
      if m > 0 {
        SwapWithin(queue, 0, m, conns);
        queue := Swap<UserConnection>(queue, 0, m);
        var leaf := SinkFront(m);
        PushHeap(leaf + 1);
      }
    }

    method RemoveFront() returns (client: UserConnection)
      requires Ordered() && |queue| > 0
      modifies this`queue
      ensures Ordered() && client == old(queue[0])
      ensures forall c :: c in queue <==> c in old(queue) && c != client
      ensures multiset(queue) == old(multiset(queue)) - multiset{client}
    {
      client := queue[0];
      FrontGone<UserConnection>(queue, Keys(conns), conns);
      hide IsHeap, Distinct, BinaryHeap.PopHeap;
      PopHeap();
      queue := queue[..|queue| - 1];
    }

    /** `push_heap` on the prefix that ends at `index`, then `pop_heap` and `pop_back`. */
    method SiftAndPop(index: nat, ghost keys: map<UserConnection, Key>)
      requires index < |queue| && Within(queue, conns) && keys == Keys(conns)
      modifies this`queue
      ensures Within(queue, conns)
      ensures var sifted := SiftUp<UserConnection>(old(queue), keys, index);
              queue == BinaryHeap.PopHeap<UserConnection>(sifted, keys)[..|old(queue)| - 1]
    {
      PushHeap(index + 1);
      PopHeap();
      queue := queue[..|queue| - 1];
    }

    /** Removal from the middle: lower the element's key to the sentinel, sift it up within the
        prefix it ends, pop the front of the whole array, put the key back. */
    method RemoveAt(client: UserConnection, index: nat)
      requires Ordered() && index < |queue| && client == queue[index]
      requires forall k | 0 <= k < |queue| :: Truncated(queue[k].reservation) >= 1
      modifies this`queue, client`reservation, client`limit, client`proportion
      ensures Ordered()
      ensures forall c :: c in queue <==> c in old(queue) && c != client
      ensures multiset(queue) == old(multiset(queue)) - multiset{client}
      ensures client.CurrentTags() == old(client.CurrentTags())
    {
      var r, l, p := client.reservation, client.limit, client.proportion;
      ghost var keys: map<UserConnection, Key> := Keys(conns);
      assert IsHeap<UserConnection>(queue, keys, |queue|);
      assert forall k | 0 <= k < |queue| :: KeyOf<UserConnection>(keys, queue[k]).major >= 1;

      client.reservation := DOUBLE_MIN;
      client.limit := DOUBLE_MIN;
      KeysButOne(client, keys);
      PopLowered(client, index, keys);

      client.reservation := r;
      client.limit := l;
      client.proportion := p;
      KeysButOne(client, keys);
      assert keys[client := client.SortKey()] == keys;
    }

    /** Only the key of `client` has changed since the snapshot `keys`. */
    lemma KeysButOne(client: UserConnection, keys: map<UserConnection, Key>)
      requires client in conns && keys.Keys == conns
      requires forall c | c in conns && c != client :: keys[c] == c.SortKey()
      ensures Keys(conns) == keys[client := client.SortKey()]
    {
    }

    method PopLowered(client: UserConnection, index: nat, ghost keys: map<UserConnection, Key>)
      requires Within(queue, conns) && Distinct<UserConnection>(queue)
      requires index < |queue| && client == queue[index]
      requires IsHeap<UserConnection>(queue, keys, |queue|)
      requires forall k | 0 <= k < |queue| :: KeyOf<UserConnection>(keys, queue[k]).major >= 1
      requires client.reservation == client.limit == DOUBLE_MIN
      requires Keys(conns) == keys[client := client.SortKey()]
      modifies this`queue
      ensures Within(queue, conns) && Distinct<UserConnection>(queue)
      ensures IsHeap<UserConnection>(queue, keys, |queue|)
      ensures multiset(queue) == old(multiset(queue)) - multiset{client}
      ensures forall c :: c in queue <==> c in old(queue) && c != client
    {
      ghost var low := client.SortKey();
      RemovalFromMiddle<UserConnection>(queue, keys, index, low);
      SiftAndPop(index, keys[client := low]);
      OneLeft<UserConnection>(old(queue), client, queue);
    }

    /** `push_back` and `push_heap`. */
    method Insert(client: UserConnection)
      requires Ordered() && client in conns && client !in queue
      modifies this`queue
      ensures Ordered()
      ensures multiset(queue) == old(multiset(queue)) + multiset{client}
    {
      ghost var keys: map<UserConnection, Key> := Keys(conns);
      InsertedLast<UserConnection>(queue, keys, client);
      queue := queue + [client];
      PushHeap(|queue|);
    }

    /** The scan of the second phase. */
    method ChooseByLimit(t: int) returns (client: UserConnection?, index: nat)
      ensures client == null <==> queue == [] || queue[0].limit > t as real
      ensures client != null ==>
                index < |queue| && client == queue[index] && IsLimitChoice(queue, t, index)
    {
      client, index := null, 0;
      var i := 0;
      while i < |queue| && i < MAX_COUNT
        invariant 0 <= i <= |queue| && i <= MAX_COUNT
        invariant forall k | 0 <= k < i :: queue[k].limit <= t as real
        invariant i == 0 <==> client == null
        invariant client != null ==>
                    && index < i && client == queue[index]
                    && (forall k | 0 <= k < i :: client.proportion <= queue[k].proportion)
                    && (forall k | index < k < i :: client.proportion < queue[k].proportion)
      {
        var it := queue[i];
        if it.limit > t as real {
          break;
        }
        if client == null || it.proportion <= client.proportion {
          client, index := it, i;
        }
        i := i + 1;
      }
      assert LeadingDue(queue, t, i);
    }

    /** The front is due at `t`, by its reservation tag or by its limit tag. */
    predicate FrontDue(t: int)
      reads this`queue, queue
    {
      |queue| > 0 && (queue[0].reservation <= t as real || queue[0].limit <= t as real)
    }

    /** The array is in order by the tags themselves: nobody in it has an earlier whole millisecond of
        reservation than the front, nor with the same an earlier limit. */
    lemma FrontIsFirst(k: nat)
      requires Ordered() && k < |queue|
      ensures || Truncated(queue[0].reservation) < Truncated(queue[k].reservation)
              || (&& Truncated(queue[0].reservation) == Truncated(queue[k].reservation)
                  && queue[0].limit <= queue[k].limit)
    {
      FrontIsLeast<UserConnection>(queue, Keys(conns), |queue|, k);
    }

    /** Nobody waits who is due by its limit as early as its reservation goes, nor who is due by a whole
        millisecond of its reservation. */
    predicate Settled(t: int)
      reads this`queue, queue
    {
      forall k | 0 <= k < |queue| ::
        && (t >= 0 ==> Truncated(queue[k].reservation) >= t)
        && (Truncated(queue[k].reservation) == Truncated(queue[0].reservation) ==> queue[k].limit > t as real)
    }

    lemma NoneOverlooked(t: int)
      requires Ordered() && !FrontDue(t)
      ensures Settled(t)
    {
      forall k | 0 <= k < |queue|
        ensures t >= 0 ==> Truncated(queue[k].reservation) >= t
        ensures Truncated(queue[k].reservation) == Truncated(queue[0].reservation) ==> queue[k].limit > t as real
      {
        FrontIsFirst(k);
      }
    }

    lemma ValidIsOrdered()
      requires Valid()
      ensures Ordered()
    {
    }

    /** Once the second phase is reached, no waiting connection's reservation is due in whole
        milliseconds: the front has the least. */
    lemma SecondPhase(t: int, k: nat)
      requires Ordered() && k < |queue| && queue[0].reservation > t as real && t >= 0
      ensures Truncated(queue[k].reservation) >= t
    {
      FrontIsLeast<UserConnection>(queue, Keys(conns), |queue|, k);
    }

    /** Everything is in place, only that `client` has been taken out of the array. */
    ghost predicate ConsistentBut(client: UserConnection)
      reads this`queue, this`conns, conns
    {
      && (forall c | c in conns :: c.Valid() && c.TakenWhenDue())
      && Ordered()
      && client in conns && client !in queue && client.requests != []
      && (forall c | c in conns && c != client :: c in queue <==> c.requests != [])
    }

    /** Takes one request of `client` and puts it back if more are waiting. */
    method TakeFrom(client: UserConnection, t: int) returns (r: Request)
      requires ConsistentBut(client)
      requires client.reservation <= t as real || client.limit <= t as real
      modifies this`queue, client
      ensures Consistent() && Taken(client, r, t)
      ensures multiset(queue) == old(multiset(queue)) + (if client.requests == [] then multiset{} else multiset{client})
    {
      hide IsHeap, Distinct, UserConnection.Valid, UserConnection.TakenWhenDue;
      r := TakeOldest(client, t);
      var empty := client.IsRequestsEmpty();
      if !empty {
        Insert(client);
        assert forall c :: c in queue <==> c in old(queue) || c == client by {
          assert forall c :: c in queue <==> c in multiset(queue);
          assert forall c :: c in old(queue) <==> c in old(multiset(queue));
        }
      }
    }

    method TakeOldest(client: UserConnection, t: int) returns (r: Request)
      requires ConsistentBut(client)
      requires client.reservation <= t as real || client.limit <= t as real
      modifies client
      ensures Ordered() && client !in queue
      ensures client.Valid() && client.TakenWhenDue() && Taken(client, r, t)
    {
      var success: bool;
      success, r := client.PopRequest(t);
      OrderOfOthers(client);
    }

    /** The order of the array does not depend on the tags of a connection that is not in it. */
    twostate lemma OrderOfOthers(client: UserConnection)
      requires old(Ordered()) && client !in queue && unchanged(this)
      requires forall c | c in conns && c != client :: c.SortKey() == old(c.SortKey())
      ensures Ordered()
    {
      HeapOfPrefix<UserConnection>(queue, old(Keys(conns)), |queue|, Keys(conns));
      assert queue[..|queue|] == queue;
    }

    twostate predicate Untouched(c: UserConnection)
      reads c
    {
      && c.requests == old(c.requests) && c.accepted == old(c.accepted)
      && c.taken == old(c.taken) && c.takenAt == old(c.takenAt)
    }

    /** `r` was the oldest waiting request of `client` and is now taken, at `t`. */
    twostate predicate Taken(client: UserConnection, r: Request, t: int)
      reads client
    {
      && [r] + client.requests == old(client.requests)
      && client.taken == old(client.taken) + [r]
      && client.takenAt == old(client.takenAt) + [t]
      && client.accepted == old(client.accepted)
    }

    lemma WaitingTags()
      requires Consistent()
      ensures forall k | 0 <= k < |queue| :: Truncated(queue[k].reservation) >= 1
    {
      forall k | 0 <= k < |queue|
        ensures Truncated(queue[k].reservation) >= 1
      {
        queue[k].HeadTags();
      }
    }

    method TakeFront() returns (client: UserConnection)
      requires Consistent() && |queue| > 0
      modifies this`queue
      ensures ConsistentBut(client) && client == old(queue[0])
      ensures multiset(queue) == old(multiset(queue)) - multiset{client}
    {
      hide Ordered, UserConnection.Valid, UserConnection.TakenWhenDue;
      assert Within(queue, conns) && Ordered() by { OrderedIsWithin(); }
      client := RemoveFront();
    }

    method TakeFromMiddle(client: UserConnection, index: nat)
      requires Consistent() && index < |queue| && client == queue[index]
      modifies this`queue, client`reservation, client`limit, client`proportion
      ensures ConsistentBut(client) && Untouched(client)
      ensures client.CurrentTags() == old(client.CurrentTags())
      ensures multiset(queue) == old(multiset(queue)) - multiset{client}
    {
      assert Within(queue, conns) && client.Valid() by { OrderedIsWithin(); }
      WaitingTags();
      RemoveAt(client, index);
      SameButTags(client);
      hide Ordered, UserConnection.Valid, UserConnection.TakenWhenDue;
    }

    twostate lemma SameButTags(client: UserConnection)
      requires old(client.Valid()) && old(client.TakenWhenDue())
      requires client.CurrentTags() == old(client.CurrentTags()) && Untouched(client)
      requires client.limitRate == old(client.limitRate) && client.numPendingBytes == old(client.numPendingBytes)
      requires client.marks == old(client.marks)
      ensures client.Valid() && client.TakenWhenDue()
    {
    }

    lemma OrderedIsWithin()
      requires Ordered()
      ensures Within(queue, conns)
    {
    }

    /** The connection to serve next is off the array, if one is due. */
    method TakeOff(t: int) returns (client: UserConnection?)
      requires Consistent() && |queue| > 0
      modifies this`queue, queue
      ensures client == null <==> !old(FrontDue(t))
      ensures client == null ==> Consistent() && queue == old(queue) && !FrontDue(t)
      ensures client != null ==>
                && ConsistentBut(client) && client in old(queue)
                && (client.reservation <= t as real || client.limit <= t as real)
                && multiset(queue) == old(multiset(queue)) - multiset{client}
                && old(Served(client, t))
      ensures forall c | c in conns :: Untouched(c)
    {
      hide IsLimitChoice, Consistent, ConsistentBut;
      var c := queue[0];
      if c.reservation <= t as real {
        client := TakeFront();
      } else {
        var index;
        client, index := ChooseByLimit(t);
        if client != null {
          assert client.limit <= t as real by { ChoiceIsDue(t, index); }
          TakeFromMiddle(client, index);
        }
      }
    }

    lemma ChoiceIsDue(t: int, index: nat)
      requires index < |queue| && IsLimitChoice(queue, t, index)
      ensures queue[index].limit <= t as real
    {
      var scanned: nat :| LeadingDue(queue, t, scanned) && index < scanned;
    }

    /** Which connection is served at `t`: the front if its reservation is due, otherwise the choice
        by limit and proportion. */
    ghost predicate Served(client: UserConnection, t: int)
      reads this, queue
    {
      && |queue| > 0
      && if queue[0].reservation <= t as real then client == queue[0]
         else exists index: nat :: index < |queue| && client == queue[index] && IsLimitChoice(queue, t, index)
    }

    /** One request is taken exactly when the front is due; then one connection, the one to be
        served, gives up its oldest request, and no other connection changes. */
    method Pull(t: int) returns (found: bool, size: nat, client: UserConnection?, r: Request)
      requires Consistent()
      modifies this`queue, conns
      ensures Consistent()
      ensures size == |queue|
      ensures found <==> old(FrontDue(t))
      ensures found <==> client != null
      ensures !found ==> queue == old(queue) && !FrontDue(t) && Waiting(conns) == old(Waiting(conns))
      ensures found ==> client in old(queue) && old(Served(client, t)) && Taken(client, r, t)
      ensures found ==> Waiting(conns) == old(Waiting(conns)) - 1
      ensures found ==> multiset(queue) == old(multiset(queue)) - multiset{client}
                                           + (if client.requests == [] then multiset{} else multiset{client})
      ensures forall c | c in conns && c != client :: Untouched(c)
    {
      hide IsHeap, Distinct, IsLimitChoice, Total, UserConnection.Valid, UserConnection.TakenWhenDue;
      found, size, client, r := false, 0, null, Request(0, 0, []);
      if |queue| == 0 {
        return;
      }
      ghost var counts: map<UserConnection, nat> := Counts(conns);
      client := TakeOff(t);
      if client == null {
        CountsAfter(counts, conns, null);
        return false, |queue|, null, r;
      }
      r := TakeFrom(client, t);
      CountsAfter(counts, conns, client);
      found, size := true, |queue|;
    }

    /** Calls the handler of a request that has been taken: the log of the scheduler. */
    ghost method Handle(c: UserConnection, r: Request, t: int)
      requires c in conns && c.taken == CallsOf(log, c) + [r]
      requires forall d | d in conns && d != c :: CallsOf(log, d) == d.taken
      requires forall k | 0 <= k < |log| :: log[k].con in conns
      modifies this`log
      ensures log == old(log) + [Call(c, r, t)]
      ensures Logged()
    {
      forall d ensures CallsOf(log + [Call(c, r, t)], d) == CallsOf(log, d) + (if d == c then [r] else []) {
        CallsOfAppend(log, Call(c, r, t), d);
      }
      log := log + [Call(c, r, t)];
    }

    /** One turn of the serving loop. */
    method ServeOne(t: int) returns (found: bool, size: nat)
      requires Valid()
      modifies this`queue, this`log, conns
      ensures Valid() && size == |queue|
      ensures found <==> old(FrontDue(t))
      ensures !found ==> log == old(log) && !FrontDue(t)
      ensures found ==> |log| == |old(log)| + 1 && old(log) <= log && log[|old(log)|].at == t
      ensures Waiting(conns) + |log| == old(Waiting(conns)) + |old(log)|
      ensures forall c | c in conns :: Onward(c)
    {
      hide Consistent, Waiting, Served, FrontDue, CallsOf;
      var client, r;
      found, size, client, r := Pull(t);
      if found {
        Handle(client, r, t);
      }
    }

    twostate predicate Onward(c: UserConnection)
      reads c
    {
      c.accepted == old(c.accepted) && old(c.taken) <= c.taken
    }

    /** Serves until the front is due no more; the number of waiting requests bounds the work. */
    method ProcessPossible(t: int) returns (size: nat)
      requires Valid()
      modifies this`queue, this`log, conns
      ensures Valid() && size == |queue| && !FrontDue(t) && Settled(t)
      ensures forall c | c in conns :: Onward(c)
      ensures old(log) <= log && forall k | |old(log)| <= k < |log| :: log[k].at == t
      ensures |log| - |old(log)| == old(Waiting(conns)) - Waiting(conns)
    {
      hide Consistent, Waiting, FrontDue, CallsOf, Settled, Ordered;
      var found := true;
      size := |queue|;
      while found
        invariant Valid()
        invariant !found ==> size == |queue| && !FrontDue(t)
        invariant forall c | c in conns :: Onward(c)
        invariant old(log) <= log && forall k | |old(log)| <= k < |log| :: log[k].at == t
        invariant |log| - |old(log)| == old(Waiting(conns)) - Waiting(conns)
        decreases found, Waiting(conns)
      {
        found, size := ServeOne(t);
      }
      ValidIsOrdered();
      NoneOverlooked(t);
    }

    /** A connection becomes known to the scheduler with its first request. */
    ghost method Admit(con: UserConnection)
      requires Valid() && con.Valid() && con.TakenWhenDue()
      requires con !in conns ==> con.accepted == []
      modifies this`conns
      ensures Valid() && conns == old(conns) + {con}
    {
      hide CallsOf, Distinct, IsHeap, UserConnection.Valid, UserConnection.TakenWhenDue;
      if con in conns {
        assert conns + {con} == conns;
      } else {
        ghost var keys: map<UserConnection, Key> := Keys(conns);
        Newcomer(con);
        conns := conns + {con};
        OrderUnder(keys);
      }
    }

    lemma Newcomer(con: UserConnection)
      requires Within(queue, conns) && Logged() && con.Valid() && con.accepted == [] && con !in conns
      ensures con.taken == [] && con.requests == [] && con !in queue && CallsOf(log, con) == []
    {
      NoCalls(log, con);
    }

    /** Takes the request in, without serving anything. */
    method Accept(con: UserConnection, r: Request) returns (ok: bool, size: nat)
      requires Valid() && con in conns
      requires r.arrival >= 501 && |r.data| <= MAX_LEN
      modifies con
      ensures Logged()
      ensures ok <==> old(con.numPendingBytes) < MAX_PENDING_BYTES
      ensures con.accepted == old(con.accepted) + (if ok then [r] else []) && con.taken == old(con.taken)
      ensures size == |old(con.requests)|
      ensures !ok || size > 0 ==> Consistent()
      ensures ok && size == 0 ==> ConsistentBut(con) && con.requests == [r]
      ensures ok && size == 0 ==>
                con.CurrentTags() == Updated(old(con.CurrentTags()), r.arrival, |r.data|, con.limitRate)
    {
      hide CallsOf, Distinct, IsHeap, UserConnection.Valid, UserConnection.TakenWhenDue;
      ghost var keys: map<UserConnection, Key> := Keys(conns);
      ok, size := con.PushRequest(r);
      OrderUnder(keys);
    }

    /** The order of the array only depends on the keys of what is in it. */
    lemma OrderUnder(keys: map<UserConnection, Key>)
      requires Within(queue, conns) && Distinct<UserConnection>(queue)
      requires IsHeap<UserConnection>(queue, keys, |queue|)
      requires forall k | 0 <= k < |queue| :: KeyOf<UserConnection>(keys, queue[k]) == queue[k].SortKey()
      ensures Ordered()
    {
      HeapOfPrefix<UserConnection>(queue, keys, |queue|, Keys(conns));
      assert queue[..|queue|] == queue;
    }

    /** The connection's only request, due on arrival, is handled at once, past the array. */
    method HandleAtOnce(con: UserConnection, t: int)
      requires ConsistentBut(con) && |con.requests| == 1 && con.reservation <= t as real
      requires Logged()
      modifies this`log, con
      ensures Valid() && con.requests == [] && con.accepted == old(con.accepted)
      ensures con.taken == old(con.taken) + old(con.requests)
      ensures log == old(log) + [Call(con, old(con.requests[0]), t)]
    {
      hide CallsOf, Distinct, IsHeap, UserConnection.Valid, UserConnection.TakenWhenDue;
      var r := TakeOldest(con, t);
      Handle(con, r, t);
    }

    /** `con`, with its first request in, takes its place in the array. */
    method Enqueue(con: UserConnection)
      requires ConsistentBut(con)
      modifies this`queue
      ensures Consistent()
    {
      hide Distinct, IsHeap, UserConnection.Valid, UserConnection.TakenWhenDue;
      Insert(con);
      assert forall c :: c in queue <==> c in old(queue) || c == con by {
        assert forall c :: c in queue <==> c in multiset(queue);
        assert forall c :: c in old(queue) <==> c in old(multiset(queue));
      }
    }

    /** A request of `con` arrives; `t` is the clock on entry and `later` when the scheduler gets to
        serve what is due.  It is refused exactly when 10 MiB of the connection are pending.  An idle
        connection's request that is due by reservation is handled at once, and nothing else is. */
    method Push(con: UserConnection, r: Request, t: int, later: int) returns (ok: bool)
      requires Valid() && con.Valid() && con.TakenWhenDue()
      requires con !in conns ==> con.accepted == []
      requires r.arrival >= 501 && |r.data| <= MAX_LEN
      modifies this, conns, con
      ensures Valid() && conns == old(conns) + {con}
      ensures ok <==> old(con.numPendingBytes) < MAX_PENDING_BYTES
      ensures !ok ==> queue == old(queue) && log == old(log) && con.taken == old(con.taken)
      ensures con.accepted == old(con.accepted) + (if ok then [r] else [])
      ensures forall c | c in old(conns) && c != con :: Onward(c)
      ensures old(log) <= log && old(con.taken) <= con.taken
      ensures ok && old(con.requests) == [] && old(con.DueOnArrival(t, r, con.CurrentTags())) ==>
                log == old(log) + [Call(con, r, t)] && queue == old(queue)
      ensures ok && !(old(con.requests) == [] && old(con.DueOnArrival(t, r, con.CurrentTags()))) ==>
                !FrontDue(later) && forall k | |old(log)| <= k < |log| :: log[k].at == later
    {
      hide Consistent, Ordered, ConsistentBut, CallsOf, FrontDue, UserConnection.Valid, UserConnection.TakenWhenDue;
      Admit(con);
      var size;
      ok, size := Accept(con, r);
      if !ok {
        return;
      }
      if size == 0 {
        if con.reservation <= t as real {
          HandleAtOnce(con, t);
          return;
        }
        Enqueue(con);
      }
      var n := ProcessPossible(later);
    }

    /** The scheduler's thread: it serves what is due at each of the times it wakes. */
    method Exec(wakes: seq<int>)
      requires Valid()
      modifies this`queue, this`log, conns
      ensures Valid() && forall c | c in conns :: Onward(c)
      ensures |log| + Waiting(conns) == |old(log)| + old(Waiting(conns))
      ensures wakes != [] ==> !FrontDue(wakes[|wakes| - 1]) && Settled(wakes[|wakes| - 1])
    {
      hide Consistent, CallsOf, FrontDue, Settled, Waiting;
      for i := 0 to |wakes|
        invariant Valid() && forall c | c in conns :: Onward(c)
        invariant |log| + Waiting(conns) == |old(log)| + old(Waiting(conns))
        invariant i > 0 ==> !FrontDue(wakes[i - 1]) && Settled(wakes[i - 1])
      {
        var n := ProcessPossible(wakes[i]);
      }
    }

    /** A manager logs in on `con` while the scheduler runs its handler: the rate changes, no tag does. */
    method AllowManagerRate(con: UserConnection)
      requires Valid() && con.Valid() && con.TakenWhenDue()
      modifies con`limitRate
      ensures Valid() && con.Valid() && con.TakenWhenDue() && con.limitRate == MANAGER_RATE
    {
      hide CallsOf, Distinct, IsHeap, UserConnection.Valid, UserConnection.TakenWhenDue;
      ghost var keys: map<UserConnection, Key> := Keys(conns);
      con.AllowManagerRate();
      OrderUnder(keys);
    }

    /** What the scheduler promises of a connection, in every state its lock is free in: accepted
        requests were handled once each, in order, or still wait, in order; it is in the array, once,
        exactly when some wait; and the throughput bound holds between any two handled requests. */
    lemma Promises(c: UserConnection, i: nat, j: nat, most: int)
      requires Valid() && c in conns
      ensures c.accepted == CallsOf(log, c) + c.requests
      ensures multiset(queue)[c] == if c.requests == [] then 0 else 1
      ensures c.numPendingBytes == TotalBytes(c.requests) < MAX_PENDING_BYTES + MAX_LEN
      ensures i <= j < |CallsOf(log, c)| && RESERVED_RATE <= most
              && (most >= c.limitRate || forall k | i < k <= j :: c.marks[k].rate <= most) ==>
                TotalBytes(c.accepted[i + 1..j + 1]) * 1000 <= most * (c.takenAt[j] - c.accepted[i].arrival + 500)
    {
      hide Ordered, IsHeap;
      assert Distinct<UserConnection>(queue) by { OrderedIsDistinct(); }
      MultiplicityOne<UserConnection>(queue, c);
      assert c in queue <==> c in multiset(queue);
      if i <= j < |c.taken| && RESERVED_RATE <= most
         && (most >= c.limitRate || forall k | i < k <= j :: c.marks[k].rate <= most) {
        c.Throughput(i, j, most);
      }
    }

    lemma KnownAreValid()
      requires Valid()
      ensures forall c | c in conns :: c.Valid() && c.TakenWhenDue()
    {
    }

    lemma OrderedIsDistinct()
      requires Ordered()
      ensures Distinct<UserConnection>(queue)
    {
    }
  }

  /** One request less on `client` than in the snapshot, if there is one, and the rest as it was. */
  lemma CountsAfter(before: map<UserConnection, nat>, cs: set<UserConnection>, client: UserConnection?)
    requires before.Keys == cs
    requires forall c | c in cs && c != client :: |c.requests| == before[c]
    requires client != null ==> client in cs && |client.requests| + 1 == before[client]
    ensures Waiting(cs) == Total(before) - (if client == null then 0 else 1)
  {
    if client == null {
      assert Counts(cs) == before;
    } else {
      assert Counts(cs) == before[client := |client.requests|];
      TotalChange<UserConnection>(before, client, |client.requests|);
    }
  }

  /** A request arrives for a connection, at `entered` by the scheduler's clock, which then serves what
      is due at `served`; or the scheduler's thread wakes; or a manager logs in on a connection. */
  datatype Event =
    | Arrive(con: UserConnection, request: Request, entered: int, served: int)
    | Wake(at: int)
    | Login(con: UserConnection)

  /** The requests of a connection that were not refused, in the order they came in. */
  ghost function TakenIn(events: seq<Event>, verdicts: seq<bool>, c: UserConnection): seq<Request>
    requires |verdicts| == |events|
  {
    if events == [] then []
    else
      var n := |events| - 1;
      TakenIn(events[..n], verdicts[..n], c)
      + (if events[n].Arrive? && events[n].con == c && verdicts[n] then [events[n].request] else [])
  }

  lemma TakenInMore(events: seq<Event>, verdicts: seq<bool>, e: Event, verdict: bool, c: UserConnection)
    requires |verdicts| == |events|
    ensures TakenIn(events + [e], verdicts + [verdict], c)
            == TakenIn(events, verdicts, c) + (if e.Arrive? && e.con == c && verdict then [e.request] else [])
  {
    assert (events + [e])[..|events|] == events && (verdicts + [verdict])[..|events|] == verdicts;
  }

  predicate Acceptable(e: Event, cons: set<UserConnection>) {
    match e
    case Arrive(con, request, _, _) => con in cons && request.arrival >= 501 && |request.data| <= MAX_LEN
    case Wake(_) => true
    case Login(con) => con in cons
  }

  /** Every connection's accounts are right: what it had accepted is what arrived for it and was not
      refused; of that a prefix was handled, once each and in order, and the rest waits. */
  ghost predicate Accounted(h: Heap, cons: set<UserConnection>, events: seq<Event>, verdicts: seq<bool>)
    requires |verdicts| == |events|
    reads cons, h`log
  {
    forall c | c in cons ::
      TakenIn(events, verdicts, c) == c.accepted == CallsOf(h.log, c) + c.requests
  }

  /** What a run keeps between events. */
  ghost predicate Running(h: Heap, cons: set<UserConnection>, events: seq<Event>, verdicts: seq<bool>)
    requires |verdicts| == |events|
    reads cons, h, h.conns
  {
    && h.Valid() && h.conns <= cons
    && (forall c | c in cons :: c.Valid() && c.TakenWhenDue())
    && (forall c | c in cons && c !in h.conns :: c.accepted == [])
    && (forall c | c in cons :: c.accepted == TakenIn(events, verdicts, c))
  }

  lemma RunningAccounts(h: Heap, cons: set<UserConnection>, events: seq<Event>, verdicts: seq<bool>)
    requires |verdicts| == |events| && Running(h, cons, events, verdicts)
    ensures Accounted(h, cons, events, verdicts) && h.Valid() && h.conns <= cons
  {
    forall c | c in cons
      ensures c.accepted == CallsOf(h.log, c) + c.requests
    {
      if c !in h.conns {
        NoCalls(h.log, c);
      }
    }
  }

  /** A request was refused only after 10 MiB of the connection's had been accepted. */
  ghost predicate RefusedWhenFull(events: seq<Event>, verdicts: seq<bool>, k: nat)
    requires k < |events| == |verdicts|
  {
    events[k].Arrive? && !verdicts[k] ==>
      TotalBytes(TakenIn(events[..k], verdicts[..k], events[k].con)) >= MAX_PENDING_BYTES
  }

  lemma RefusalsStand(events: seq<Event>, verdicts: seq<bool>, e: Event, verdict: bool)
    requires |events| == |verdicts| && forall k | 0 <= k < |events| :: RefusedWhenFull(events, verdicts, k)
    requires e.Arrive? && !verdict ==> TotalBytes(TakenIn(events, verdicts, e.con)) >= MAX_PENDING_BYTES
    ensures forall k | 0 <= k <= |events| :: RefusedWhenFull(events + [e], verdicts + [verdict], k)
  {
    forall k | 0 <= k <= |events|
      ensures RefusedWhenFull(events + [e], verdicts + [verdict], k)
    {
      assert (events + [e])[..k] == events[..k] && (verdicts + [verdict])[..k] == verdicts[..k];
      assert events[..|events|] == events && verdicts[..|events|] == verdicts;
      assert k < |events| ==> RefusedWhenFull(events, verdicts, k);
    }
  }

  lemma PendingWasAccepted(c: UserConnection)
    requires c.Valid()
    ensures c.numPendingBytes <= TotalBytes(c.accepted)
  {
    TotalBytesAppend(c.taken, c.requests);
  }

  method Begin(cons: set<UserConnection>) returns (h: Heap)
    requires forall c | c in cons :: c.Valid() && c.TakenWhenDue() && c.accepted == []
    ensures fresh(h) && h.conns == {} && Running(h, cons, [], [])
  {
    h := new Heap();
  }

  method OneArrival(h: Heap, cons: set<UserConnection>, e: Event, ghost before: seq<Event>, ghost verdicts: seq<bool>)
    returns (verdict: bool)
    requires e.Arrive? && Acceptable(e, cons) && |verdicts| == |before| && Running(h, cons, before, verdicts)
    modifies h, cons
    ensures Running(h, cons, before + [e], verdicts + [verdict])
    ensures verdict <==> old(e.con.numPendingBytes) < MAX_PENDING_BYTES
  {
    hide Heap.Consistent, Heap.Logged, CallsOf, TakenIn, UserConnection.Valid, UserConnection.TakenWhenDue;
    verdict := h.Push(e.con, e.request, e.entered, e.served);
    h.KnownAreValid();
    forall c | c in cons
      ensures c.accepted == TakenIn(before + [e], verdicts + [verdict], c)
    {
      TakenInMore(before, verdicts, e, verdict, c);
      assert c in old(h.conns) && c != e.con ==> h.Onward(c);
      assert c !in old(h.conns) && c != e.con ==> c.accepted == old(c.accepted);
    }
  }

  method OneWake(h: Heap, cons: set<UserConnection>, e: Event, ghost before: seq<Event>, ghost verdicts: seq<bool>)
    requires e.Wake? && |verdicts| == |before| && Running(h, cons, before, verdicts)
    modifies h, cons
    ensures Running(h, cons, before + [e], verdicts + [false]) && !h.FrontDue(e.at) && h.Settled(e.at)
  {
    hide Heap.Consistent, Heap.Logged, Heap.FrontDue, Heap.Settled, CallsOf, TakenIn;
    hide UserConnection.Valid, UserConnection.TakenWhenDue;
    var n := h.ProcessPossible(e.at);
    h.KnownAreValid();
    forall c | c in cons
      ensures c.accepted == TakenIn(before + [e], verdicts + [false], c)
    {
      TakenInMore(before, verdicts, e, false, c);
      assert c in old(h.conns) ==> h.Onward(c);
    }
  }

  method OneLogin(h: Heap, cons: set<UserConnection>, e: Event, ghost before: seq<Event>, ghost verdicts: seq<bool>)
    requires e.Login? && e.con in cons && |verdicts| == |before| && Running(h, cons, before, verdicts)
    modifies e.con`limitRate
    ensures Running(h, cons, before + [e], verdicts + [false]) && e.con.limitRate == MANAGER_RATE
  {
    hide Heap.Consistent, Heap.Logged, CallsOf, TakenIn, UserConnection.Valid, UserConnection.TakenWhenDue;
    h.AllowManagerRate(e.con);
    h.KnownAreValid();
    forall c | c in cons
      ensures c.accepted == TakenIn(before + [e], verdicts + [false], c)
    {
      TakenInMore(before, verdicts, e, false, c);
    }
  }

  method OneEvent(h: Heap, cons: set<UserConnection>, e: Event, ghost before: seq<Event>, ghost verdicts: seq<bool>)
    returns (verdict: bool)
    requires |verdicts| == |before| && Running(h, cons, before, verdicts) && Acceptable(e, cons)
    modifies h, cons
    ensures Running(h, cons, before + [e], verdicts + [verdict])
    ensures e.Arrive? && !verdict ==> TotalBytes(TakenIn(before, verdicts, e.con)) >= MAX_PENDING_BYTES
    ensures e.Wake? ==> !h.FrontDue(e.at) && h.Settled(e.at)
  {
    if e.Arrive? {
      PendingWasAccepted(e.con);
      verdict := OneArrival(h, cons, e, before, verdicts);
    } else if e.Wake? {
      OneWake(h, cons, e, before, verdicts);
      verdict := false;
    } else {
      OneLogin(h, cons, e, before, verdicts);
      verdict := false;
    }
    hide Running, Heap.FrontDue, Heap.Settled, TakenIn, TotalBytes, UserConnection.Valid;
  }

  /** Over any run, with any connections and requests arriving for them in any order. */
  method AnyRun(cons: set<UserConnection>, events: seq<Event>) returns (h: Heap, verdicts: seq<bool>)
    requires forall c | c in cons :: c.Valid() && c.TakenWhenDue() && c.accepted == []
    requires forall k | 0 <= k < |events| :: Acceptable(events[k], cons)
    modifies cons
    ensures fresh(h) && h.Valid() && h.conns <= cons && |verdicts| == |events|
    ensures Accounted(h, cons, events, verdicts)
    ensures forall k | 0 <= k < |events| :: RefusedWhenFull(events, verdicts, k)
    ensures events != [] && events[|events| - 1].Wake? ==>
              !h.FrontDue(events[|events| - 1].at) && h.Settled(events[|events| - 1].at)
  {
    hide *;
    h := Begin(cons);
    verdicts := [];
    var i := 0;
    assert events[..0] == [];
    while i < |events|
      invariant i == |verdicts| <= |events| && fresh(h)
      invariant Running(h, cons, events[..i], verdicts)
      invariant forall k | 0 <= k < i :: RefusedWhenFull(events[..i], verdicts, k)
      invariant i > 0 && events[i - 1].Wake? ==> !h.FrontDue(events[i - 1].at) && h.Settled(events[i - 1].at)
    {
      assert events[..i + 1] == events[..i] + [events[i]];
      ghost var before := verdicts;
      var verdict := OneEvent(h, cons, events[i], events[..i], verdicts);
      verdicts := verdicts + [verdict];
      RefusalsStand(events[..i], before, events[i], verdict);
      i := i + 1;
    }
    assert events[..i] == events;
    RunningAccounts(h, cons, events, verdicts);
  }
}
