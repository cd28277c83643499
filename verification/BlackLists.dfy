/** The server's black list: for each address or account two counters, of the running five minutes
    and of the running hour, and the time until which it is blocked.  Times are seconds. */
module BlackLists {
  const FIVE_MINUTES := 300
  const HOUR := 3600
  const LIMIT := 5

  datatype Count = Count(count: nat, forTime: int)
  datatype Status = Status(m: Count, h: Count, blocked: bool, blockUntil: int)

  predicate Sorted(times: seq<nat>) {
    forall j, k | 0 <= j < k < |times| :: times[j] <= times[k]
  }

  /** How many of the times fall in the given period of the given length. */
  function Within(times: seq<nat>, length: nat, period: int): nat
    requires length > 0
  {
    if times == [] then 0
    else Within(times[..|times| - 1], length, period) + (if times[|times| - 1] / length == period then 1 else 0)
  }

  /** The start of the period that a time falls in. */
  function Start(t: nat, length: nat): int
    requires length > 0
  {
    t / length * length
  }

  lemma StartsDiffer(t: nat, u: nat, length: nat)
    requires length > 0
    ensures Start(t, length) == Start(u, length) <==> t / length == u / length
  {
    if t / length < u / length {
      assert (t / length + 1) * length <= u / length * length;
    } else if u / length < t / length {
      assert (u / length + 1) * length <= t / length * length;
    }
  }

  lemma LaterPeriod(t: nat, u: nat, length: nat)
    requires length > 0 && t <= u
    ensures t / length <= u / length
  {
    var a, b := t / length, u / length;
    assert a * length <= t && u < (b + 1) * length;
    Scaled(b + 1, a, length);
  }

  lemma Scaled(a: nat, b: nat, length: nat)
    ensures a <= b ==> a * length <= b * length
  {
  }

  lemma {:induction false} NoneWithin(times: seq<nat>, length: nat, period: int)
    requires length > 0 && forall k | 0 <= k < |times| :: times[k] / length != period
    ensures Within(times, length, period) == 0
  {
    if times != [] {
      NoneWithin(times[..|times| - 1], length, period);
    }
  }

  /** How many of the last times, up to one of another period, fall in the given period. */
  function Streak(times: seq<nat>, length: nat, period: int): (n: nat)
    requires length > 0
  {
    if times == [] || times[|times| - 1] / length != period then 0
    else 1 + Streak(times[..|times| - 1], length, period)
  }

  /** If the clock was never set back, that is all of them. */
  lemma {:induction false} StreakIsWithin(times: seq<nat>, length: nat)
    requires length > 0 && times != [] && Sorted(times)
    ensures var period := times[|times| - 1] / length; Streak(times, length, period) == Within(times, length, period)
  {
    var rest, last := times[..|times| - 1], times[|times| - 1];
    var period := last / length;
    if rest != [] && rest[|rest| - 1] / length == period {
      StreakIsWithin(rest, length);
    } else if rest != [] {
      forall k | 0 <= k < |rest|
        ensures rest[k] / length != period
      {
        LaterPeriod(rest[k], rest[|rest| - 1], length);
        LaterPeriod(rest[|rest| - 1], last, length);
      }
      NoneWithin(rest, length, period);
    }
  }

  /** Five minutes lie within an hour. */
  lemma {:induction false} MinutesWithinHour(times: seq<nat>, t: nat)
    ensures Streak(times, FIVE_MINUTES, t / FIVE_MINUTES) <= Streak(times, HOUR, t / HOUR)
  {
    if times != [] {
      MinutesWithinHour(times[..|times| - 1], t);
    }
  }

  /** A counter that agrees with the history. */
  ghost predicate Counts(c: Count, times: seq<nat>, length: nat)
    requires length > 0 && times != []
  {
    var last := times[|times| - 1];
    c.forTime == Start(last, length) && c.count == Streak(times, length, last / length)
  }

  /** One more event. */
  function Counted(c: Count, now: nat, length: nat): Count
    requires length > 0
  {
    if c.forTime == Start(now, length) then c.(count := c.count + 1) else Count(1, Start(now, length))
  }

  lemma CountedStill(c: Count, times: seq<nat>, now: nat, length: nat)
    requires length > 0 && times != [] && Counts(c, times, length)
    ensures Counts(Counted(c, now, length), times + [now], length)
  {
    StartsDiffer(times[|times| - 1], now, length);
    assert (times + [now])[..|times|] == times;
  }

  /** The event was at least the fifth of its clock hour in a row. */
  predicate OneTooMany(times: seq<nat>, k: nat)
    requires k < |times|
  {
    Streak(times[..k + 1], HOUR, times[k] / HOUR) >= LIMIT
  }

  /** And none since then was. */
  predicate LastTooMany(times: seq<nat>, k: nat)
    requires k < |times|
  {
    OneTooMany(times, k) && forall j | k < j < |times| :: !OneTooMany(times, j)
  }

  /** What a status says about the events of its key. */
  ghost predicate Agrees(status: Status, times: seq<nat>) {
    && times != []
    && Counts(status.m, times, FIVE_MINUTES)
    && Counts(status.h, times, HOUR)
    && (!status.blocked ==> forall k | 0 <= k < |times| :: !OneTooMany(times, k))
    && (status.blocked ==> exists k | 0 <= k < |times| :: LastTooMany(times, k) && status.blockUntil == times[k] + HOUR)
  }

  /** `increase` of a key that is there. */
  function Increased(s: Status, now: nat): Status {
    var m, h := Counted(s.m, now, FIVE_MINUTES), Counted(s.h, now, HOUR);
    if h.count >= LIMIT then Status(m, h, true, now + HOUR) else Status(m, h, s.blocked, s.blockUntil)
  }

  lemma OneMore(times: seq<nat>, now: nat, k: nat)
    requires k <= |times|
    ensures OneTooMany(times + [now], k) <==>
            if k < |times| then OneTooMany(times, k) else Streak(times + [now], HOUR, now / HOUR) >= LIMIT
  {
    if k < |times| {
      assert (times + [now])[..k + 1] == times[..k + 1];
    } else {
      assert (times + [now])[..k + 1] == times + [now];
    }
  }

  /** One more event that is not one too many changes nothing about those that were. */
  lemma StillLast(times: seq<nat>, now: nat, k: nat)
    requires k < |times| && LastTooMany(times, k) && !OneTooMany(times + [now], |times|)
    ensures LastTooMany(times + [now], k)
  {
    OneMore(times, now, k);
    forall j | k < j < |times + [now]|
      ensures !OneTooMany(times + [now], j)
    {
      OneMore(times, now, j);
    }
  }

  lemma IncreasedAgrees(s: Status, times: seq<nat>, now: nat)
    requires Agrees(s, times)
    ensures Agrees(Increased(s, now), times + [now])
    ensures Increased(s, now).m.count <= Increased(s, now).h.count
  {
    var s', more := Increased(s, now), times + [now];
    CountedStill(s.m, times, now, FIVE_MINUTES);
    CountedStill(s.h, times, now, HOUR);
    MinutesWithinHour(more, now);
    OneMore(times, now, |times|);
    hide Streak, OneTooMany, Counted;
    if s'.h.count >= LIMIT {
      assert LastTooMany(more, |times|) && more[|times|] == now;
    } else if s.blocked {
      var k :| 0 <= k < |times| && LastTooMany(times, k) && s.blockUntil == times[k] + HOUR;
      StillLast(times, now, k);
      assert more[k] == times[k];
    } else {
      forall k | 0 <= k < |more|
        ensures !OneTooMany(more, k)
      {
        OneMore(times, now, k);
      }
    }
  }

  lemma FirstAgrees(now: nat)
    ensures Agrees(Status(Count(1, Start(now, FIVE_MINUTES)), Count(1, Start(now, HOUR)), false, 0), [now])
  {
    assert [now][..1] == [now] && [now][..0] == [];
  }

  /** The event was at least the fifth of its clock hour. */
  predicate FifthOfItsHour(times: seq<nat>, k: nat)
    requires k < |times|
  {
    Within(times[..k + 1], HOUR, times[k] / HOUR) >= LIMIT
  }

  predicate BlockedAt(times: seq<nat>, now: nat) {
    exists k | 0 <= k < |times| :: LastTooMany(times, k) && times[k] + HOUR >= now
  }

  lemma SortedTooMany(times: seq<nat>, k: nat)
    requires Sorted(times) && k < |times|
    ensures OneTooMany(times, k) <==> FifthOfItsHour(times, k)
  {
    StreakIsWithin(times[..k + 1], HOUR);
  }

  lemma {:induction false} SomeIsLast(times: seq<nat>, j: nat) returns (k: nat)
    requires j < |times| && OneTooMany(times, j)
    ensures j <= k < |times| && LastTooMany(times, k)
    decreases |times| - j
  {
    if i :| j < i < |times| && OneTooMany(times, i) {
      k := SomeIsLast(times, i);
    } else {
      k := j;
    }
  }

  /** If the clock was never set back, a key is blocked exactly when, within the last hour, one of its events
      was at least the fifth of its clock hour: the shorter block for five events in five minutes never shows. */
  lemma BlockedWithinTheHour(times: seq<nat>, now: nat)
    requires Sorted(times)
    ensures BlockedAt(times, now) <==> exists k | 0 <= k < |times| :: FifthOfItsHour(times, k) && times[k] + HOUR >= now
  {
    forall k | 0 <= k < |times|
      ensures OneTooMany(times, k) <==> FifthOfItsHour(times, k)
    {
      SortedTooMany(times, k);
    }
    hide OneTooMany, FifthOfItsHour;
    if j :| 0 <= j < |times| && FifthOfItsHour(times, j) && times[j] + HOUR >= now {
      var k := SomeIsLast(times, j);
      assert times[j] <= times[k];
    }
  }

  class BlackList<Target(==)> {
    var statuses: map<Target, Status>

    /** The times of the events of each key since it was created. */
    ghost var events: map<Target, seq<nat>>

    ghost predicate Valid()
      reads this
    {
      && statuses.Keys == events.Keys
      && (forall key | key in statuses :: Agrees(statuses[key], events[key]))
    }

    ghost function EventsOf(key: Target): seq<nat>
      reads this
    {
      if key in events then events[key] else []
    }

    constructor ()
      ensures Valid() && events == map[]
    {
      statuses, events := map[], map[];
    }

    /** A failed attempt of a key that is there. */
    static method Bump(was: Status, now: nat) returns (status: Status)
      requires Increased(was, now).m.count <= Increased(was, now).h.count
      ensures status == Increased(was, now)
    {
      var newM, newH := Start(now, FIVE_MINUTES), Start(now, HOUR);
      status := was;
      if status.m.forTime == newM {
        status := status.(m := status.m.(count := status.m.count + 1));
        if status.m.count >= LIMIT {
          status := status.(blocked := true, blockUntil := now + FIVE_MINUTES);
        }
      } else {
        status := status.(m := Count(1, newM));
      }
      if status.h.forTime == newH {
        status := status.(h := status.h.(count := status.h.count + 1));
        if status.h.count >= LIMIT {
          status := status.(blocked := true, blockUntil := now + HOUR);
        }
      } else {
        status := status.(h := Count(1, newH));
      }
    }

    /** A failed attempt. */
    method Increase(key: Target, now: nat)
      requires Valid()
      modifies this
      ensures Valid() && events == old(events)[key := old(EventsOf(key)) + [now]]
      ensures key in statuses && statuses[key].m.count <= statuses[key].h.count
    {
      ghost var was := EventsOf(key);
      if key !in statuses {
        FirstAgrees(now);
        assert was + [now] == [now];
        statuses := statuses[key := Status(Count(1, Start(now, FIVE_MINUTES)), Count(1, Start(now, HOUR)), false, 0)];
      } else {
        IncreasedAgrees(statuses[key], was, now);
        hide Increased;
        var status := Bump(statuses[key], now);
        statuses := statuses[key := status];
      }
      events := events[key := was + [now]];
      hide Agrees;
    }

    /** A key is turned away until an hour after the last of its events that was one too many. */
    method Check(key: Target, now: nat) returns (free: bool)
      requires Valid()
      ensures free <==> !BlockedAt(EventsOf(key), now)
    {
      if key in statuses {
        var status := statuses[key];
        assert Agrees(status, EventsOf(key));
        hide OneTooMany, Counts;
        if status.blocked && status.blockUntil >= now {
          return false;
        }
      }
      return true;
    }

    method Remove(key: Target)
      requires Valid()
      modifies this
      ensures Valid() && events == old(events) - {key}
    {
      statuses := statuses - {key};
      events := events - {key};
    }
  }
}
