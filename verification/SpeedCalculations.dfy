/** The speed meter: a ring of twelve slots of a tenth of a second that answers for the last ten. */
module SpeedCalculations {
  const SLOTS := 12
  const MSECS_PER_SLOT := 100
  const SLOTS_PER_SECOND := 10

  /** What came in during one slot, or in one update. */
  datatype Entry = Entry(slot: int, value: nat)

  /** The sum of the values whose slot is later than `after`. */
  function Since(entries: seq<Entry>, after: int): nat {
    if entries == [] then 0
    else
      var e := entries[|entries| - 1];
      Since(entries[..|entries| - 1], after) + (if e.slot > after then e.value else 0)
  }

  lemma SinceMore(entries: seq<Entry>, e: Entry, after: int)
    ensures Since(entries + [e], after) == Since(entries, after) + (if e.slot > after then e.value else 0)
  {
    assert (entries + [e])[..|entries|] == entries;
  }

  lemma SinceLess(entries: seq<Entry>, n: nat, after: int)
    requires 0 < n <= |entries|
    ensures Since(entries[..n], after)
            == Since(entries[..n - 1], after) + (if entries[n - 1].slot > after then entries[n - 1].value else 0)
  {
    assert entries[..n][..n - 1] == entries[..n - 1];
  }

  lemma {:induction false} NothingSince(entries: seq<Entry>, after: int)
    requires forall k | 0 <= k < |entries| :: entries[k].slot <= after || entries[k].value == 0
    ensures Since(entries, after) == 0
  {
    if entries != [] {
      NothingSince(entries[..|entries| - 1], after);
    }
  }

  /** The log after one more update: updates of one slot that follow one another go together. */
  ghost function Logged(log: seq<Entry>, t: int, value: nat): seq<Entry>
    requires log != []
  {
    var last := log[|log| - 1];
    if last.slot == t then log[|log| - 1 := Entry(t, last.value + value)] else log + [Entry(t, value)]
  }

  /** The slots a meter has had, from the twelve empty ones on. */
  ghost function LogOf(history: seq<Entry>): (log: seq<Entry>)
    ensures |log| >= SLOTS
    ensures log[|log| - 1].slot == if history == [] then 0 else history[|history| - 1].slot
  {
    if history == [] then seq(SLOTS, _ => Entry(0, 0))
    else Logged(LogOf(history[..|history| - 1]), history[|history| - 1].slot, history[|history| - 1].value)
  }

  lemma LoggedSince(log: seq<Entry>, t: int, value: nat, after: int)
    requires log != []
    ensures Since(Logged(log, t, value), after) == Since(log, after) + (if t > after then value else 0)
  {
    var last := log[|log| - 1];
    if last.slot == t {
      var rest := log[..|log| - 1];
      assert log == rest + [last];
      assert Logged(log, t, value) == rest + [Entry(t, last.value + value)];
      SinceMore(rest, last, after);
      SinceMore(rest, Entry(t, last.value + value), after);
    } else {
      SinceMore(log, Entry(t, value), after);
    }
  }

  /** The log sums up to what the history does. */
  lemma {:induction false} LogAgrees(history: seq<Entry>, after: int)
    ensures Since(LogOf(history), after) == Since(history, after)
  {
    if history == [] {
      NothingSince(LogOf([]), after);
    } else {
      var rest, e := history[..|history| - 1], history[|history| - 1];
      LogAgrees(rest, after);
      LoggedSince(LogOf(rest), e.slot, e.value, after);
    }
  }

  /** The clock was never set back. */
  predicate Ordered(history: seq<Entry>) {
    forall j, k | 0 <= j < k < |history| :: history[j].slot <= history[k].slot
  }

  /** The log of a clock that never was: but for the first twelve entries, which are empty unless the
      first update is of slot zero, the slots increase. */
  ghost predicate IsLog(log: seq<Entry>) {
    && |log| >= SLOTS
    && (forall k | 0 <= k < SLOTS - 1 :: log[k].value == 0)
    && (forall j, k | SLOTS - 1 <= j < k < |log| ::
          log[j].slot < log[k].slot || (j == SLOTS - 1 && log[j].value == 0))
  }

  lemma {:induction false} OrderedIsLog(history: seq<Entry>)
    requires Ordered(history)
    ensures IsLog(LogOf(history))
  {
    if history != [] {
      OrderedIsLog(history[..|history| - 1]);
    }
  }

  lemma {:induction false} SlotsApart(log: seq<Entry>, j: nat, k: nat)
    requires IsLog(log) && SLOTS <= j <= k < |log|
    ensures log[k].slot - log[j].slot >= k - j
    decreases k - j
  {
    if j < k {
      SlotsApart(log, j, k - 1);
    }
  }

  /** If the ring is full of slots of the last second, then nothing that fell off it counts. */
  lemma FullRing(log: seq<Entry>, last: int)
    requires IsLog(log) && last == log[|log| - 1].slot
    requires log[|log| - SLOTS].slot > last - SLOTS_PER_SECOND
    ensures Since(log[..|log| - SLOTS], last - SLOTS_PER_SECOND) == 0
  {
    if |log| >= 2 * SLOTS {
      SlotsApart(log, |log| - SLOTS, |log| - 1);
    }
    NothingSince(log[..|log| - SLOTS], last - SLOTS_PER_SECOND);
  }

  /** Nothing at or before an entry that is too old counts. */
  lemma OldEnough(log: seq<Entry>, k: nat, after: int)
    requires IsLog(log) && k < |log| && log[k].slot <= after
    ensures Since(log[..k + 1], after) == 0
  {
    NothingSince(log[..k + 1], after);
  }

  /** How many of the last entries, but no more than `n`, are all later than `after`. */
  ghost function Reach(log: seq<Entry>, n: nat, after: int): (r: nat)
    ensures r <= n && r <= |log|
    ensures r > 0 ==> log[|log| - r].slot > after
    ensures r < n && r < |log| ==> log[|log| - 1 - r].slot <= after
    decreases n
  {
    if n == 0 || log == [] || log[|log| - 1].slot <= after then 0 else 1 + Reach(log[..|log| - 1], n - 1, after)
  }

  lemma ReachOne(log: seq<Entry>, k: nat, n: nat, after: int)
    requires k < |log| && n > 0
    ensures Reach(log[..|log| - k], n, after) ==
            if log[|log| - 1 - k].slot <= after then 0 else 1 + Reach(log[..|log| - k - 1], n - 1, after)
  {
    assert log[..|log| - k][..|log| - k - 1] == log[..|log| - k - 1];
  }

  /** What the meter does not see when the clock was set back. */
  ghost function Missed(history: seq<Entry>, after: int): nat {
    var log := LogOf(history);
    Since(log[..|log| - Reach(log, SLOTS, after)], after)
  }

  /** Nothing, unless it was. */
  lemma NothingMissed(history: seq<Entry>, last: int)
    requires Ordered(history) && last == LogOf(history)[|LogOf(history)| - 1].slot
    ensures Missed(history, last - SLOTS_PER_SECOND) == 0
  {
    var log := LogOf(history);
    var r := Reach(log, SLOTS, last - SLOTS_PER_SECOND);
    OrderedIsLog(history);
    hide LogOf, Ordered, Since, Reach, IsLog;
    if r == SLOTS {
      FullRing(log, last);
    } else {
      OldEnough(log, |log| - 1 - r, last - SLOTS_PER_SECOND);
    }
  }

  /** The last `k` entries are later than `after`, and sum up to `sum`. */
  ghost predicate Seen(log: seq<Entry>, k: nat, sum: nat, after: int) {
    && k <= SLOTS <= |log|
    && sum + Since(log[..|log| - k], after) == Since(log, after)
    && k + Reach(log[..|log| - k], SLOTS - k, after) == Reach(log, SLOTS, after)
  }

  lemma NothingSeen(log: seq<Entry>, after: int)
    requires |log| >= SLOTS
    ensures Seen(log, 0, 0, after)
  {
    assert log[..|log| - 0] == log;
  }

  lemma OneSeen(log: seq<Entry>, k: nat, sum: nat, after: int)
    requires Seen(log, k, sum, after) && k < SLOTS && log[|log| - 1 - k].slot > after
    ensures Seen(log, k + 1, sum + log[|log| - 1 - k].value, after)
  {
    SinceLess(log, |log| - k, after);
    ReachOne(log, k, SLOTS - k, after);
  }

  lemma AllSeen(log: seq<Entry>, k: nat, sum: nat, after: int)
    requires Seen(log, k, sum, after) && (k == SLOTS || log[|log| - 1 - k].slot <= after)
    ensures sum == Since(log, after) - Since(log[..|log| - Reach(log, SLOTS, after)], after)
  {
    assert Reach(log, SLOTS, after) == k by {
      hide Since;
      if k < SLOTS {
        ReachOne(log, k, SLOTS - k, after);
      }
    }
    hide Since, Reach;
  }

  /** Of an update of slot 100, one of slot 50 and another of slot 100 the meter shows only the last. */
  lemma MissesWhenSetBack(value: nat)
    requires value > 0
    ensures var history := [Entry(100, value), Entry(50, 0), Entry(100, 0)];
            Missed(history, 90) == value && Since(history, 90) == value
  {
    var first, second, third := Entry(100, value), Entry(50, 0), Entry(100, 0);
    var zeros := LogOf([]);
    assert [first, second, third][..2] == [first, second] && [first, second][..1] == [first] && [first][..0] == [];
    assert LogOf([first]) == zeros + [first];
    assert LogOf([first, second]) == zeros + [first] + [second];
    var log := LogOf([first, second, third]);
    assert log == zeros + [first] + [second] + [third];
    assert log[..|log| - 1] == zeros + [first] + [second];
    assert Reach(zeros + [first] + [second], SLOTS - 1, 90) == 0;
    NothingSince(zeros, 90);
    SinceMore(zeros, first, 90);
    SinceMore(zeros + [first], second, 90);
    assert Since([], 90) == 0;
    assert Since([first], 90) == value;
    assert Since([first, second], 90) == value;
  }

  class SpeedCalculation {
    const items: array<Entry>
    var current: nat

    /** Every update so far. */
    ghost var history: seq<Entry>

    /** The ring holds the last entries of a log. */
    ghost predicate Holds(log: seq<Entry>)
      reads items, `current
    {
      && items.Length == SLOTS && current < SLOTS <= |log|
      && (forall k | 0 <= k < SLOTS :: items[Back(current, k)] == log[|log| - 1 - k])
    }

    ghost predicate Valid()
      reads this, items
    {
      Holds(LogOf(history))
    }

    /** The slot of the last update. */
    ghost function LastSlot(): int
      reads this
    {
      if history == [] then 0 else history[|history| - 1].slot
    }

    /** The slot `k` places before slot `c` of the ring. */
    static function Back(c: nat, k: nat): (b: nat)
      requires c < SLOTS && k <= SLOTS
      ensures b < SLOTS
    {
      if c >= k then c - k else c + SLOTS - k
    }

    constructor ()
      ensures Valid() && fresh(items) && history == []
    {
      items := new Entry[SLOTS](_ => Entry(0, 0));
      current := 0;
      history := [];
    }

    method Add(t: int, value: nat, ghost log: seq<Entry>)
      requires Holds(log)
      modifies `current, items
      ensures Holds(Logged(log, t, value))
    {
      assert items[Back(current, 0)] == log[|log| - 1];
      if items[current].slot != t {
        current := if current == SLOTS - 1 then 0 else current + 1;
        items[current] := Entry(t, 0);
        assert forall k | 1 <= k < SLOTS :: Back(current, k) == Back(old(current), k - 1) != current;
      } else {
        assert forall k | 1 <= k < SLOTS :: Back(current, k) != current;
      }
      items[current] := Entry(t, items[current].value + value);
    }

    /** Division truncates. */
    static function Slot(msec: int): (t: int)
      ensures msec >= 0 ==> t * MSECS_PER_SLOT <= msec < (t + 1) * MSECS_PER_SLOT
      ensures msec < 0 ==> (t - 1) * MSECS_PER_SLOT < msec <= t * MSECS_PER_SLOT
    {
      if msec >= 0 then msec / MSECS_PER_SLOT else -(-msec / MSECS_PER_SLOT)
    }

    method Update(msec: int, value: nat)
      requires Valid()
      modifies this, items
      ensures Valid() && history == old(history) + [Entry(Slot(msec), value)]
    {
      Add(Slot(msec), value, LogOf(history));
      history := history + [Entry(Slot(msec), value)];
      assert history[..|history| - 1] == old(history);
    }

    lemma Behind(log: seq<Entry>, k: nat)
      requires Holds(log) && k < SLOTS
      ensures items.Length == SLOTS && items[Back(current, k)] == log[|log| - 1 - k]
    {
    }

    /** The meter agrees with the whole history: it shows the sum of the values of the last ten slots,
        however many slots there were, less what it misses if the clock was ever set back. */
    method Get() returns (sum: nat)
      requires Valid()
      ensures var l := LastSlot() - SLOTS_PER_SECOND; sum == Since(history, l) - Missed(history, l)
      ensures Ordered(history) ==> sum == Since(history, LastSlot() - SLOTS_PER_SECOND)
    {
      ghost var log := LogOf(history);
      hide Since, LogOf, Ordered, Reach, Seen, SpeedCalculation.Holds;
      Behind(log, 0);
      var l := items[current].slot - 1000 / MSECS_PER_SLOT;
      var p := current;
      sum := 0;
      ghost var k := 0;
      NothingSeen(log, l);
      while items[p].slot > l
        invariant k < SLOTS && p == Back(current, k) && Seen(log, k, sum, l)
        decreases SLOTS - k
      {
        Behind(log, k);
        OneSeen(log, k, sum, l);
        sum := sum + items[p].value;
        p := if p == 0 then SLOTS - 1 else p - 1;
        k := k + 1;
        if p == current {
          break;
        }
      }
      if k < SLOTS {
        Behind(log, k);
      }
      AllSeen(log, k, sum, l);
      LogAgrees(history, l);
      if Ordered(history) {
        NothingMissed(history, LastSlot());
      }
    }
  }
}
