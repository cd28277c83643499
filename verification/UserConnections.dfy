/** The request queue of one client connection and its three scheduling tags. */
module UserConnections {
  import opened Bytes
  import opened BinaryHeap

  const MAX_PENDING_BYTES: nat := 10485760
  const MAX_LEN: nat := 1048576
  const RESERVED_RATE := 51200
  const USER_RATE := 2097152
  const MANAGER_RATE := 1073741824
  const WEIGHT := 1

  /** `std::numeric_limits<double>::min()` only has to be positive and below every real tag. */
  const DOUBLE_MIN: real := 2.2250738585072014e-308

  datatype Request = Request(arrival: int, tag: nat, data: seq<byte>)

  function TotalBytes(rs: seq<Request>): nat {
    if rs == [] then 0 else |rs[0].data| + TotalBytes(rs[1..])
  }

  lemma {:induction false} TotalBytesAppend(xs: seq<Request>, ys: seq<Request>)
    ensures TotalBytes(xs + ys) == TotalBytes(xs) + TotalBytes(ys)
  {
    if xs == [] {
      assert xs + ys == ys;
    } else {
      assert (xs + ys)[1..] == xs[1..] + ys;
      TotalBytesAppend(xs[1..], ys);
    }
  }

  /** The reservation, limit and proportion tags, in milliseconds. */
  datatype Tags = Tags(reservation: real, limit: real, proportion: real)

  const NO_TAGS := Tags(0.0, 0.0, 0.0)

  function Max(a: real, b: real): real {
    if a < b then b else a
  }

  /** The time a request of `cost` bytes takes at `rate` bytes a second. */
  function Span(cost: nat, rate: int): real
    requires rate > 0
  {
    cost as real / rate as real * 1000.0
  }

  function Updated(g: Tags, t: int, cost: nat, rate: int): Tags
    requires rate > 0
  {
    Tags(Max(t as real - 500.0, g.reservation + Span(cost, RESERVED_RATE)),
         Max(t as real, g.limit + Span(cost, rate)),
         Max(t as real, g.proportion + Span(cost, WEIGHT)))
  }

  /** The cast of a double to `long long`. */
  function Truncated(x: real): (t: int)
    ensures x >= 0.0 ==> t as real <= x < t as real + 1.0
    ensures x <= 0.0 ==> t as real - 1.0 < x <= t as real
  {
    if x >= 0.0 then x.Floor else -(-x).Floor
  }

  /** What is remembered of a request becoming the head of its connection's list: the limit rate in
      force and the tags it was given. */
  datatype Mark = Mark(request: Request, rate: int, tags: Tags)

  /** The tags advance exactly once per request, each from the tags of the request before. */
  ghost predicate Chained(marks: seq<Mark>) {
    forall k | 0 <= k < |marks| :: Linked(marks, k)
  }

  ghost predicate Linked(marks: seq<Mark>, k: nat)
    requires k < |marks|
  {
    marks[k].rate > 0 && Follows(marks[k], if k == 0 then NO_TAGS else marks[k - 1].tags)
  }

  ghost predicate Follows(m: Mark, before: Tags)
    requires m.rate > 0
  {
    m.tags == Updated(before, m.request.arrival, |m.request.data|, m.rate)
  }

  function Requests(marks: seq<Mark>): seq<Request> {
    seq(|marks|, k requires 0 <= k < |marks| => marks[k].request)
  }

  lemma SpanBound(cost: nat, rate: int, most: int, d: real)
    requires 0 < rate <= most && Span(cost, rate) <= d
    ensures cost as real * 1000.0 <= most as real * d
  {
    var s := Span(cost, rate);
    assert s * rate as real == cost as real * 1000.0;
    Scale(rate as real, most as real, s, d);
  }

  lemma Scale(a: real, b: real, s: real, d: real)
    requires 0.0 < a <= b && 0.0 <= s <= d
    ensures s * a <= b * d
  {
    assert s * a <= s * b;
    assert s * b <= d * b;
  }

  lemma JoinSpans(rate: real, b: nat, c: nat, x: real, y: real, z: real)
    requires b as real * 1000.0 <= rate * (y - x) && c as real * 1000.0 <= rate * (z - y)
    ensures (b + c) as real * 1000.0 <= rate * (z - x)
  {
    assert rate * (y - x) + rate * (z - y) == rate * (z - x);
  }

  lemma ChainedAppend(marks: seq<Mark>, m: Mark)
    requires Chained(marks) && m.rate > 0
    requires Follows(m, if marks == [] then NO_TAGS else marks[|marks| - 1].tags)
    ensures Chained(marks + [m])
  {
    var longer := marks + [m];
    forall k | 0 <= k < |longer|
      ensures Linked(longer, k)
    {
      assert k < |marks| ==> Linked(marks, k);
    }
  }

  lemma MarkGrowth(m: Mark, before: Tags, most: int)
    requires 0 < m.rate <= most && Follows(m, before)
    ensures |m.request.data| as real * 1000.0 <= most as real * (m.tags.limit - before.limit)
    ensures |m.request.data| as real * 1000.0
            <= RESERVED_RATE as real * (m.tags.reservation - before.reservation)
  {
    SpanBound(|m.request.data|, m.rate, most, m.tags.limit - before.limit);
    SpanBound(|m.request.data|, RESERVED_RATE, RESERVED_RATE, m.tags.reservation - before.reservation);
  }

  /** One of the tags: its value, the rate its bytes are charged at, and how far it may lag an arrival. */
  datatype Tag = Reservation | Limit | Proportion

  function ValueOf(tags: Tags, tag: Tag): real {
    match tag
    case Reservation => tags.reservation
    case Limit => tags.limit
    case Proportion => tags.proportion
  }

  function RateOf(m: Mark, tag: Tag): (rate: int)
    requires m.rate > 0
    ensures rate > 0
  {
    match tag
    case Reservation => RESERVED_RATE
    case Limit => m.rate
    case Proportion => WEIGHT
  }

  function LagOf(tag: Tag): real {
    if tag == Reservation then 500.0 else 0.0
  }

  predicate Rated(marks: seq<Mark>) {
    forall k | 0 <= k < |marks| :: marks[k].rate > 0
  }

  /** How long, in milliseconds, the bytes of one head take. */
  function OwnTime(m: Mark, tag: Tag): real
    requires m.rate > 0
  {
    |m.request.data| as real * 1000.0 / RateOf(m, tag) as real
  }

  /** How long the bytes of the heads from `i` up to `n` take. */
  function TimeOf(marks: seq<Mark>, tag: Tag, i: nat, n: nat): real
    requires n <= |marks| && Rated(marks)
  {
    if i >= n then 0.0 else TimeOf(marks, tag, i, n - 1) + OwnTime(marks[n - 1], tag)
  }

  /** If the bytes of head `j` were sent right behind those before it, since head `k` arrived. */
  function Behind(marks: seq<Mark>, tag: Tag, k: nat, j: nat): real
    requires k <= j < |marks| && Rated(marks)
  {
    marks[k].request.arrival as real - LagOf(tag) + TimeOf(marks, tag, k + 1, j + 1)
  }

  /** The tag of head `j` is the latest of the times its bytes end at: since each head before it, or
      itself, arrived, and since the beginning. */
  ghost predicate IsLatest(marks: seq<Mark>, tag: Tag, j: nat)
    requires j < |marks| && Rated(marks)
  {
    var v := ValueOf(marks[j].tags, tag);
    && TimeOf(marks, tag, 0, j + 1) <= v
    && (forall k | 0 <= k <= j :: Behind(marks, tag, k, j) <= v)
    && (v == TimeOf(marks, tag, 0, j + 1) || exists k | 0 <= k <= j :: v == Behind(marks, tag, k, j))
  }

  lemma OneTag(m: Mark, before: Tags, tag: Tag)
    requires m.rate > 0 && Follows(m, before)
    ensures ValueOf(m.tags, tag)
            == Max(m.request.arrival as real - LagOf(tag), ValueOf(before, tag) + OwnTime(m, tag))
  {
    SpanOf(|m.request.data|, RateOf(m, tag));
  }

  lemma SpanOf(cost: nat, rate: int)
    requires rate > 0
    ensures cost as real * 1000.0 / rate as real == Span(cost, rate)
  {
  }

  lemma OneBehind(marks: seq<Mark>, tag: Tag, k: nat, j: nat)
    requires k < j < |marks| && Rated(marks)
    ensures Behind(marks, tag, k, j) == Behind(marks, tag, k, j - 1) + OwnTime(marks[j], tag)
  {
  }

  lemma OneMoreTime(marks: seq<Mark>, tag: Tag, j: nat)
    requires j < |marks| && Rated(marks)
    ensures TimeOf(marks, tag, 0, j + 1) == TimeOf(marks, tag, 0, j) + OwnTime(marks[j], tag)
    ensures TimeOf(marks, tag, 0, 0) == 0.0
    ensures Behind(marks, tag, j, j) == marks[j].request.arrival as real - LagOf(tag)
  {
  }

  lemma LatestGoesOn(marks: seq<Mark>, tag: Tag, j: nat)
    requires 0 < j < |marks| && Rated(marks) && IsLatest(marks, tag, j - 1)
    requires ValueOf(marks[j].tags, tag)
             == Max(marks[j].request.arrival as real - LagOf(tag),
                    ValueOf(marks[j - 1].tags, tag) + OwnTime(marks[j], tag))
    ensures IsLatest(marks, tag, j)
  {
    hide TimeOf, OwnTime, Behind;
    OneMoreTime(marks, tag, j);
    forall k | 0 <= k < j
      ensures Behind(marks, tag, k, j) == Behind(marks, tag, k, j - 1) + OwnTime(marks[j], tag)
    {
      OneBehind(marks, tag, k, j);
    }
    var u, v := ValueOf(marks[j - 1].tags, tag), ValueOf(marks[j].tags, tag);
    if v == u + OwnTime(marks[j], tag) && u != TimeOf(marks, tag, 0, j) {
      var k :| 0 <= k <= j - 1 && u == Behind(marks, tag, k, j - 1);
      assert v == Behind(marks, tag, k, j);
    }
    assert v == u + OwnTime(marks[j], tag) || v == Behind(marks, tag, j, j);
  }

  /** All three tags, in closed form. */
  lemma {:induction false} TagIsLatest(marks: seq<Mark>, tag: Tag, j: nat)
    requires Chained(marks) && j < |marks|
    ensures Rated(marks) && IsLatest(marks, tag, j)
    decreases j
  {
    ChainedIsRated(marks);
    assert Linked(marks, j);
    OneTag(marks[j], if j == 0 then NO_TAGS else marks[j - 1].tags, tag);
    if j > 0 {
      TagIsLatest(marks, tag, j - 1);
      LatestGoesOn(marks, tag, j);
    } else {
      LatestOfOne(marks, tag);
    }
  }

  lemma LatestOfOne(marks: seq<Mark>, tag: Tag)
    requires 0 < |marks| && Rated(marks)
    requires ValueOf(marks[0].tags, tag) == Max(marks[0].request.arrival as real - LagOf(tag), OwnTime(marks[0], tag))
    ensures IsLatest(marks, tag, 0)
  {
    hide OwnTime;
    OneMoreTime(marks, tag, 0);
    assert Behind(marks, tag, 0, 0) == marks[0].request.arrival as real - LagOf(tag);
  }

  lemma ChainedIsRated(marks: seq<Mark>)
    requires Chained(marks)
    ensures Rated(marks)
  {
    forall k | 0 <= k < |marks|
      ensures marks[k].rate > 0
    {
      assert Linked(marks, k);
    }
  }

  /** So head `j` is due by a tag at `s` exactly if its bytes, and all since any head arrived, and all there
      were, could have been sent by then at the tag's rates. */
  lemma DueExactly(marks: seq<Mark>, tag: Tag, j: nat, s: real)
    requires Chained(marks) && j < |marks|
    ensures Rated(marks)
    ensures ValueOf(marks[j].tags, tag) <= s
            <==> TimeOf(marks, tag, 0, j + 1) <= s && forall k | 0 <= k <= j :: Behind(marks, tag, k, j) <= s
  {
    TagIsLatest(marks, tag, j);
  }

  lemma {:induction false} ReservedTime(marks: seq<Mark>, i: nat, n: nat)
    requires i <= n <= |marks| && Rated(marks)
    ensures TimeOf(marks, Reservation, i, n) * RESERVED_RATE as real
            == TotalBytes(Requests(marks)[i..n]) as real * 1000.0
    decreases n
  {
    var rs := Requests(marks);
    if i == n {
      assert rs[i..n] == [];
    } else {
      ReservedTime(marks, i, n - 1);
      assert rs[i..n] == rs[i..n - 1] + [rs[n - 1]];
      TotalBytesAppend(rs[i..n - 1], [rs[n - 1]]);
      assert TotalBytes([rs[n - 1]]) == |rs[n - 1].data| + TotalBytes([]);
      var m := marks[n - 1];
      assert OwnTime(m, Reservation) * RESERVED_RATE as real == |m.request.data| as real * 1000.0;
      hide OwnTime, TotalBytes;
      var x, y := TimeOf(marks, Reservation, i, n - 1), OwnTime(m, Reservation);
      assert (x + y) * RESERVED_RATE as real == x * RESERVED_RATE as real + y * RESERVED_RATE as real;
    }
  }

  /** The reserved rate: head `j` is due by its reservation at `s` exactly if its connection kept to 51200 bytes
      a second up to it, that is if since no head `k` arrived, but for half a second, nor since time zero more
      bytes came than that rate carries by `s`. */
  lemma ReservedRate(marks: seq<Mark>, j: nat, s: int)
    requires Chained(marks) && j < |marks|
    ensures marks[j].tags.reservation <= s as real
            <==> && TotalBytes(Requests(marks)[..j + 1]) * 1000 <= RESERVED_RATE * s
                 && forall k | 0 <= k <= j :: TotalBytes(Requests(marks)[k + 1..j + 1]) * 1000
                                              <= RESERVED_RATE * (s - marks[k].request.arrival + 500)
  {
    DueExactly(marks, Reservation, j, s as real);
    assert Requests(marks)[..j + 1] == Requests(marks)[0..j + 1];
    ReservedTime(marks, 0, j + 1);
    Carries(TimeOf(marks, Reservation, 0, j + 1), TotalBytes(Requests(marks)[0..j + 1]), s);
    forall k | 0 <= k <= j
      ensures Behind(marks, Reservation, k, j) <= s as real
              <==> TotalBytes(Requests(marks)[k + 1..j + 1]) * 1000
                   <= RESERVED_RATE * (s - marks[k].request.arrival + 500)
    {
      ReservedTime(marks, k + 1, j + 1);
      Carries(TimeOf(marks, Reservation, k + 1, j + 1), TotalBytes(Requests(marks)[k + 1..j + 1]),
              s - marks[k].request.arrival + 500);
    }
  }

  lemma Carries(time: real, bytes: nat, span: int)
    requires time * RESERVED_RATE as real == bytes as real * 1000.0
    ensures time <= span as real <==> bytes * 1000 <= RESERVED_RATE * span
  {
    assert (bytes * 1000) as real == bytes as real * 1000.0;
  }

  /** Between the requests at `i` and `j` each tag grew by at least the time their bytes take. */
  lemma {:induction false} TagsGrowWithBytes(marks: seq<Mark>, most: int, i: nat, j: nat)
    requires Chained(marks) && i <= j < |marks|
    requires forall k | i < k <= j :: marks[k].rate <= most
    ensures TotalBytes(Requests(marks)[i + 1..j + 1]) as real * 1000.0
            <= most as real * (marks[j].tags.limit - marks[i].tags.limit)
    ensures TotalBytes(Requests(marks)[i + 1..j + 1]) as real * 1000.0
            <= RESERVED_RATE as real * (marks[j].tags.reservation - marks[i].tags.reservation)
    decreases j
  {
    var rs := Requests(marks);
    if i == j {
      assert rs[i + 1..j + 1] == [];
    } else {
      TagsGrowWithBytes(marks, most, i, j - 1);
      var before, added := rs[i + 1..j], rs[j..j + 1];
      assert rs[i + 1..j + 1] == before + added;
      TotalBytesAppend(before, added);
      GrowthOfLast(marks, most, i, j, TotalBytes(before));
    }
  }

  lemma GrowthOfLast(marks: seq<Mark>, most: int, i: nat, j: nat, b: nat)
    requires Chained(marks) && i < j < |marks| && marks[j].rate <= most
    requires b as real * 1000.0 <= most as real * (marks[j - 1].tags.limit - marks[i].tags.limit)
    requires b as real * 1000.0
             <= RESERVED_RATE as real * (marks[j - 1].tags.reservation - marks[i].tags.reservation)
    ensures TotalBytes(Requests(marks)[j..j + 1]) == |marks[j].request.data|
    ensures (b + |marks[j].request.data|) as real * 1000.0
            <= most as real * (marks[j].tags.limit - marks[i].tags.limit)
    ensures (b + |marks[j].request.data|) as real * 1000.0
            <= RESERVED_RATE as real * (marks[j].tags.reservation - marks[i].tags.reservation)
  {
    var x, y, z, c := marks[i].tags, marks[j - 1].tags, marks[j].tags, |marks[j].request.data|;
    assert Linked(marks, j);
    MarkGrowth(marks[j], y, most);
    JoinSpans(most as real, b, c, x.limit, y.limit, z.limit);
    JoinSpans(RESERVED_RATE as real, b, c, x.reservation, y.reservation, z.reservation);
    assert Requests(marks)[j..j + 1] == [marks[j].request];
    assert TotalBytes([marks[j].request]) == c + TotalBytes([]);
  }

  lemma ScaleLeft(a: real, b: real, x: real, y: real)
    requires 0.0 < a <= b && x <= y && 0.0 <= a * x
    ensures a * x <= b * y
  {
    assert a * x <= a * y;
    assert y >= 0.0;
    assert a * y <= b * y;
  }

  /** The throughput bound, on the record of one connection: if the request at `j` was due by either
      tag at time `s`, the bytes accepted after request `i` up to and including it are at most what the
      largest rate in force for them carries in the time since `i` arrived, plus half a second. */
  lemma ThroughputOfMarks(marks: seq<Mark>, most: int, i: nat, j: nat, s: int)
    requires Chained(marks) && i <= j < |marks|
    requires RESERVED_RATE <= most && forall k | i < k <= j :: marks[k].rate <= most
    requires marks[j].tags.reservation <= s as real || marks[j].tags.limit <= s as real
    ensures TotalBytes(Requests(marks)[i + 1..j + 1]) * 1000 <= most * (s - marks[i].request.arrival + 500)
  {
    TagsGrowWithBytes(marks, most, i, j);
    var b := TotalBytes(Requests(marks)[i + 1..j + 1]);
    var span := s - marks[i].request.arrival + 500;
    var from, to := marks[i].tags, marks[j].tags;
    assert Linked(marks, i);
    assert from.limit >= marks[i].request.arrival as real;
    assert from.reservation >= marks[i].request.arrival as real - 500.0;
    hide *;
    if to.limit <= s as real {
      CarriedInTime(b, most, most, to.limit - from.limit, span);
    } else {
      CarriedInTime(b, RESERVED_RATE, most, to.reservation - from.reservation, span);
    }
  }

  lemma CarriedInTime(b: nat, rate: int, most: int, grown: real, span: int)
    requires 0 < rate <= most && b as real * 1000.0 <= rate as real * grown && grown <= span as real
    ensures b * 1000 <= most * span
  {
    ScaleLeft(rate as real, most as real, grown, span as real);
    assert (b * 1000) as real <= (most * span) as real;
  }

  class UserConnection {
    var reservation: real
    var limit: real
    var proportion: real
    var limitRate: int
    var requests: seq<Request>
    var numPendingBytes: int

    /** Every request `PushRequest` said yes to; those taken off again, and when; one mark per
        request that became the head. */
    ghost var accepted: seq<Request>
    ghost var taken: seq<Request>
    ghost var takenAt: seq<int>
    ghost var marks: seq<Mark>

    ghost function CurrentTags(): Tags
      reads this
    {
      Tags(reservation, limit, proportion)
    }

    ghost function SortKey(): Key
      reads this
    {
      Key(Truncated(reservation), limit)
    }

    ghost predicate Valid()
      reads this
    {
      && RESERVED_RATE <= limitRate <= MANAGER_RATE
      && accepted == taken + requests
      && |takenAt| == |taken|
      && |marks| == |taken| + (if requests == [] then 0 else 1)
      && Chained(marks)
      && (forall k | 0 <= k < |marks| :: marks[k].request == accepted[k] && marks[k].rate <= limitRate)
      && CurrentTags() == (if marks == [] then NO_TAGS else marks[|marks| - 1].tags)
      && (forall k | 0 <= k < |accepted| :: accepted[k].arrival >= 501 && |accepted[k].data| <= MAX_LEN)
      && numPendingBytes == TotalBytes(requests) < MAX_PENDING_BYTES + MAX_LEN
    }

    /** Each request was due, by its reservation or by its limit tag, when it was taken. */
    ghost predicate TakenWhenDue()
      reads this
      requires Valid()
    {
      forall k | 0 <= k < |taken| ::
        marks[k].tags.reservation <= takenAt[k] as real || marks[k].tags.limit <= takenAt[k] as real
    }

    /** Would `r`, arriving at an idle connection with tags `before`, be due at `t` by its reservation? */
    ghost predicate DueOnArrival(t: int, r: Request, before: Tags)
      reads this`limitRate
      requires limitRate > 0
    {
      Updated(before, r.arrival, |r.data|, limitRate).reservation <= t as real
    }

    constructor ()
      ensures Valid() && TakenWhenDue()
      ensures requests == accepted == taken == [] && numPendingBytes == 0
      ensures CurrentTags() == NO_TAGS && limitRate == USER_RATE
    {
      reservation, limit, proportion := 0.0, 0.0, 0.0;
      limitRate := USER_RATE;
      requests, numPendingBytes := [], 0;
      accepted, taken, takenAt, marks := [], [], [], [];
    }

    method UpdateRLW(t: int, cost: nat)
      requires limitRate > 0
      modifies this`reservation, this`limit, this`proportion
      ensures CurrentTags() == Updated(old(CurrentTags()), t, cost, limitRate)
    {
      reservation := reservation + cost as real / RESERVED_RATE as real * 1000.0;
      limit := limit + cost as real / limitRate as real * 1000.0;
      proportion := proportion + cost as real / WEIGHT as real * 1000.0;

      reservation := Max(t as real - 500.0, reservation);
      limit := Max(t as real, limit);
      proportion := Max(t as real, proportion);
    }

    /** `r` becomes the head of the list, and the tags advance. */
    method Advance(r: Request)
      requires limitRate > 0 && Chained(marks)
      requires CurrentTags() == if marks == [] then NO_TAGS else marks[|marks| - 1].tags
      modifies this`reservation, this`limit, this`proportion, this`marks
      ensures CurrentTags() == Updated(old(CurrentTags()), r.arrival, |r.data|, limitRate)
      ensures Chained(marks) && marks == old(marks) + [Mark(r, limitRate, CurrentTags())]
    {
      UpdateRLW(r.arrival, |r.data|);
      ChainedAppend(marks, Mark(r, limitRate, CurrentTags()));
      marks := marks + [Mark(r, limitRate, CurrentTags())];
    }

    /** Refused exactly when 10 MiB are already pending; otherwise appended, and when the list was
        empty the request becomes the head and the tags advance. */
    method PushRequest(r: Request) returns (ok: bool, size: nat)
      requires Valid() && r.arrival >= 501 && |r.data| <= MAX_LEN
      modifies this
      ensures Valid() && limitRate == old(limitRate)
      ensures size == |old(requests)|
      ensures ok <==> old(numPendingBytes) < MAX_PENDING_BYTES
      ensures !ok ==> unchanged(this)
      ensures ok ==> requests == old(requests) + [r] && accepted == old(accepted) + [r]
      ensures taken == old(taken) && takenAt == old(takenAt) && old(marks) <= marks
      ensures old(TakenWhenDue()) ==> TakenWhenDue()
      ensures ok ==> CurrentTags() == if size > 0 then old(CurrentTags())
                                      else Updated(old(CurrentTags()), r.arrival, |r.data|, limitRate)
    {
      hide Chained, Updated;
      size := |requests|;
      if numPendingBytes >= MAX_PENDING_BYTES {
        return false, size;
      }
      TotalBytesAppend(requests, [r]);
      requests := requests + [r];
      numPendingBytes := numPendingBytes + |r.data|;
      accepted := accepted + [r];
      if size == 0 {
        Advance(r);
      }
      ok := true;
    }

    /** Takes the oldest request, if there is one, and advances the tags for the next. */
    method PopRequest(ghost at: int) returns (ok: bool, r: Request)
      requires Valid()
      modifies this
      ensures Valid() && limitRate == old(limitRate)
      ensures ok <==> old(requests) != []
      ensures !ok ==> unchanged(this)
      ensures ok ==> [r] + requests == old(requests)
      ensures ok ==> taken == old(taken) + [r] && takenAt == old(takenAt) + [at]
      ensures accepted == old(accepted) && old(marks) <= marks
      ensures old(TakenWhenDue()) && (old(reservation) <= at as real || old(limit) <= at as real) ==> TakenWhenDue()
      ensures ok ==>
                CurrentTags() == if requests == [] then old(CurrentTags())
                                 else Updated(old(CurrentTags()), requests[0].arrival, |requests[0].data|, limitRate)
    {
      hide Chained, Updated;
      if requests == [] {
        return false, Request(0, 0, []);
      }
      r := requests[0];
      requests := requests[1..];
      numPendingBytes := numPendingBytes - |r.data|;
      taken, takenAt := taken + [r], takenAt + [at];
      if requests != [] {
        Advance(requests[0]);
      }
      ok := true;
    }

    /** Has every request that was accepted been taken? */
    method IsRequestsEmpty() returns (b: bool)
      requires Valid()
      ensures b <==> taken == accepted
      ensures b <==> requests == []
    {
      b := requests == [];
    }

    /** The login handler lets a manager's connection use 1 GB/s. */
    method AllowManagerRate()
      requires Valid()
      modifies this`limitRate
      ensures Valid() && limitRate == MANAGER_RATE
      ensures old(TakenWhenDue()) ==> TakenWhenDue()
    {
      limitRate := MANAGER_RATE;
    }

    /** That is if it came no later than half a second after `t`, and its bytes could have been sent by then
        behind those before it at the reserved rate. */
    lemma DueOnArrivalMeans(t: int, r: Request, before: Tags)
      requires limitRate > 0
      ensures DueOnArrival(t, r, before)
              <==> && r.arrival <= t + 500
                   && before.reservation + |r.data| as real * 1000.0 / 51200.0 <= t as real
    {
      SpanOf(|r.data|, RESERVED_RATE);
    }

    /** A head request's tags are far enough from zero for the sentinel of the scheduler. */
    lemma HeadTags()
      requires Valid() && requests != []
      ensures Truncated(reservation) >= 1 && limit >= 501.0 && limit >= requests[0].arrival as real
    {
      assert marks[|marks| - 1].request == accepted[|taken|] == requests[0];
      assert Linked(marks, |marks| - 1);
    }

    /** In every state: which of the requests that were ever at the head, at whatever time, is due by its
        reservation; and the tags now are the latest of the times the bytes end at. */
    lemma Reserved(j: nat, s: int)
      requires Valid() && j < |marks|
      ensures marks[j].tags.reservation <= s as real
              <==> && TotalBytes(accepted[..j + 1]) * 1000 <= RESERVED_RATE * s
                   && forall k | 0 <= k <= j :: TotalBytes(accepted[k + 1..j + 1]) * 1000
                                                <= RESERVED_RATE * (s - accepted[k].arrival + 500)
    {
      ReservedRate(marks, j, s);
      assert Requests(marks)[..j + 1] == accepted[..j + 1];
      forall k | 0 <= k <= j
        ensures Requests(marks)[k + 1..j + 1] == accepted[k + 1..j + 1] && marks[k].request == accepted[k]
      {
      }
    }

    /** The throughput bound for a connection in any state the scheduler can leave it in, at any rate
        that was enough for the requests in question; its limit rate now always is. */
    lemma Throughput(i: nat, j: nat, most: int)
      requires Valid() && TakenWhenDue() && i <= j < |taken|
      requires RESERVED_RATE <= most && (most >= limitRate || forall k | i < k <= j :: marks[k].rate <= most)
      ensures TotalBytes(accepted[i + 1..j + 1]) * 1000 <= most * (takenAt[j] - accepted[i].arrival + 500)
    {
      ThroughputOfMarks(marks, most, i, j, takenAt[j]);
      assert Requests(marks)[i + 1..j + 1] == accepted[i + 1..j + 1];
    }
  }
}
