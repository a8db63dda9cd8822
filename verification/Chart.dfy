/** Charts with their gaps filled: the Chart type of endpoints/endpoints.go. */
module Chart {

  datatype Point = Point(x: int, y: int)

  /** The points of one resource so far and the time of the last one added, 0 while there is none. */
  datatype Series = Series(points: seq<Point>, cur: int)

  datatype Sample = Sample(resource: string, time: int, value: int)

  // ---- Specification, one resource at a time

  /** Zero points one interval apart, after `cur` and until one is at `limit` or past it. */
  function Fill(cur: int, limit: int, intv: int): seq<Point>
    requires intv > 0
    decreases limit - cur
  {
    if limit > cur then [Point(cur + intv, 0)] + Fill(cur + intv, limit, intv) else []
  }

  function AddTo(s: Series, start: int, intv: int, t: int, v: int): Series
    requires intv > 0
  {
    var cur := if s.cur == 0 then start - intv else s.cur;
    Series(s.points + Fill(cur, t - intv, intv) + [Point(t, v)], t)
  }

  /** The samples of one resource, in the order they were added. */
  function Of(samples: seq<Sample>, resource: string): seq<Point> {
    if samples == [] then []
    else
      var n := |samples| - 1;
      var rest := Of(samples[..n], resource);
      if samples[n].resource == resource then rest + [Point(samples[n].time, samples[n].value)] else rest
  }

  function Charted(adds: seq<Point>, start: int, intv: int): Series
    requires intv > 0
  {
    if adds == [] then Series([], 0)
    else
      var n := |adds| - 1;
      AddTo(Charted(adds[..n], start, intv), start, intv, adds[n].x, adds[n].y)
  }

  function Exported(adds: seq<Point>, start: int, end: int, intv: int): seq<Point>
    requires intv > 0
  {
    var s := Charted(adds, start, intv);
    s.points + Fill(s.cur, end, intv)
  }

  const MINUTE: int := 60_000

  /** The end of a new chart: at an interval of a minute, the last minute is not yet whole. */
  function ChartEnd(end: int, intv: int): int {
    if intv == MINUTE then end - MINUTE else end
  }

  // ---- The class

  class Chart {
    const start: int
    const end: int
    const intv: int
    var data: map<string, seq<Point>>
    var curTimes: map<string, int>

    constructor (start: int, end: int, intv: int)
      requires intv > 0
      ensures this.start == start && this.end == ChartEnd(end, intv) && this.intv == intv
      ensures Valid() && Shows([])
    {
      this.start, this.intv := start, intv;
      this.end := if intv == MINUTE then end - MINUTE else end;
      data, curTimes := map[], map[];
    }

    predicate Valid()
      reads this
    {
      intv > 0 && data.Keys == curTimes.Keys
    }

    function SeriesAt(resource: string): Series
      reads this
      requires Valid()
    {
      if resource in data then Series(data[resource], curTimes[resource]) else Series([], 0)
    }

    /** The chart holds exactly what adding these samples in order leaves behind. */
    ghost predicate Shows(samples: seq<Sample>)
      reads this
      requires Valid()
    {
      && (forall r :: SeriesAt(r) == Charted(Of(samples, r), start, intv))
      && (forall r :: r in data <==> Of(samples, r) != [])
    }

    method AddPoint(resource: string, timestamp: int, value: int)
      modifies this`data
      ensures data == old(data)[resource :=
        (if resource in old(data) then old(data)[resource] else []) + [Point(timestamp, value)]]
    {
      var points := if resource in data then data[resource] else [];
      data := data[resource := points + [Point(timestamp, value)]];
    }

    /** Zero points up to the limit; returns the time reached. */
    method AddZeros(resource: string, from: int, limit: int)
      requires intv > 0
      modifies this`data
      ensures PointsAt(data, resource) == PointsAt(old(data), resource) + Fill(from, limit, intv)
      ensures data.Keys == old(data.Keys) + (if from < limit then {resource} else {})
      ensures forall r | r in old(data) && r != resource :: data[r] == old(data)[r]
    {
      var cur := from;
      while limit > cur
        invariant cur >= from && (cur > from ==> from < limit)
        invariant PointsAt(data, resource) + Fill(cur, limit, intv) ==
          PointsAt(old(data), resource) + Fill(from, limit, intv)
        invariant data.Keys == old(data.Keys) + (if from < cur then {resource} else {})
        invariant forall r | r in old(data) && r != resource :: data[r] == old(data)[r]
        decreases limit - cur
      {
        cur := cur + intv;
        AddPoint(resource, cur, 0);
      }
    }

    method Add(resource: string, timestamp: int, value: int)
      requires Valid()
      modifies this`data, this`curTimes
      ensures Valid() && data.Keys == old(data.Keys) + {resource}
      ensures SeriesAt(resource) == AddTo(old(SeriesAt(resource)), start, intv, timestamp, value)
      ensures forall r | r != resource :: SeriesAt(r) == old(SeriesAt(r))
    {
      hide Fill;
      var cur := if resource in curTimes then curTimes[resource] else 0;
      if cur == 0 {
        cur := start - intv;
      }
      AddZeros(resource, cur, timestamp - intv);
      AddPoint(resource, timestamp, value);
      curTimes := curTimes[resource := timestamp];
      assert data.Keys == curTimes.Keys == old(data.Keys) + {resource};
    }

    /** Adding a sample, told in terms of all samples added so far. */
    method AddSample(s: Sample, ghost samples: seq<Sample>)
      requires Valid() && Shows(samples)
      modifies this`data, this`curTimes
      ensures Valid() && Shows(samples + [s])
    {
      hide AddTo, Charted, Of, Chart.SeriesAt;
      Add(s.resource, s.time, s.value);
      ChartedOneMore(Of(samples, s.resource), Point(s.time, s.value), start, intv);
      OfOneMore(samples, s);
    }

    /** Fills every series up to the end. The map is walked in no particular order. */
    method Export(ghost samples: seq<Sample>) returns (exported: map<string, seq<Point>>)
      requires Valid() && Shows(samples)
      modifies this`data
      ensures exported == data && forall r :: r in exported <==> Of(samples, r) != []
      ensures forall r | r in exported :: exported[r] == Exported(Of(samples, r), start, end, intv)
    {
      hide Charted, Of, Fill;
      var todo := curTimes.Keys;
      while todo != {}
        invariant todo <= curTimes.Keys == data.Keys == old(data.Keys)
        invariant forall r | r in todo :: data[r] == old(data)[r]
        invariant forall r | r in data && r !in todo :: data[r] == old(data)[r] + Fill(curTimes[r], end, intv)
        decreases todo
      {
        var resource :| resource in todo;
        AddZeros(resource, curTimes[resource], end);
        todo := todo - {resource};
      }
      assert forall r | r in data :: old(SeriesAt(r)) == Charted(Of(samples, r), start, intv);
      return data;
    }
  }

  function PointsAt(data: map<string, seq<Point>>, resource: string): seq<Point> {
    if resource in data then data[resource] else []
  }

  lemma ChartedOneMore(adds: seq<Point>, p: Point, start: int, intv: int)
    requires intv > 0
    ensures Charted(adds + [p], start, intv) == AddTo(Charted(adds, start, intv), start, intv, p.x, p.y)
  {
    assert (adds + [p])[..|adds|] == adds;
  }

  lemma OfOneMore(samples: seq<Sample>, s: Sample)
    ensures forall r ::
      Of(samples + [s], r) == (if s.resource == r then Of(samples, r) + [Point(s.time, s.value)] else Of(samples, r))
  {
    assert (samples + [s])[..|samples|] == samples;
  }

  // ---- Nothing is lost and nothing is counted twice

  function Sum(points: seq<Point>): int {
    if points == [] then 0 else points[0].y + Sum(points[1..])
  }

  lemma {:induction false} SumAppend(a: seq<Point>, b: seq<Point>)
    ensures Sum(a + b) == Sum(a) + Sum(b)
  {
    if a == [] {
      assert a + b == b;
    } else {
      SumAppend(a[1..], b);
      assert (a + b)[0] == a[0] && (a + b)[1..] == a[1..] + b;
    }
  }

  lemma {:induction false} FillIsZero(cur: int, limit: int, intv: int)
    requires intv > 0
    ensures Sum(Fill(cur, limit, intv)) == 0
    decreases limit - cur
  {
    if limit > cur {
      FillIsZero(cur + intv, limit, intv);
      assert Fill(cur, limit, intv)[1..] == Fill(cur + intv, limit, intv);
    }
  }

  lemma {:induction false} ChartedSum(adds: seq<Point>, start: int, intv: int)
    requires intv > 0
    ensures Sum(Charted(adds, start, intv).points) == Sum(adds)
  {
    if adds != [] {
      var n := |adds| - 1;
      var s := Charted(adds[..n], start, intv);
      var cur := if s.cur == 0 then start - intv else s.cur;
      var last := [Point(adds[n].x, adds[n].y)];
      ChartedSum(adds[..n], start, intv);
      FillIsZero(cur, adds[n].x - intv, intv);
      SumAppend(s.points, Fill(cur, adds[n].x - intv, intv));
      SumAppend(s.points + Fill(cur, adds[n].x - intv, intv), last);
      SumAppend(adds[..n], last);
      assert adds == adds[..n] + last;
    }
  }

  /** The exported points add up to the added values, whatever the times. */
  lemma ExportConserves(adds: seq<Point>, start: int, end: int, intv: int)
    requires intv > 0
    ensures Sum(Exported(adds, start, end, intv)) == Sum(adds)
  {
    var s := Charted(adds, start, intv);
    ChartedSum(adds, start, intv);
    FillIsZero(s.cur, end, intv);
    SumAppend(s.points, Fill(s.cur, end, intv));
  }

  // ---- The shape of the result

  ghost predicate Increasing(adds: seq<Point>, start: int) {
    && (forall i | 0 <= i < |adds| :: adds[i].x >= start)
    && (forall i | 0 < i < |adds| :: adds[i - 1].x < adds[i].x)
  }

  ghost predicate Aligned(adds: seq<Point>, start: int, intv: int)
    requires intv > 0
  {
    forall i | 0 <= i < |adds| :: (adds[i].x - start) % intv == 0
  }

  /** From `start` on, strictly upwards, never more than an interval at a time. */
  ghost predicate Dense(points: seq<Point>, start: int, intv: int) {
    && (points != [] ==> points[0].x == start)
    && (forall i | 0 < i < |points| :: points[i - 1].x < points[i].x <= points[i - 1].x + intv)
  }

  /** From `start` on, exactly an interval at a time. */
  ghost predicate OnGrid(points: seq<Point>, start: int, intv: int) {
    && (points != [] ==> points[0].x == start)
    && (forall i | 0 < i < |points| :: points[i].x == points[i - 1].x + intv)
  }

  /** What `cur` stands at: the last point, or one interval ahead of the start. */
  ghost predicate EndsAt(points: seq<Point>, cur: int, start: int, intv: int) {
    cur == if points == [] then start - intv else points[|points| - 1].x
  }

  /** The time the filling reaches. */
  function FillEnd(cur: int, limit: int, intv: int): (last: int)
    requires intv > 0
    ensures cur <= last && limit <= last
    ensures last == cur || last - intv < limit
    decreases limit - cur
  {
    if limit > cur then FillEnd(cur + intv, limit, intv) else cur
  }

  lemma ExtendShape(points: seq<Point>, cur: int, x: int, y: int, start: int, intv: int)
    requires intv > 0 && EndsAt(points, cur, start, intv) && cur < x <= cur + intv
    requires points == [] ==> x == start
    ensures var more := points + [Point(x, y)];
      && EndsAt(more, x, start, intv)
      && (Dense(points, start, intv) ==> Dense(more, start, intv))
      && (x == cur + intv && OnGrid(points, start, intv) ==> OnGrid(more, start, intv))
  {
  }

  lemma {:induction false} FillShape(points: seq<Point>, cur: int, limit: int, start: int, intv: int)
    requires intv > 0 && EndsAt(points, cur, start, intv)
    ensures var filled := points + Fill(cur, limit, intv);
      && EndsAt(filled, FillEnd(cur, limit, intv), start, intv)
      && (Dense(points, start, intv) ==> Dense(filled, start, intv))
      && (OnGrid(points, start, intv) ==> OnGrid(filled, start, intv))
    decreases limit - cur
  {
    if limit > cur {
      var more := points + [Point(cur + intv, 0)];
      ExtendShape(points, cur, cur + intv, 0, start, intv);
      hide EndsAt, Dense, OnGrid;
      FillShape(more, cur + intv, limit, start, intv);
      assert points + Fill(cur, limit, intv) == more + Fill(cur + intv, limit, intv);
    } else {
      assert points + Fill(cur, limit, intv) == points;
    }
  }

  /** One more sample, at or behind the next grid time: what was dense stays dense, what was on the grid stays there
      when the filling ends one interval short of the sample. */
  lemma AddShape(s: Series, cur: int, t: int, v: int, start: int, intv: int)
    requires intv > 0 && EndsAt(s.points, cur, start, intv) && cur < t
    requires s.points == [] ==> start <= t
    requires cur == if s.cur == 0 then start - intv else s.cur
    ensures var s' := AddTo(s, start, intv, t, v);
      && EndsAt(s'.points, t, start, intv) && s'.points != [] && s'.cur == t
      && (Dense(s.points, start, intv) ==> Dense(s'.points, start, intv))
      && (FillEnd(cur, t - intv, intv) == t - intv && OnGrid(s.points, start, intv) ==> OnGrid(s'.points, start, intv))
  {
    FillShape(s.points, cur, t - intv, start, intv);
    var filled, last := s.points + Fill(cur, t - intv, intv), FillEnd(cur, t - intv, intv);
    hide Dense, OnGrid;
    ExtendShape(filled, last, t, v, start, intv);
  }

  /** Unaligned samples: the chart starts at its start, climbs strictly, and has no gap longer than the interval. */
  lemma {:induction false} ChartedDense(adds: seq<Point>, start: int, intv: int)
    requires intv > 0 && start > 0 && Increasing(adds, start)
    ensures var s := Charted(adds, start, intv);
      && Dense(s.points, start, intv)
      && (if adds == [] then s == Series([], 0)
          else s.points != [] && s.cur == adds[|adds| - 1].x && EndsAt(s.points, s.cur, start, intv))
  {
    if adds != [] {
      var n := |adds| - 1;
      var s := Charted(adds[..n], start, intv);
      var cur := if s.cur == 0 then start - intv else s.cur;
      ChartedDense(adds[..n], start, intv);
      assert n > 0 ==> adds[..n][n - 1] == adds[n - 1];
      AddShape(s, cur, adds[n].x, adds[n].y, start, intv);
    }
  }

  /** So is the export, which reaches the end. */
  lemma ExportDense(adds: seq<Point>, start: int, end: int, intv: int)
    requires intv > 0 && start > 0 && adds != [] && Increasing(adds, start)
    ensures var points := Exported(adds, start, end, intv);
      && points != [] && Dense(points, start, intv)
      && points[|points| - 1].x >= end && points[|points| - 1].x >= adds[|adds| - 1].x
  {
    var s := Charted(adds, start, intv);
    ChartedDense(adds, start, intv);
    FillShape(s.points, s.cur, end, start, intv);
  }

  // ---- Aligned samples

  /** `b` is a whole number of intervals after `a`. */
  predicate Reaches(a: int, b: int, intv: int)
    requires intv > 0
    decreases b - a
  {
    a == b || (a < b && Reaches(a + intv, b, intv))
  }

  lemma ModUnique(x: int, q: int, r: int, d: int)
    requires 0 <= r < d && x == q * d + r
    ensures x % d == r && x / d == q
  {
    var k := q - x / d;
    assert k * d == x % d - r;
    assert k > 0 ==> k * d >= d;
    assert k < 0 ==> k * d <= -d;
  }

  lemma ModBack(x: int, d: int)
    requires d > 0
    ensures (x - d) % d == x % d
  {
    assert x - d == (x / d - 1) * d + x % d;
    ModUnique(x - d, x / d - 1, x % d, d);
  }

  lemma {:induction false} AlignedReaches(a: int, b: int, intv: int)
    requires intv > 0 && a <= b && (b - a) % intv == 0
    ensures Reaches(a, b, intv)
    decreases b - a
  {
    if a < b {
      if b - a < intv {
        ModUnique(b - a, 0, b - a, intv);
      }
      ModBack(b - a, intv);
      assert b - (a + intv) == b - a - intv;
      AlignedReaches(a + intv, b, intv);
    }
  }

  lemma {:induction false} ReachesShift(a: int, b: int, intv: int)
    requires intv > 0 && Reaches(a, b, intv)
    ensures Reaches(a - intv, b - intv, intv)
    decreases b - a
  {
    if a < b {
      ReachesShift(a + intv, b, intv);
    }
  }

  /** Between two times on the grid there is room for a whole interval. */
  lemma {:induction false} ReachesBetween(a: int, b: int, c: int, intv: int)
    requires intv > 0 && Reaches(a, b, intv) && Reaches(a, c, intv) && b < c
    ensures Reaches(b, c - intv, intv)
    decreases b - a
  {
    if a < b {
      ReachesBetween(a + intv, b, c, intv);
    } else {
      ReachesShift(a + intv, c, intv);
    }
  }

  lemma {:induction false} FillMeets(cur: int, limit: int, intv: int)
    requires intv > 0 && Reaches(cur, limit, intv)
    ensures FillEnd(cur, limit, intv) == limit
    decreases limit - cur
  {
    if cur < limit {
      FillMeets(cur + intv, limit, intv);
    }
  }

  /** Aligned samples land on the grid. */
  lemma {:induction false} ChartedOnGrid(adds: seq<Point>, start: int, intv: int)
    requires intv > 0 && start > 0 && Increasing(adds, start) && Aligned(adds, start, intv)
    ensures OnGrid(Charted(adds, start, intv).points, start, intv)
  {
    if adds != [] {
      var n := |adds| - 1;
      var s := Charted(adds[..n], start, intv);
      var cur := if s.cur == 0 then start - intv else s.cur;
      var t := adds[n].x;
      ChartedOnGrid(adds[..n], start, intv);
      ChartedDense(adds[..n], start, intv);
      AlignedReaches(start, t, intv);
      if n > 0 {
        assert adds[..n][n - 1] == adds[n - 1];
        AlignedReaches(start, cur, intv);
        ReachesBetween(start, cur, t, intv);
      } else {
        ReachesShift(start, t, intv);
      }
      FillMeets(cur, t - intv, intv);
      AddShape(s, cur, t, adds[n].y, start, intv);
    }
  }

  function Max(a: int, b: int): int {
    if a < b then b else a
  }

  /** With aligned samples and end, one export yields exactly the grid from the start to the end, or to the last
      sample where that is later. */
  lemma ExportIsGrid(adds: seq<Point>, start: int, end: int, intv: int)
    requires intv > 0 && start > 0 && adds != [] && Increasing(adds, start) && Aligned(adds, start, intv)
    requires (end - start) % intv == 0
    ensures var points := Exported(adds, start, end, intv);
      points != [] && OnGrid(points, start, intv) && points[|points| - 1].x == Max(end, adds[|adds| - 1].x)
  {
    var s, last := Charted(adds, start, intv), adds[|adds| - 1].x;
    ChartedOnGrid(adds, start, intv);
    ChartedDense(adds, start, intv);
    FillShape(s.points, s.cur, end, start, intv);
    if last < end {
      AlignedReaches(start, last, intv);
      AlignedReaches(start, end, intv);
      ReachesBetween(start, last, end, intv);
      ReachesStep(last, end, intv);
      FillMeets(last, end, intv);
    }
  }

  lemma {:induction false} ReachesStep(a: int, b: int, intv: int)
    requires intv > 0 && Reaches(a, b - intv, intv)
    ensures Reaches(a, b, intv)
    decreases b - a
  {
    if a < b - intv {
      ReachesStep(a + intv, b, intv);
    }
  }

  // ---- Every value is at its own time, and there is nothing else

  /** The points that carry values are the samples, in order; all others are zero. */
  ghost predicate Carries(points: seq<Point>, adds: seq<Point>) {
    && (forall i | 0 <= i < |adds| :: adds[i] in points)
    && (forall p | p in points :: p in adds || p.y == 0)
  }

  lemma {:induction false} FillCarries(cur: int, limit: int, intv: int)
    requires intv > 0
    ensures forall p | p in Fill(cur, limit, intv) :: p.y == 0
    decreases limit - cur
  {
    if limit > cur {
      FillCarries(cur + intv, limit, intv);
    }
  }

  lemma {:induction false} ChartedCarries(adds: seq<Point>, start: int, intv: int)
    requires intv > 0
    ensures Carries(Charted(adds, start, intv).points, adds)
  {
    if adds != [] {
      var n := |adds| - 1;
      var s := Charted(adds[..n], start, intv);
      var cur := if s.cur == 0 then start - intv else s.cur;
      ChartedCarries(adds[..n], start, intv);
      FillCarries(cur, adds[n].x - intv, intv);
      assert adds == adds[..n] + [adds[n]];
      assert Charted(adds, start, intv).points == s.points + Fill(cur, adds[n].x - intv, intv) + [adds[n]];
      forall i | 0 <= i < |adds|
        ensures adds[i] in Charted(adds, start, intv).points
      {
        assert i < n ==> adds[..n][i] == adds[i];
      }
    }
  }

  lemma {:induction false} DenseClimbs(points: seq<Point>, start: int, intv: int, i: nat, j: nat)
    requires intv > 0 && Dense(points, start, intv) && i < j < |points|
    ensures points[i].x < points[j].x
    decreases j - i
  {
    if i + 1 < j {
      DenseClimbs(points, start, intv, i, j - 1);
    }
  }

  lemma ExportCarries(adds: seq<Point>, start: int, end: int, intv: int)
    requires intv > 0
    ensures Carries(Exported(adds, start, end, intv), adds)
  {
    ChartedCarries(adds, start, intv);
    FillCarries(Charted(adds, start, intv).cur, end, intv);
  }

  /** The value exported at a time is the sample's at that time, and 0 where there is none. */
  lemma ExportValues(adds: seq<Point>, start: int, end: int, intv: int, i: nat)
    requires intv > 0 && start > 0 && adds != [] && Increasing(adds, start)
    requires i < |Exported(adds, start, end, intv)|
    ensures var p := Exported(adds, start, end, intv)[i];
      && (forall j | 0 <= j < |adds| && adds[j].x == p.x :: p == adds[j])
      && ((forall j | 0 <= j < |adds| :: adds[j].x != p.x) ==> p.y == 0)
  {
    var points := Exported(adds, start, end, intv);
    var p := points[i];
    ExportCarries(adds, start, end, intv);
    ExportDense(adds, start, end, intv);
    hide Exported;
    forall j | 0 <= j < |adds| && adds[j].x == p.x
      ensures p == adds[j]
    {
      var k :| 0 <= k < |points| && points[k] == adds[j];
      if k < i {
        DenseClimbs(points, start, intv, k, i);
      } else if i < k {
        DenseClimbs(points, start, intv, i, k);
      }
    }
    assert p in points;
  }
}
