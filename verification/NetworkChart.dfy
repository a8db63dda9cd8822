/** The network chart, by single documents or aggregated: GetChart of endpoints/endpoints.go, GetNetworkChart and
    GetNetworkChartSingle of endpoints/network.go. */
module NetworkChart {
  import opened Chart

  /** Both counters of an interface in one document of the collection. */
  datatype Interface = Interface(name: string, sent: nat, received: nat)

  datatype Document = Document(time: int, interfaces: seq<Interface>)

  /** One interface of one document, after `$unwind`. */
  datatype Row = Row(time: int, interface: Interface)

  /** A group of the aggregation: its key and the two sums. */
  datatype Group = Group(time: int, name: string, sent: nat, received: nat)

  /** Remainder as Go's `%` and MongoDB's `$mod` take it, with the sign of the dividend. */
  function Rem(t: int, d: int): int
    requires d > 0
  {
    if t >= 0 then t % d else -(-t % d)
  }

  function Bucket(t: int, intv: int): int
    requires intv > 0
  {
    t - Rem(t, intv)
  }

  predicate InRange(t: int, start: int, end: int, open: bool) {
    start <= t && (open || t <= end)
  }

  /** `$match` and `$unwind`. */
  function Rows(docs: seq<Document>, start: int, end: int, open: bool): seq<Row> {
    if docs == [] then []
    else
      var n := |docs| - 1;
      Rows(docs[..n], start, end, open)
      + (if InRange(docs[n].time, start, end, open) then Unwind(docs[n].time, docs[n].interfaces) else [])
  }

  function Unwind(t: int, interfaces: seq<Interface>): (rows: seq<Row>)
    ensures |rows| == |interfaces|
    ensures forall i | 0 <= i < |rows| :: rows[i] == Row(t, interfaces[i])
  {
    seq(|interfaces|, i requires 0 <= i < |interfaces| => Row(t, interfaces[i]))
  }

  function Value(i: Interface, received: bool): nat {
    if received then i.received else i.sent
  }

  function GroupValue(g: Group, received: bool): nat {
    if received then g.received else g.sent
  }

  /** What the rows of an interface hold in one bucket. */
  function InBucket(rows: seq<Row>, t: int, name: string, intv: int, received: bool): nat
    requires intv > 0
  {
    if rows == [] then 0
    else
      var n := |rows| - 1;
      InBucket(rows[..n], t, name, intv, received)
      + (if rows[n].interface.name == name && Bucket(rows[n].time, intv) == t
         then Value(rows[n].interface, received) else 0)
  }

  /** What they hold altogether. */
  function Total(rows: seq<Row>, name: string, received: bool): nat {
    if rows == [] then 0
    else
      var n := |rows| - 1;
      Total(rows[..n], name, received)
      + (if rows[n].interface.name == name then Value(rows[n].interface, received) else 0)
  }

  /** Ordered by bucket, and no key twice. (The order of names within a bucket does not matter here.) */
  ghost predicate Keyed(groups: seq<Group>) {
    && (forall i, j | 0 <= i < j < |groups| :: groups[i].time <= groups[j].time)
    && (forall i, j | 0 <= i < j < |groups| :: groups[i].time != groups[j].time || groups[i].name != groups[j].name)
  }

  ghost predicate HasKey(groups: seq<Group>, r: Row, intv: int)
    requires intv > 0
  {
    exists i :: 0 <= i < |groups| && KeyOf(groups[i], r, intv)
  }

  ghost predicate Occurs(g: Group, rows: seq<Row>, intv: int)
    requires intv > 0
  {
    exists k :: 0 <= k < |rows| && KeyOf(g, rows[k], intv)
  }

  /** The sums are those of the group's bucket. */
  ghost predicate Summed(groups: seq<Group>, rows: seq<Row>, intv: int)
    requires intv > 0
  {
    forall i | 0 <= i < |groups| ::
      && groups[i].sent == InBucket(rows, groups[i].time, groups[i].name, intv, false)
      && groups[i].received == InBucket(rows, groups[i].time, groups[i].name, intv, true)
  }

  /** What the aggregation may return: one group per bucket and name that occurs, with its sums, in order. */
  ghost predicate Grouped(groups: seq<Group>, rows: seq<Row>, intv: int)
    requires intv > 0
  {
    && Keyed(groups)
    && (forall k | 0 <= k < |rows| :: HasKey(groups, rows[k], intv))
    && (forall i | 0 <= i < |groups| :: Occurs(groups[i], rows, intv))
    && Summed(groups, rows, intv)
  }

  predicate KeyOf(g: Group, r: Row, intv: int)
    requires intv > 0
  {
    g.time == Bucket(r.time, intv) && g.name == r.interface.name
  }

  function Resource(name: string, received: bool): string {
    name + (if received then "-br" else "-bs")
  }

  /** The samples the cursor loop adds. */
  function Samples(groups: seq<Group>): seq<Sample> {
    if groups == [] then []
    else
      var n := |groups| - 1;
      var g := groups[n];
      Samples(groups[..n]) + [Sample(Resource(g.name, false), g.time, g.sent)]
                           + [Sample(Resource(g.name, true), g.time, g.received)]
  }

  /** The values of one interface, in cursor order. */
  function Values(groups: seq<Group>, name: string, received: bool): seq<Point> {
    if groups == [] then []
    else
      var n := |groups| - 1;
      Values(groups[..n], name, received)
      + (if groups[n].name == name then [Point(groups[n].time, GroupValue(groups[n], received))] else [])
  }

  lemma ResourceInjective(a: string, r: bool, b: string, q: bool)
    ensures Resource(a, r) == Resource(b, q) <==> a == b && r == q
  {
    var x, y := Resource(a, r), Resource(b, q);
    if x == y {
      assert x[|x| - 1] == (if r then 'r' else 's') && y[|y| - 1] == (if q then 'r' else 's');
      assert a == x[..|x| - 3] && b == y[..|y| - 3];
    }
  }

  lemma {:induction false} SamplesOf(groups: seq<Group>, name: string, received: bool)
    ensures Of(Samples(groups), Resource(name, received)) == Values(groups, name, received)
  {
    if groups != [] {
      var n := |groups| - 1;
      var g := groups[n];
      var rest := Samples(groups[..n]);
      SamplesOf(groups[..n], name, received);
      ResourceInjective(g.name, false, name, received);
      ResourceInjective(g.name, true, name, received);
      var sent := Sample(Resource(g.name, false), g.time, g.sent);
      OfOneMore(rest, sent);
      OfOneMore(rest + [sent], Sample(Resource(g.name, true), g.time, g.received));
    }
  }

  /** Every row by itself, as the single chart reads them. */
  function AsGroups(rows: seq<Row>): (groups: seq<Group>)
    ensures |groups| == |rows|
    ensures forall i | 0 <= i < |rows| ::
      groups[i] == Group(rows[i].time, rows[i].interface.name, rows[i].interface.sent, rows[i].interface.received)
  {
    seq(|rows|, i requires 0 <= i < |rows| =>
      Group(rows[i].time, rows[i].interface.name, rows[i].interface.sent, rows[i].interface.received))
  }

  /** What the cursor yields: single rows at an interval of a minute, else the aggregation's answer. */
  function Cursor(docs: seq<Document>, start: int, end: int, open: bool, intv: int, groups: seq<Group>): seq<Group> {
    if intv == MINUTE then AsGroups(Rows(docs, start, end, open)) else groups
  }

  /** `groups` is an answer the database may give, should it be asked for groups. */
  ghost predicate Answered(docs: seq<Document>, start: int, end: int, open: bool, intv: int, groups: seq<Group>)
    requires intv > 0
  {
    intv != MINUTE ==> Grouped(groups, Rows(docs, start, end, open), intv)
  }

  /** The chart data of the given groups: the series of those interfaces that occur. */
  ghost predicate ChartOf(data: map<string, seq<Point>>, groups: seq<Group>, start: int, end: int, intv: int)
    requires intv > 0
  {
    && (forall name, received :: Resource(name, received) in data <==> Values(groups, name, received) != [])
    && (forall name, received | Resource(name, received) in data ::
         data[Resource(name, received)] == Exported(Values(groups, name, received), start, ChartEnd(end, intv), intv))
  }

  /** The range the chart covers, aligned to the interval. `docs` lists the collection in the order of time. */
  method GetChart(docs: seq<Document>, start: int, end: int, open: bool, intv: int, groups: seq<Group>)
    returns (chartData: map<string, seq<Point>>)
    requires intv > 0 && Answered(docs, Bucket(start, intv), Bucket(end, intv), open, intv, groups)
    ensures var s, e := Bucket(start, intv), Bucket(end, intv);
      ChartOf(chartData, Cursor(docs, s, e, open, intv, groups), s, e, intv)
    ensures start >= intv && end >= 0 && (intv == MINUTE ==> Minutely(docs)) ==>
      Charts(chartData, docs, start - start % intv, end - end % intv, open, intv)
  {
    hide ChartOf, Answered, Cursor, Charts, Minutely;
    var start', end' := start + Rem(start, intv) * -1, end + Rem(end, intv) * -1;
    chartData := GetNetworkChart(docs, start', end', open, intv, groups);
    if start >= intv && end >= 0 && (intv == MINUTE ==> Minutely(docs)) {
      BucketHolds(start, intv);
      BucketHolds(end, intv);
      ChartIsHeld(chartData, docs, groups, start', end', open, intv);
    }
  }

  /** The aggregation's groups, in the order of the cursor, into a chart; at one minute, the single documents. */
  method GetNetworkChart(docs: seq<Document>, start: int, end: int, open: bool, intv: int, groups: seq<Group>)
    returns (chartData: map<string, seq<Point>>)
    requires intv > 0 && Answered(docs, start, end, open, intv, groups)
    ensures ChartOf(chartData, Cursor(docs, start, end, open, intv, groups), start, end, intv)
  {
    hide Exported, Charted, Of, Grouped, Chart.Shows, ChartOf;
    if intv == MINUTE {
      chartData := GetNetworkChartSingle(docs, start, end, open);
      return;
    }
    var chart := new Chart(start, end, intv);
    var i := 0;
    while i < |groups|
      invariant 0 <= i <= |groups| && fresh(chart)
      invariant chart.Valid() && chart.start == start && chart.end == ChartEnd(end, intv) && chart.intv == intv
      invariant chart.Shows(Samples(groups[..i]))
    {
      var doc := groups[i];
      assert groups[..i + 1][..i] == groups[..i];
      var sent := Sample(Resource(doc.name, false), doc.time, doc.sent);
      chart.AddSample(sent, Samples(groups[..i]));
      chart.AddSample(Sample(Resource(doc.name, true), doc.time, doc.received), Samples(groups[..i]) + [sent]);
      i := i + 1;
    }
    assert groups[..i] == groups;
    chartData := chart.Export(Samples(groups));
    ExportIsChart(chartData, groups, start, end, intv);
  }

  /** Every document in range, interface by interface. */
  method GetNetworkChartSingle(docs: seq<Document>, start: int, end: int, open: bool)
    returns (chartData: map<string, seq<Point>>)
    ensures ChartOf(chartData, AsGroups(Rows(docs, start, end, open)), start, end, MINUTE)
  {
    hide Exported, Charted, Of, Chart.Shows, ChartOf, Samples;
    var chart := new Chart(start, end, MINUTE);
    ghost var rows: seq<Row> := [];
    NoSamples();
    for i := 0 to |docs|
      invariant fresh(chart)
      invariant chart.Valid() && chart.start == start && chart.end == ChartEnd(end, MINUTE) && chart.intv == MINUTE
      invariant rows == Rows(docs[..i], start, end, open) && chart.Shows(Samples(AsGroups(rows)))
    {
      var doc := docs[i];
      assert docs[..i + 1][..i] == docs[..i];
      if !InRange(doc.time, start, end, open) {
        assert rows + [] == rows;
        continue;
      }
      ghost var before := rows;
      for k := 0 to |doc.interfaces|
        invariant fresh(chart)
        invariant chart.Valid() && chart.start == start && chart.end == ChartEnd(end, MINUTE) && chart.intv == MINUTE
        invariant rows == before + Unwind(doc.time, doc.interfaces[..k]) && chart.Shows(Samples(AsGroups(rows)))
      {
        var iface := doc.interfaces[k];
        ghost var row := Row(doc.time, iface);
        AddsRow(rows, row);
        var sent := Sample(Resource(iface.name, false), doc.time, iface.sent);
        chart.AddSample(sent, Samples(AsGroups(rows)));
        chart.AddSample(Sample(Resource(iface.name, true), doc.time, iface.received), Samples(AsGroups(rows)) + [sent]);
        rows := rows + [row];
        assert Unwind(doc.time, doc.interfaces[..k]) + [row] == Unwind(doc.time, doc.interfaces[..k + 1]);
      }
      assert doc.interfaces[..|doc.interfaces|] == doc.interfaces;
    }
    assert docs[..|docs|] == docs;
    chartData := chart.Export(Samples(AsGroups(rows)));
    ExportIsChart(chartData, AsGroups(rows), start, end, MINUTE);
  }

  lemma NoSamples()
    ensures Samples(AsGroups([])) == []
  {
  }

  lemma AddsRow(rows: seq<Row>, r: Row)
    ensures Samples(AsGroups(rows + [r])) == Samples(AsGroups(rows))
      + [Sample(Resource(r.interface.name, false), r.time, r.interface.sent)]
      + [Sample(Resource(r.interface.name, true), r.time, r.interface.received)]
  {
    assert AsGroups(rows + [r])[..|rows|] == AsGroups(rows);
  }

  lemma ExportIsChart(data: map<string, seq<Point>>, groups: seq<Group>, start: int, end: int, intv: int)
    requires intv > 0 && forall r :: r in data <==> Of(Samples(groups), r) != []
    requires forall r | r in data :: data[r] == Exported(Of(Samples(groups), r), start, ChartEnd(end, intv), intv)
    ensures ChartOf(data, groups, start, end, intv)
  {
    hide Exported, Of, Samples, Values;
    forall name, received
      ensures Of(Samples(groups), Resource(name, received)) == Values(groups, name, received)
    {
      SamplesOf(groups, name, received);
    }
  }

  // ---- Grouping neither loses nor double-counts

  /** The group behind a value. */
  lemma {:induction false} GroupOf(groups: seq<Group>, name: string, received: bool, k: nat) returns (i: nat)
    requires k < |Values(groups, name, received)|
    ensures i < |groups| && groups[i].name == name
    ensures Values(groups, name, received)[k] == Point(groups[i].time, GroupValue(groups[i], received))
    ensures k < |Values(groups, name, received)| - 1 ==> i < |groups| - 1
  {
    var n := |groups| - 1;
    if k < |Values(groups[..n], name, received)| {
      i := GroupOf(groups[..n], name, received, k);
    } else {
      i := n;
    }
  }

  /** The value of a group. */
  lemma {:induction false} ValueOf(groups: seq<Group>, name: string, received: bool, i: nat) returns (k: nat)
    requires i < |groups| && groups[i].name == name
    ensures k < |Values(groups, name, received)|
    ensures Values(groups, name, received)[k] == Point(groups[i].time, GroupValue(groups[i], received))
  {
    var n := |groups| - 1;
    if i < n {
      k := ValueOf(groups[..n], name, received, i);
    } else {
      k := |Values(groups[..n], name, received)|;
    }
  }

  /** What the rows hold in the buckets of an interface's groups. */
  function KeyTotal(groups: seq<Group>, rows: seq<Row>, name: string, intv: int, received: bool): nat
    requires intv > 0
  {
    if groups == [] then 0
    else
      var n := |groups| - 1;
      KeyTotal(groups[..n], rows, name, intv, received)
      + (if groups[n].name == name then InBucket(rows, groups[n].time, name, intv, received) else 0)
  }

  lemma InBucketOneMore(rows: seq<Row>, r: Row, t: int, name: string, intv: int, received: bool)
    requires intv > 0
    ensures InBucket(rows + [r], t, name, intv, received) == InBucket(rows, t, name, intv, received)
      + (if r.interface.name == name && Bucket(r.time, intv) == t then Value(r.interface, received) else 0)
  {
    assert (rows + [r])[..|rows|] == rows;
  }

  /** One more row is in the bucket of exactly one group, when it is in any. */
  lemma {:induction false} KeyTotalAdds(groups: seq<Group>, rows: seq<Row>, r: Row, name: string, intv: int,
                                        received: bool)
    requires intv > 0 && Keyed(groups)
    ensures KeyTotal(groups, rows + [r], name, intv, received) == KeyTotal(groups, rows, name, intv, received)
      + (if r.interface.name == name && HasKey(groups, r, intv) then Value(r.interface, received) else 0)
  {
    if groups != [] {
      var n := |groups| - 1;
      KeyTotalAdds(groups[..n], rows, r, name, intv, received);
      InBucketOneMore(rows, r, groups[n].time, name, intv, received);
      HasKeyOfMore(groups, r, intv);
    }
  }

  lemma HasKeyOfMore(groups: seq<Group>, r: Row, intv: int)
    requires intv > 0 && groups != [] && Keyed(groups)
    ensures var n := |groups| - 1;
      && (HasKey(groups, r, intv) <==> HasKey(groups[..n], r, intv) || KeyOf(groups[n], r, intv))
      && !(HasKey(groups[..n], r, intv) && KeyOf(groups[n], r, intv))
  {
    var n := |groups| - 1;
    assert forall i | 0 <= i < n :: groups[..n][i] == groups[i];
    if HasKey(groups[..n], r, intv) {
      var i :| 0 <= i < n && KeyOf(groups[..n][i], r, intv);
      assert KeyOf(groups[i], r, intv);
    }
    if HasKey(groups, r, intv) && !KeyOf(groups[n], r, intv) {
      var i :| 0 <= i < |groups| && KeyOf(groups[i], r, intv);
      assert KeyOf(groups[..n][i], r, intv);
    }
  }

  lemma {:induction false} KeyTotalIsTotal(groups: seq<Group>, rows: seq<Row>, name: string, intv: int, received: bool)
    requires intv > 0 && Keyed(groups) && forall k | 0 <= k < |rows| :: HasKey(groups, rows[k], intv)
    ensures KeyTotal(groups, rows, name, intv, received) == Total(rows, name, received)
  {
    hide Keyed, HasKey;
    if rows == [] {
      KeyTotalOfNone(groups, rows, name, intv, received);
    } else {
      var n := |rows| - 1;
      assert forall k | 0 <= k < n :: rows[..n][k] == rows[k];
      KeyTotalIsTotal(groups, rows[..n], name, intv, received);
      KeyTotalAdds(groups, rows[..n], rows[n], name, intv, received);
      assert rows == rows[..n] + [rows[n]];
    }
  }

  lemma {:induction false} KeyTotalOfNone(groups: seq<Group>, rows: seq<Row>, name: string, intv: int, received: bool)
    requires intv > 0 && rows == []
    ensures KeyTotal(groups, rows, name, intv, received) == 0
  {
    if groups != [] {
      KeyTotalOfNone(groups[..|groups| - 1], rows, name, intv, received);
    }
  }

  lemma {:induction false} ValuesSum(groups: seq<Group>, rows: seq<Row>, name: string, intv: int, received: bool)
    requires intv > 0 && Summed(groups, rows, intv)
    ensures Sum(Values(groups, name, received)) == KeyTotal(groups, rows, name, intv, received)
  {
    if groups != [] {
      var n := |groups| - 1;
      assert forall i | 0 <= i < n :: groups[..n][i] == groups[i];
      ValuesSum(groups[..n], rows, name, intv, received);
      var last := Point(groups[n].time, GroupValue(groups[n], received));
      SumAppend(Values(groups[..n], name, received), if groups[n].name == name then [last] else []);
      assert Sum([last]) == last.y;
    }
  }

  lemma {:induction false} SinglesSum(rows: seq<Row>, name: string, received: bool)
    ensures Sum(Values(AsGroups(rows), name, received)) == Total(rows, name, received)
  {
    if rows == [] {
      assert AsGroups(rows) == [];
    } else {
      var n := |rows| - 1;
      var g := AsGroups(rows)[n];
      SinglesSum(rows[..n], name, received);
      assert AsGroups(rows)[..n] == AsGroups(rows[..n]);
      hide AsGroups, Sum;
      var last := Point(g.time, GroupValue(g, received));
      SumAppend(Values(AsGroups(rows[..n]), name, received), if g.name == name then [last] else []);
      SumOfOne(last);
    }
  }

  lemma SumOfOne(p: Point)
    ensures Sum([p]) == p.y && Sum([]) == 0
  {
  }

  /** At every interval, the exported values of an interface add up to the raw values of its documents in range. */
  lemma NetworkChartConserves(docs: seq<Document>, groups: seq<Group>, start: int, end: int, open: bool, intv: int,
                              name: string, received: bool)
    requires intv > 0 && Answered(docs, start, end, open, intv, groups)
    ensures var vs := Values(Cursor(docs, start, end, open, intv, groups), name, received);
      Sum(Exported(vs, start, ChartEnd(end, intv), intv)) == Total(Rows(docs, start, end, open), name, received)
  {
    hide Exported, Values, Rows, Total, Keyed, HasKey, Occurs, Summed, Sum;
    var rows := Rows(docs, start, end, open);
    var vs := Values(Cursor(docs, start, end, open, intv, groups), name, received);
    ExportConserves(vs, start, ChartEnd(end, intv), intv);
    if intv == MINUTE {
      SinglesSum(rows, name, received);
    } else {
      ValuesSum(groups, rows, name, intv, received);
      KeyTotalIsTotal(groups, rows, name, intv, received);
    }
  }

  // ---- Every point is its bucket

  lemma {:induction false} RowsInRange(docs: seq<Document>, start: int, end: int, open: bool)
    ensures forall k | 0 <= k < |Rows(docs, start, end, open)| ::
      InRange(Rows(docs, start, end, open)[k].time, start, end, open)
  {
    if docs != [] {
      RowsInRange(docs[..|docs| - 1], start, end, open);
    }
  }

  lemma BucketAligned(t: int, start: int, intv: int)
    requires intv > 0 && 0 < start <= t && start % intv == 0
    ensures Bucket(t, intv) >= start && (Bucket(t, intv) - start) % intv == 0
  {
    var q, p := t / intv, start / intv;
    assert Bucket(t, intv) - start == (q - p) * intv;
    ModUnique(Bucket(t, intv) - start, q - p, 0, intv);
    assert q < p ==> (p - q) * intv >= intv;
    assert q >= p ==> (q - p) * intv >= 0;
  }

  lemma {:induction false} ValuesIncrease(groups: seq<Group>, name: string, received: bool)
    requires Keyed(groups)
    ensures var vs := Values(groups, name, received); forall i | 0 < i < |vs| :: vs[i - 1].x < vs[i].x
  {
    if groups != [] {
      var n := |groups| - 1;
      var vs := Values(groups[..n], name, received);
      ValuesIncrease(groups[..n], name, received);
      if vs != [] {
        var i := GroupOf(groups[..n], name, received, |vs| - 1);
        assert groups[..n][i] == groups[i];
      }
    }
  }

  lemma {:induction false} EmptyBucket(rows: seq<Row>, t: int, name: string, intv: int, received: bool)
    requires intv > 0
    requires forall k | 0 <= k < |rows| :: rows[k].interface.name != name || Bucket(rows[k].time, intv) != t
    ensures InBucket(rows, t, name, intv, received) == 0
  {
    if rows != [] {
      assert forall k | 0 <= k < |rows| - 1 :: rows[..|rows| - 1][k] == rows[k];
      EmptyBucket(rows[..|rows| - 1], t, name, intv, received);
    }
  }

  /** For an aligned start, the samples the chart is given are increasing, aligned, and not before the start. */
  lemma ValuesFitTheGrid(groups: seq<Group>, rows: seq<Row>, start: int, intv: int, name: string, received: bool)
    requires intv > 0 && start > 0 && start % intv == 0 && Grouped(groups, rows, intv)
    requires forall k | 0 <= k < |rows| :: rows[k].time >= start
    ensures Increasing(Values(groups, name, received), start) && Aligned(Values(groups, name, received), start, intv)
  {
    hide Values, Bucket, Summed, HasKey, Keyed;
    var vs := Values(groups, name, received);
    ValuesIncrease(groups, name, received);
    forall j | 0 <= j < |vs|
      ensures vs[j].x >= start && (vs[j].x - start) % intv == 0
    {
      var i := GroupOf(groups, name, received, j);
      var k :| 0 <= k < |rows| && KeyOf(groups[i], rows[k], intv);
      BucketAligned(rows[k].time, start, intv);
    }
  }

  /** What Format and the document's identifier give the collection: whole minutes, each once; and no interface is
      named twice in one document. */
  ghost predicate Minutely(docs: seq<Document>) {
    && (forall i | 0 <= i < |docs| :: docs[i].time % MINUTE == 0 && NamesOnce(docs[i].interfaces))
    && (forall i, j | 0 <= i < j < |docs| :: docs[i].time < docs[j].time)
  }

  ghost predicate NamesOnce(interfaces: seq<Interface>) {
    forall i, j | 0 <= i < j < |interfaces| :: interfaces[i].name != interfaces[j].name
  }

  /** In the order of time, and no minute and name twice. */
  ghost predicate Singles(rows: seq<Row>) {
    && (forall k | 0 <= k < |rows| :: rows[k].time % MINUTE == 0)
    && (forall i, j | 0 <= i < j < |rows| ::
         rows[i].time < rows[j].time ||
         (rows[i].time == rows[j].time && rows[i].interface.name != rows[j].interface.name))
  }

  lemma {:induction false} MinutelyRows(docs: seq<Document>, start: int, end: int, open: bool)
    requires Minutely(docs)
    ensures Singles(Rows(docs, start, end, open))
    ensures forall k | 0 <= k < |Rows(docs, start, end, open)| ::
      exists i :: 0 <= i < |docs| && docs[i].time == Rows(docs, start, end, open)[k].time
  {
    if docs != [] {
      var n := |docs| - 1;
      var before := Rows(docs[..n], start, end, open);
      assert forall i | 0 <= i < n :: docs[..n][i] == docs[i];
      MinutelyRows(docs[..n], start, end, open);
      forall k | 0 <= k < |before|
        ensures before[k].time < docs[n].time
      {
        var i :| 0 <= i < n && docs[..n][i].time == before[k].time;
        assert docs[i].time < docs[n].time;
      }
    }
  }

  /** Single rows are their own groups. */
  lemma SinglesAreGrouped(rows: seq<Row>)
    requires Singles(rows) && forall k | 0 <= k < |rows| :: rows[k].time >= 0
    ensures Grouped(AsGroups(rows), rows, MINUTE)
  {
    hide InBucket;
    var groups := AsGroups(rows);
    forall k | 0 <= k < |rows|
      ensures KeyOf(groups[k], rows[k], MINUTE)
      ensures groups[k].sent == InBucket(rows, groups[k].time, groups[k].name, MINUTE, false)
      ensures groups[k].received == InBucket(rows, groups[k].time, groups[k].name, MINUTE, true)
    {
      assert Bucket(rows[k].time, MINUTE) == rows[k].time;
      OnlyRow(rows, k, false);
      OnlyRow(rows, k, true);
    }
  }

  lemma {:induction false} OnlyRow(rows: seq<Row>, k: nat, received: bool)
    requires Singles(rows) && k < |rows| && forall j | 0 <= j < |rows| :: rows[j].time >= 0
    ensures InBucket(rows, rows[k].time, rows[k].interface.name, MINUTE, received) == Value(rows[k].interface, received)
  {
    hide Value;
    var n := |rows| - 1;
    assert forall j | 0 <= j < n :: rows[..n][j] == rows[j];
    assert forall j | 0 <= j < |rows| :: Bucket(rows[j].time, MINUTE) == rows[j].time;
    if k < n {
      OnlyRow(rows[..n], k, received);
    } else {
      EmptyBucket(rows[..n], rows[k].time, rows[k].interface.name, MINUTE, received);
    }
  }

  /** The series of an interface is the grid from start to the chart's end (or to its last bucket, if later), each point
      holding what the documents from its time on and before the next point's hold, zero where there are none; at one
      minute, for a collection of whole minutes. */
  lemma NetworkChartIsBuckets(docs: seq<Document>, groups: seq<Group>, start: int, end: int, open: bool, intv: int,
                              name: string, received: bool)
    requires intv > 0 && start > 0 && start % intv == 0 && end % intv == 0
    requires Answered(docs, start, end, open, intv, groups) && (intv == MINUTE ==> Minutely(docs))
    requires Values(Cursor(docs, start, end, open, intv, groups), name, received) != []
    ensures var vs := Values(Cursor(docs, start, end, open, intv, groups), name, received);
      var points := Exported(vs, start, ChartEnd(end, intv), intv);
      && points != [] && OnGrid(points, start, intv)
      && points[|points| - 1].x == Max(ChartEnd(end, intv), vs[|vs| - 1].x)
      && forall i | 0 <= i < |points| ::
           points[i].y == HeldIn(docs, points[i].x, Until(points[i].x, end, open, intv), name, received)
  {
    hide Exported, Values, InBucket, Rows, Grouped, Increasing, Aligned, OnGrid, AsGroups, Minutely, Singles, HeldIn,
      Until;
    var rows, cursor := Rows(docs, start, end, open), Cursor(docs, start, end, open, intv, groups);
    var vs := Values(cursor, name, received);
    RowsInRange(docs, start, end, open);
    assert forall k | 0 <= k < |rows| :: InRange(rows[k].time, start, end, open);
    if intv == MINUTE {
      MinutelyRows(docs, start, end, open);
      SinglesAreGrouped(rows);
      assert Grouped(cursor, rows, intv);
    }
    ValuesFitTheGrid(cursor, rows, start, intv, name, received);
    EndAligned(start, end, intv);
    ExportIsGrid(vs, start, ChartEnd(end, intv), intv);
    var points := Exported(vs, start, ChartEnd(end, intv), intv);
    forall i | 0 <= i < |points|
      ensures points[i].y == HeldIn(docs, points[i].x, Until(points[i].x, end, open, intv), name, received)
    {
      ExportValues(vs, start, ChartEnd(end, intv), intv, i);
      PointIsBucket(cursor, rows, intv, name, received, points[i]);
      GridAligned(points, i, start, intv);
      InBucketIsHeld(docs, start, end, open, points[i].x, name, intv, received);
    }
  }

  lemma EndAligned(start: int, end: int, intv: int)
    requires intv > 0 && start % intv == 0 && end % intv == 0
    ensures (ChartEnd(end, intv) - start) % intv == 0
  {
    assert intv == MINUTE ==> (end - MINUTE) % MINUTE == 0;
    DifferenceAligned(start, ChartEnd(end, intv), intv);
  }

  lemma DifferenceAligned(a: int, b: int, d: int)
    requires d > 0 && a % d == 0 && b % d == 0
    ensures (b - a) % d == 0
  {
    assert b - a == (b / d - a / d) * d;
    ModUnique(b - a, b / d - a / d, 0, d);
  }

  lemma PointIsBucket(groups: seq<Group>, rows: seq<Row>, intv: int, name: string, received: bool, p: Point)
    requires intv > 0 && Grouped(groups, rows, intv)
    requires var vs := Values(groups, name, received);
      && (forall j | 0 <= j < |vs| && vs[j].x == p.x :: p == vs[j])
      && ((forall j | 0 <= j < |vs| :: vs[j].x != p.x) ==> p.y == 0)
    ensures p.y == InBucket(rows, p.x, name, intv, received)
  {
    hide Values, InBucket, Bucket, Keyed, Occurs;
    var vs := Values(groups, name, received);
    if i :| 0 <= i < |groups| && groups[i].name == name && groups[i].time == p.x {
      var j := ValueOf(groups, name, received, i);
      assert p == vs[j];
    } else {
      forall j | 0 <= j < |vs|
        ensures vs[j].x != p.x
      {
        var i := GroupOf(groups, name, received, j);
      }
      forall k | 0 <= k < |rows|
        ensures rows[k].interface.name != name || Bucket(rows[k].time, intv) != p.x
      {
        var i :| 0 <= i < |groups| && KeyOf(groups[i], rows[k], intv);
      }
      EmptyBucket(rows, p.x, name, intv, received);
    }
  }

  // ---- The chart over the documents themselves

  /** From the Unix epoch on, a bucket is the multiple of the interval at or before a time. */
  lemma BucketHolds(t: int, intv: int)
    requires intv > 0 && t >= 0
    ensures Bucket(t, intv) <= t < Bucket(t, intv) + intv && Bucket(t, intv) % intv == 0 && Bucket(t, intv) >= 0
  {
    var q := t / intv;
    assert Bucket(t, intv) == q * intv;
    ModUnique(q * intv, q, 0, intv);
  }

  lemma BucketIff(t: int, x: int, intv: int)
    requires intv > 0 && t >= 0 && x % intv == 0
    ensures Bucket(t, intv) == x <==> x <= t < x + intv
  {
    BucketHolds(t, intv);
    if x <= t < x + intv {
      assert x == x / intv * intv;
      ModUnique(t, x / intv, t - x, intv);
    }
  }

  /** What the entries of one document for an interface hold. */
  function HeldBy(interfaces: seq<Interface>, name: string, received: bool): nat {
    if interfaces == [] then 0
    else
      var n := |interfaces| - 1;
      HeldBy(interfaces[..n], name, received)
      + (if interfaces[n].name != name then 0 else if received then interfaces[n].received else interfaces[n].sent)
  }

  /** What the documents from `low` on and before `high` hold. */
  function HeldIn(docs: seq<Document>, low: int, high: int, name: string, received: bool): nat {
    if docs == [] then 0
    else
      var n := |docs| - 1;
      HeldIn(docs[..n], low, high, name, received)
      + (if low <= docs[n].time < high then HeldBy(docs[n].interfaces, name, received) else 0)
  }

  lemma {:induction false} InBucketUnwound(rows: seq<Row>, t: int, interfaces: seq<Interface>, x: int, name: string,
                                           intv: int, received: bool)
    requires intv > 0
    ensures InBucket(rows + Unwind(t, interfaces), x, name, intv, received) ==
      InBucket(rows, x, name, intv, received) + (if Bucket(t, intv) == x then HeldBy(interfaces, name, received) else 0)
  {
    hide Bucket, InBucket;
    if interfaces == [] {
      assert rows + Unwind(t, interfaces) == rows;
    } else {
      var n := |interfaces| - 1;
      var before := rows + Unwind(t, interfaces[..n]);
      InBucketUnwound(rows, t, interfaces[..n], x, name, intv, received);
      InBucketOneMore(before, Row(t, interfaces[n]), x, name, intv, received);
      assert rows + Unwind(t, interfaces) == before + [Row(t, interfaces[n])];
    }
  }

  /** The end of a bucket, or of the range if that comes sooner. */
  function Until(x: int, end: int, open: bool, intv: int): int {
    if open || x + intv <= end then x + intv else end + 1
  }

  /** A bucket of the range holds what the documents of its time, up to the end of the range, hold. */
  lemma {:induction false} InBucketIsHeld(docs: seq<Document>, start: int, end: int, open: bool, x: int, name: string,
                                          intv: int, received: bool)
    requires intv > 0 && 0 <= start <= x && x % intv == 0
    ensures InBucket(Rows(docs, start, end, open), x, name, intv, received) ==
      HeldIn(docs, x, Until(x, end, open, intv), name, received)
  {
    hide Bucket, InBucket, HeldBy;
    if docs == [] {
      EmptyBucket(Rows(docs, start, end, open), x, name, intv, received);
    } else {
      var n := |docs| - 1;
      var doc := docs[n];
      var before := Rows(docs[..n], start, end, open);
      InBucketIsHeld(docs[..n], start, end, open, x, name, intv, received);
      if InRange(doc.time, start, end, open) {
        BucketIff(doc.time, x, intv);
        InBucketUnwound(before, doc.time, doc.interfaces, x, name, intv, received);
      } else {
        assert before + [] == before;
      }
    }
  }

  /** Some document in range has an entry for the interface. */
  ghost predicate Seen(docs: seq<Document>, start: int, end: int, open: bool, name: string) {
    exists i, k :: HasEntry(docs, i, k, start, end, open, name)
  }

  ghost predicate HasEntry(docs: seq<Document>, i: int, k: int, start: int, end: int, open: bool, name: string) {
    && 0 <= i < |docs| && start <= docs[i].time && (open || docs[i].time <= end)
    && 0 <= k < |docs[i].interfaces| && docs[i].interfaces[k].name == name
  }

  ghost predicate HasRow(rows: seq<Row>, name: string) {
    exists k :: 0 <= k < |rows| && rows[k].interface.name == name
  }

  lemma {:induction false} EntryIsRow(docs: seq<Document>, i: nat, k: nat, start: int, end: int, open: bool,
                                      name: string)
    requires HasEntry(docs, i, k, start, end, open, name)
    ensures HasRow(Rows(docs, start, end, open), name)
  {
    var n := |docs| - 1;
    var before, rows := Rows(docs[..n], start, end, open), Rows(docs, start, end, open);
    if i < n {
      EntryIsRow(docs[..n], i, k, start, end, open, name);
      var m :| 0 <= m < |before| && before[m].interface.name == name;
      assert rows[m] == before[m];
    } else {
      assert rows[|before| + k].interface.name == name;
    }
  }

  lemma SeenIsRow(docs: seq<Document>, start: int, end: int, open: bool, name: string)
    ensures Seen(docs, start, end, open, name) <==> HasRow(Rows(docs, start, end, open), name)
  {
    hide Rows, HasEntry;
    if i, k :| HasEntry(docs, i, k, start, end, open, name) {
      assert 0 <= i && 0 <= k by { EntryPlaces(docs, i, k, start, end, open, name); }
      EntryIsRow(docs, i, k, start, end, open, name);
    }
    var rows := Rows(docs, start, end, open);
    if m :| 0 <= m < |rows| && rows[m].interface.name == name {
      RowIsEntry(docs, start, end, open, m);
    }
  }

  lemma EntryPlaces(docs: seq<Document>, i: int, k: int, start: int, end: int, open: bool, name: string)
    requires HasEntry(docs, i, k, start, end, open, name)
    ensures 0 <= i && 0 <= k
  {
  }

  /** An interface has a series exactly when some row is its own. */
  lemma ValuesIff(groups: seq<Group>, rows: seq<Row>, intv: int, name: string, received: bool)
    requires intv > 0 && Grouped(groups, rows, intv)
    ensures Values(groups, name, received) != [] <==> HasRow(rows, name)
  {
    hide Values, Bucket, Summed, Keyed;
    if Values(groups, name, received) != [] {
      var i := GroupOf(groups, name, received, 0);
      var k :| 0 <= k < |rows| && KeyOf(groups[i], rows[k], intv);
    }
    if k :| 0 <= k < |rows| && rows[k].interface.name == name {
      var i :| 0 <= i < |groups| && KeyOf(groups[i], rows[k], intv);
      var j := ValueOf(groups, name, received, i);
    }
  }

  /** What the chart of a range is for: a series for each interface seen in it and each direction, and no other. */
  ghost predicate Charts(data: map<string, seq<Point>>, docs: seq<Document>, start: int, end: int, open: bool,
                         intv: int)
    requires intv > 0
  {
    forall name: string, received: bool :: SeriesIn(data, docs, start, end, open, intv, name, received)
  }

  ghost predicate SeriesIn(data: map<string, seq<Point>>, docs: seq<Document>, start: int, end: int, open: bool,
                           intv: int, name: string, received: bool)
    requires intv > 0
  {
    var key := name + (if received then "-br" else "-bs");
    && (key in data <==> Seen(docs, start, end, open, name))
    && (key in data ==> SeriesOf(data[key], docs, start, end, open, intv, name, received))
  }

  /** One point an interval from the start to the chart's end, or on to the last bucket with an entry if that is later;
      each with the sum over the documents from its time on and before the next point's, up to the end of the range. */
  ghost predicate SeriesOf(points: seq<Point>, docs: seq<Document>, start: int, end: int, open: bool, intv: int,
                           name: string, received: bool)
    requires intv > 0
  {
    && points != [] && points[0].x == start
    && (forall i | 0 < i < |points| :: points[i].x == points[i - 1].x + intv)
    && (forall i | 0 <= i < |points| ::
         points[i].y == HeldIn(docs, points[i].x, Until(points[i].x, end, open, intv), name, received))
    && var last := points[|points| - 1].x;
       && last >= ChartEnd(end, intv)
       && (last > ChartEnd(end, intv) ==> last == start || Seen(docs, last, end, open, name))
  }

  lemma RowsFit(docs: seq<Document>, groups: seq<Group>, start: int, end: int, open: bool, intv: int)
    requires intv > 0 && start > 0 && Answered(docs, start, end, open, intv, groups)
    requires intv == MINUTE ==> Minutely(docs)
    ensures Grouped(Cursor(docs, start, end, open, intv, groups), Rows(docs, start, end, open), intv)
  {
    hide Grouped, Rows;
    if intv == MINUTE {
      MinutelyRows(docs, start, end, open);
      RowsInRange(docs, start, end, open);
      SinglesAreGrouped(Rows(docs, start, end, open));
    }
  }

  lemma GridAligned(points: seq<Point>, i: nat, start: int, intv: int)
    requires intv > 0 && start % intv == 0 && i < |points| && OnGrid(points, start, intv)
    ensures points[i].x >= start && points[i].x % intv == 0
  {
    if i > 0 {
      GridAligned(points, i - 1, start, intv);
      var x := points[i - 1].x;
      assert x + intv == (x / intv + 1) * intv;
      ModUnique(x + intv, x / intv + 1, 0, intv);
    }
  }

  /** The chart data of a range is that chart, for an aligned range after the epoch. */
  lemma ChartIsHeld(data: map<string, seq<Point>>, docs: seq<Document>, groups: seq<Group>, start: int, end: int,
                    open: bool, intv: int)
    requires intv > 0 && start > 0 && start % intv == 0 && end % intv == 0
    requires Answered(docs, start, end, open, intv, groups) && (intv == MINUTE ==> Minutely(docs))
    requires ChartOf(data, Cursor(docs, start, end, open, intv, groups), start, end, intv)
    ensures Charts(data, docs, start, end, open, intv)
  {
    hide Values, Exported, Rows, Grouped, Answered, Minutely, Cursor, Seen, SeriesOf;
    RowsFit(docs, groups, start, end, open, intv);
    forall name: string, received: bool
      ensures SeriesIn(data, docs, start, end, open, intv, name, received)
    {
      var vs := Values(Cursor(docs, start, end, open, intv, groups), name, received);
      SeenIsRow(docs, start, end, open, name);
      ValuesIff(Cursor(docs, start, end, open, intv, groups), Rows(docs, start, end, open), intv, name, received);
      assert Resource(name, received) in data <==> vs != [];
      if vs != [] {
        SeriesIsHeld(docs, groups, start, end, open, intv, name, received);
      }
    }
  }

  lemma SeriesIsHeld(docs: seq<Document>, groups: seq<Group>, start: int, end: int, open: bool, intv: int,
                     name: string, received: bool)
    requires intv > 0 && start > 0 && start % intv == 0 && end % intv == 0
    requires Answered(docs, start, end, open, intv, groups) && (intv == MINUTE ==> Minutely(docs))
    requires Values(Cursor(docs, start, end, open, intv, groups), name, received) != []
    ensures var vs := Values(Cursor(docs, start, end, open, intv, groups), name, received);
      SeriesOf(Exported(vs, start, ChartEnd(end, intv), intv), docs, start, end, open, intv, name, received)
  {
    hide Values, Exported, Rows, Grouped, Answered, Minutely, Cursor, Seen, HeldIn, Until;
    NetworkChartIsBuckets(docs, groups, start, end, open, intv, name, received);
    RowsFit(docs, groups, start, end, open, intv);
    LastIsSeen(docs, Cursor(docs, start, end, open, intv, groups), start, end, open, intv, name, received);
  }

  /** The time of the last value is the bucket of an entry in range. */
  lemma LastIsSeen(docs: seq<Document>, groups: seq<Group>, start: int, end: int, open: bool, intv: int, name: string,
                   received: bool)
    requires intv > 0 && start > 0 && Grouped(groups, Rows(docs, start, end, open), intv)
    requires Values(groups, name, received) != []
    ensures var vs := Values(groups, name, received); Seen(docs, vs[|vs| - 1].x, end, open, name)
  {
    hide Values, Rows, Keyed, Summed, HasKey;
    var vs, rows := Values(groups, name, received), Rows(docs, start, end, open);
    var i := GroupOf(groups, name, received, |vs| - 1);
    assert Occurs(groups[i], rows, intv);
    var k :| 0 <= k < |rows| && KeyOf(groups[i], rows[k], intv);
    RowIsEntry(docs, start, end, open, k);
    hide KeyOf;
    RowsInRange(docs, start, end, open);
    BucketHolds(rows[k].time, intv);
    var d, m :| HasEntry(docs, d, m, start, end, open, name) && docs[d].time == rows[k].time;
    assert HasEntry(docs, d, m, vs[|vs| - 1].x, end, open, name);
  }

  lemma {:induction false} RowIsEntry(docs: seq<Document>, start: int, end: int, open: bool, k: nat)
    requires k < |Rows(docs, start, end, open)|
    ensures var r := Rows(docs, start, end, open)[k];
      exists d, m :: HasEntry(docs, d, m, start, end, open, r.interface.name) && docs[d].time == r.time
  {
    var n := |docs| - 1;
    var before, r := Rows(docs[..n], start, end, open), Rows(docs, start, end, open)[k];
    if k < |before| {
      RowIsEntry(docs[..n], start, end, open, k);
      var d, m :| HasEntry(docs[..n], d, m, start, end, open, r.interface.name) && docs[..n][d].time == r.time;
      assert HasEntry(docs, d, m, start, end, open, r.interface.name) && docs[d].time == r.time;
    } else {
      assert HasEntry(docs, n, k - |before|, start, end, open, r.interface.name) && docs[n].time == r.time;
    }
  }
}
