/** The dashboard's aggregate queries (convex/dashboard.ts): three
    counts, samples per analysis, and orders per weekday. */
module DashboardApi {
  import opened Common
  import opened Tables
  import opened Schema

  /** The three counters shown on the dashboard. */
  datatype DashboardStats = DashboardStats(pendingSamples: nat, unpaidOrders: nat, totalUsers: nat)

  /** A sample still to be finished (`procesando` or `sin tomar`). */
  predicate IsPending(d: Doc<SampleId, Sample>)
  {
    d.fields.estado != Finalizada
  }

  /** An order whose payment is outstanding. */
  predicate IsUnpaid(d: Doc<OrderId, Order>)
  {
    d.fields.statusPago == Pendiente
  }

  /** `getDashboardStats`: the number of samples not yet finished, the
      number of orders whose payment is pending, and the number of
      users. No sample is pending exactly when every sample is finished,
      and every sample is pending exactly when none is; likewise for
      unpaid orders. */
  function GetDashboardStats(db: Database): (r: DashboardStats)
    reads db
    requires db.Valid()
    ensures r.pendingSamples == |set s | s in db.samples.rows && db.samples.rows[s].estado != Finalizada|
    ensures r.unpaidOrders == |set o | o in db.orders.rows && db.orders.rows[o].statusPago == Pendiente|
    ensures r.pendingSamples <= |db.samples.rows| && r.unpaidOrders <= |db.orders.rows|
    ensures r.pendingSamples == 0 <==> forall s :: s in db.samples.rows ==> db.samples.rows[s].estado == Finalizada
    ensures r.pendingSamples == |db.samples.rows| <==>
      forall s :: s in db.samples.rows ==> db.samples.rows[s].estado != Finalizada
    ensures r.unpaidOrders == 0 <==> forall o :: o in db.orders.rows ==> db.orders.rows[o].statusPago != Pendiente
    ensures r.unpaidOrders == |db.orders.rows| <==>
      forall o :: o in db.orders.rows ==> db.orders.rows[o].statusPago == Pendiente
    ensures r.totalUsers == |db.users.rows|
  {
    PendingCount(db.samples);
    UnpaidCount(db.orders);
    CountIds(db.users);
    DashboardStats(|Filter(db.samples.Docs(), IsPending)|, |Filter(db.orders.Docs(), IsUnpaid)|, db.users.Size())
  }

  /** The pending count: how many stored samples are not finished, and
      the two extremes. */
  lemma PendingCount(t: Table<SampleId, Sample>)
    requires t.WellFormed()
    ensures |Filter(t.Docs(), IsPending)| == |set s | s in t.rows && t.rows[s].estado != Finalizada|
    ensures |Filter(t.Docs(), IsPending)| == 0 <==> forall s :: s in t.rows ==> t.rows[s].estado == Finalizada
    ensures |Filter(t.Docs(), IsPending)| == |t.rows| <==> forall s :: s in t.rows ==> t.rows[s].estado != Finalizada
  {
    var p: Doc<SampleId, Sample> -> bool := IsPending;
    CountWhere(t, p);
    assert (set s | s in t.rows && p(Doc(s, t.rows[s])))
      == set s | s in t.rows && t.rows[s].estado != Finalizada;
  }

  /** The unpaid count: how many stored orders have a pending payment,
      and the two extremes. */
  lemma UnpaidCount(t: Table<OrderId, Order>)
    requires t.WellFormed()
    ensures |Filter(t.Docs(), IsUnpaid)| == |set o | o in t.rows && t.rows[o].statusPago == Pendiente|
    ensures |Filter(t.Docs(), IsUnpaid)| == 0 <==> forall o :: o in t.rows ==> t.rows[o].statusPago != Pendiente
    ensures |Filter(t.Docs(), IsUnpaid)| == |t.rows| <==> forall o :: o in t.rows ==> t.rows[o].statusPago == Pendiente
  {
    var p: Doc<OrderId, Order> -> bool := IsUnpaid;
    CountWhere(t, p);
    assert (set o | o in t.rows && p(Doc(o, t.rows[o])))
      == set o | o in t.rows && t.rows[o].statusPago == Pendiente;
  }

  // ---------------------------------------------------------------
  // Samples per analysis

  /** How many times `k` occurs in `ids`. */
  function Occurrences(ids: seq<AnalysisId>, k: AnalysisId): (n: nat)
    ensures n <= |ids|
    ensures n == 0 <==> k !in ids
  {
    if ids == [] then 0
    else
      var prev := ids[..|ids| - 1];
      assert forall x :: x in ids <==> x in prev || x == ids[|ids| - 1];
      Occurrences(prev, k) + (if ids[|ids| - 1] == k then 1 else 0)
  }

  /** The distinct ids of `ids`, in the order each first occurs (the
      key order of a record filled by assignment). */
  function FirstSeen(ids: seq<AnalysisId>): (r: seq<AnalysisId>)
    ensures Distinct(r)
    ensures forall k :: k in r <==> k in ids
  {
    if ids == [] then []
    else
      var prev := ids[..|ids| - 1];
      var last := ids[|ids| - 1];
      assert forall x :: x in ids <==> x in prev || x == last;
      var seen := FirstSeen(prev);
      if last in seen then seen else seen + [last]
  }

  /** One bar of the chart: the analysis's label and its sample count. */
  datatype ChartEntry = ChartEntry(name: string, total: nat)

  const UnknownAnalysisName := "Desconocido"

  /** The label of an analysis id: its name, or "Desconocido" when the
      id has no analysis or the name is empty (`||` treats `""` as
      missing). */
  function AnalysisLabel(catalog: map<AnalysisId, Analisis>, k: AnalysisId): (r: string)
    ensures r == UnknownAnalysisName <==> k !in catalog || catalog[k].nombre in {"", UnknownAnalysisName}
    ensures r != UnknownAnalysisName ==> k in catalog && r == catalog[k].nombre
  {
    if k in catalog && catalog[k].nombre != "" then catalog[k].nombre else UnknownAnalysisName
  }

  /** The chart for the analysis ids `keys`, each counted in `ids`. */
  function ChartOf(catalog: map<AnalysisId, Analisis>, keys: seq<AnalysisId>, ids: seq<AnalysisId>)
    : (r: seq<ChartEntry>)
    ensures |r| == |keys|
    ensures forall j :: 0 <= j < |r| ==>
      r[j] == ChartEntry(AnalysisLabel(catalog, keys[j]), Occurrences(ids, keys[j]))
  {
    if keys == [] then []
    else ChartOf(catalog, keys[..|keys| - 1], ids) + [ChartEntry(AnalysisLabel(catalog, keys[|keys| - 1]), Occurrences(ids, keys[|keys| - 1]))]
  }

  /** `getSamplesByAnalysis` on the samples' analysis ids: one entry
      per distinct id, in first-occurrence order. */
  function Chart(catalog: map<AnalysisId, Analisis>, ids: seq<AnalysisId>): seq<ChartEntry>
  {
    ChartOf(catalog, FirstSeen(ids), ids)
  }

  /** The sum of the chart's totals. */
  function TotalOf(es: seq<ChartEntry>): nat
  {
    if es == [] then 0 else TotalOf(es[..|es| - 1]) + es[|es| - 1].total
  }

  /** One more id adds one to its own count and leaves the others. */
  lemma OccurrencesSnoc(ids: seq<AnalysisId>, x: AnalysisId, k: AnalysisId)
    ensures Occurrences(ids + [x], k) == Occurrences(ids, k) + (if x == k then 1 else 0)
  {
    assert (ids + [x])[..|ids|] == ids;
  }

  /** Counting one more id adds one to the total of a chart over
      distinct keys exactly when the id is among the keys. */
  lemma {:induction false} TotalOfAppend(catalog: map<AnalysisId, Analisis>, keys: seq<AnalysisId>,
                                         ids: seq<AnalysisId>, x: AnalysisId)
    requires Distinct(keys)
    ensures TotalOf(ChartOf(catalog, keys, ids + [x])) ==
      TotalOf(ChartOf(catalog, keys, ids)) + (if x in keys then 1 else 0)
  {
    if keys != [] {
      var prev := keys[..|keys| - 1];
      var k := keys[|keys| - 1];
      assert keys == prev + [k];
      assert Distinct(prev) && k !in prev;
      TotalOfAppend(catalog, prev, ids, x);
      ChartOfSnoc(catalog, prev, k, ids + [x]);
      ChartOfSnoc(catalog, prev, k, ids);
      OccurrencesSnoc(ids, x, k);
    }
  }

  /** A bar added at the end adds its count to the total. */
  lemma ChartOfSnoc(catalog: map<AnalysisId, Analisis>, keys: seq<AnalysisId>, k: AnalysisId, ids: seq<AnalysisId>)
    ensures TotalOf(ChartOf(catalog, keys + [k], ids)) == TotalOf(ChartOf(catalog, keys, ids)) + Occurrences(ids, k)
  {
    var c := ChartOf(catalog, keys + [k], ids);
    assert (keys + [k])[..|keys|] == keys;
    assert c[..|c| - 1] == ChartOf(catalog, keys, ids);
  }

  /** One more id is a new key exactly when it was not seen before. */
  lemma FirstSeenSnoc(prev: seq<AnalysisId>, x: AnalysisId)
    ensures FirstSeen(prev + [x]) == if x in FirstSeen(prev) then FirstSeen(prev) else FirstSeen(prev) + [x]
  {
    assert (prev + [x])[..|prev|] == prev;
  }

  /** Counting one more sample adds one to the chart's total. */
  lemma ChartTotalStep(catalog: map<AnalysisId, Analisis>, prev: seq<AnalysisId>, x: AnalysisId)
    ensures TotalOf(Chart(catalog, prev + [x])) == TotalOf(Chart(catalog, prev)) + 1
  {
    var seen := FirstSeen(prev);
    FirstSeenSnoc(prev, x);
    TotalOfAppend(catalog, seen, prev, x);
    if x !in seen {
      ChartOfSnoc(catalog, seen, x, prev + [x]);
      OccurrencesSnoc(prev, x, x);
    }
  }

  /** Every sample is counted in exactly one bar: the totals add up to
      the number of samples. */
  lemma {:induction false} ChartTotal(catalog: map<AnalysisId, Analisis>, ids: seq<AnalysisId>)
    ensures TotalOf(Chart(catalog, ids)) == |ids|
  {
    if ids != [] {
      var prev := ids[..|ids| - 1];
      var x := ids[|ids| - 1];
      assert ids == prev + [x];
      ChartTotal(catalog, prev);
      ChartTotalStep(catalog, prev, x);
    }
  }

  /** One bar per distinct analysis id, each bar counting the samples of
      its id, labelled by the catalog. */
  lemma ChartBars(catalog: map<AnalysisId, Analisis>, ids: seq<AnalysisId>, j: nat)
    requires j < |Chart(catalog, ids)|
    ensures Chart(catalog, ids)[j].total > 0
    ensures exists k :: k in ids && Chart(catalog, ids)[j] == ChartEntry(AnalysisLabel(catalog, k), Occurrences(ids, k))
  {
    var k := FirstSeen(ids)[j];
    assert k in FirstSeen(ids);
  }

  /** The analysis id of every sample, in creation order. */
  function SampleAnalysisIds(db: Database): (r: seq<AnalysisId>)
    reads db
    requires db.Valid()
    ensures |r| == |db.samples.rows| == |db.samples.order|
    ensures forall i :: 0 <= i < |r| ==> r[i] == db.samples.rows[db.samples.order[i]].analisisId
  {
    var docs := db.samples.Docs();
    seq(|docs|, i requires 0 <= i < |docs| => docs[i].fields.analisisId)
  }

  /** The `reduce` of `getSamplesByAnalysis`: a record from analysis id
      to count, whose keys keep the order they were first assigned. */
  method CountByAnalysis(ids: seq<AnalysisId>) returns (keys: seq<AnalysisId>, counts: map<AnalysisId, nat>)
    ensures keys == FirstSeen(ids)
    ensures forall k :: k in counts <==> k in ids
    ensures forall k :: k in counts ==> counts[k] == Occurrences(ids, k)
  {
    keys, counts := [], map[];
    for i := 0 to |ids|
      invariant keys == FirstSeen(ids[..i])
      invariant forall k :: k in counts <==> k in ids[..i]
      invariant forall k :: k in counts ==> counts[k] == Occurrences(ids[..i], k)
    {
      assert ids[..i + 1][..i] == ids[..i];
      var a := ids[i];
      if a !in counts {
        keys := keys + [a];
      }
      counts := counts[a := (if a in counts then counts[a] else 0) + 1];
    }
    assert ids[..|ids|] == ids;
  }

  /** `getSamplesByAnalysis`. */
  method GetSamplesByAnalysis(db: Database) returns (chart: seq<ChartEntry>)
    requires db.Valid()
    ensures chart == Chart(db.analisis.rows, SampleAnalysisIds(db))
  {
    var ids := SampleAnalysisIds(db);
    var keys, counts := CountByAnalysis(ids);
    var catalog := db.analisis.rows;
    chart := seq(|keys|, j requires 0 <= j < |keys| =>
      ChartEntry(AnalysisLabel(catalog, keys[j]), if keys[j] in counts then counts[keys[j]] else 0));
  }

  // ---------------------------------------------------------------
  // Orders per weekday

  /** Milliseconds in a day. */
  const DayMs := 86400000

  /** `new Date(t).getDay()` for a time zone `utcOffsetMs` ahead of UTC:
      0 is Sunday; 1 January 1970 was a Thursday. */
  function Weekday(t: int, utcOffsetMs: int): (d: nat)
    ensures d < 7
  {
    ((t + utcOffsetMs) / DayMs + 4) % 7
  }

  /** Adding a whole day to a time moves its day number on by one. */
  lemma DayStep(a: int)
    ensures (a + DayMs) / DayMs == a / DayMs + 1
  {
    var q, r := a / DayMs, a % DayMs;
    assert a == q * DayMs + r && 0 <= r < DayMs;
    assert a + DayMs == (q + 1) * DayMs + r;
  }

  /** The epoch falls on a Thursday in UTC, and a day later is the next
      weekday. */
  lemma WeekdayLaws(t: int, utcOffsetMs: int)
    ensures Weekday(0, 0) == 4
    ensures Weekday(t + DayMs, utcOffsetMs) == (Weekday(t, utcOffsetMs) + 1) % 7
  {
    var q := (t + utcOffsetMs) / DayMs;
    DayStep(t + utcOffsetMs);
    assert t + DayMs + utcOffsetMs == (t + utcOffsetMs) + DayMs;
    assert (q + 1 + 4) % 7 == ((q + 4) % 7 + 1) % 7;
  }

  /** The short day names, Sunday first. */
  const DayNames: seq<string> := ["Dom", "Lun", "Mar", "Mié", "Jue", "Vie", "Sáb"]

  /** One bucket of the weekday chart. */
  datatype DayEntry = DayEntry(day: string, total: nat)

  /** How many of the times fall on weekday `d`. */
  function DayCount(times: seq<int>, d: nat, utcOffsetMs: int): (n: nat)
    ensures n <= |times|
  {
    if times == [] then 0
    else DayCount(times[..|times| - 1], d, utcOffsetMs)
         + (if Weekday(times[|times| - 1], utcOffsetMs) == d then 1 else 0)
  }

  /** `getOrdersByDayOfWeek` on the orders' creation times. */
  function DayHistogram(times: seq<int>, utcOffsetMs: int): (r: seq<DayEntry>)
    ensures |r| == 7
    ensures forall d :: 0 <= d < 7 ==> r[d].day == DayNames[d]
  {
    seq(7, d requires 0 <= d < 7 => DayEntry(DayNames[d], DayCount(times, d, utcOffsetMs)))
  }

  /** The counts of the weekdays below `n`. */
  function DaysBelow(times: seq<int>, n: nat, utcOffsetMs: int): nat
  {
    if n == 0 then 0 else DaysBelow(times, n - 1, utcOffsetMs) + DayCount(times, n - 1, utcOffsetMs)
  }

  /** One more time adds one to the weekdays below `n` exactly when it
      falls on one of them. */
  lemma {:induction false} DaysBelowAppend(times: seq<int>, t: int, n: nat, utcOffsetMs: int)
    ensures DaysBelow(times + [t], n, utcOffsetMs) ==
      DaysBelow(times, n, utcOffsetMs) + (if Weekday(t, utcOffsetMs) < n then 1 else 0)
  {
    assert (times + [t])[..|times|] == times;
    if n > 0 {
      DaysBelowAppend(times, t, n - 1, utcOffsetMs);
    }
  }

  /** No times, no counts. */
  lemma {:induction false} NoDays(n: nat, utcOffsetMs: int)
    ensures DaysBelow([], n, utcOffsetMs) == 0
  {
    if n > 0 {
      NoDays(n - 1, utcOffsetMs);
    }
  }

  /** Every order lands in exactly one of the seven buckets. */
  lemma {:induction false} DaysCoverAll(times: seq<int>, utcOffsetMs: int)
    ensures DaysBelow(times, 7, utcOffsetMs) == |times|
  {
    if times != [] {
      var prev := times[..|times| - 1];
      assert times == prev + [times[|times| - 1]];
      DaysCoverAll(prev, utcOffsetMs);
      DaysBelowAppend(prev, times[|times| - 1], 7, utcOffsetMs);
    } else {
      NoDays(7, utcOffsetMs);
    }
  }

  /** The sum of the buckets' totals. */
  function BucketTotal(r: seq<DayEntry>): nat
  {
    if r == [] then 0 else BucketTotal(r[..|r| - 1]) + r[|r| - 1].total
  }

  /** The seven buckets add up to the number of orders. */
  lemma HistogramTotal(times: seq<int>, utcOffsetMs: int)
    ensures BucketTotal(DayHistogram(times, utcOffsetMs)) == |times|
  {
    var h := DayHistogram(times, utcOffsetMs);
    forall n | 0 <= n <= 7 ensures BucketTotal(h[..n]) == DaysBelow(times, n, utcOffsetMs) {
      BucketPrefix(times, utcOffsetMs, n);
    }
    assert h[..7] == h;
    DaysCoverAll(times, utcOffsetMs);
  }

  /** The first `n` buckets hold the counts of the first `n` weekdays. */
  lemma {:induction false} BucketPrefix(times: seq<int>, utcOffsetMs: int, n: nat)
    requires n <= 7
    ensures BucketTotal(DayHistogram(times, utcOffsetMs)[..n]) == DaysBelow(times, n, utcOffsetMs)
  {
    if n > 0 {
      var h := DayHistogram(times, utcOffsetMs);
      assert h[..n][..n - 1] == h[..n - 1];
      BucketPrefix(times, utcOffsetMs, n - 1);
    }
  }

  /** The creation time of every order, in creation order. */
  function OrderTimes(db: Database): (r: seq<int>)
    reads db
    requires db.Valid()
    ensures |r| == |db.orders.rows| == |db.orders.order|
    ensures forall i :: 0 <= i < |r| ==> r[i] == db.orders.rows[db.orders.order[i]].creationTime
  {
    var docs := db.orders.Docs();
    seq(|docs|, i requires 0 <= i < |docs| => docs[i].fields.creationTime)
  }

  /** `getOrdersByDayOfWeek`: seven counters, Sunday first, each order
      adding one to the counter of its creation weekday. */
  method GetOrdersByDayOfWeek(db: Database, utcOffsetMs: int) returns (r: seq<DayEntry>)
    requires db.Valid()
    ensures r == DayHistogram(OrderTimes(db), utcOffsetMs)
  {
    var times := OrderTimes(db);
    var totals := new nat[7](_ => 0);
    for i := 0 to |times|
      invariant forall d :: 0 <= d < 7 ==> totals[d] == DayCount(times[..i], d, utcOffsetMs)
    {
      assert times[..i + 1][..i] == times[..i];
      var d := Weekday(times[i], utcOffsetMs);
      totals[d] := totals[d] + 1;
    }
    assert times[..|times|] == times;
    var counts := totals[..];
    r := seq(7, d requires 0 <= d < 7 => DayEntry(DayNames[d], counts[d]));
  }
}
