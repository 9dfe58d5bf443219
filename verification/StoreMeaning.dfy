/**
  What the two stores hold: the records that a scan of the files gives, where a record
  is saved, and the rows of the tables (src/kitt/storage).
*/
module StoreMeaning {
  import opened Basics
  import opened ResultModel
  import opened SqliteTables
  import opened SqliteStore
  import opened JsonStore
  import opened Picking

  // ----- scanning files -----

  /** The record of a path, if its file can be read. */
  function Readable(l: Layout, files: Files): string -> Option<Record> {
    (p: string) =>
      if p !in files then None
      else match files[p]
        case Some(doc) => Some(Record(p, l.makeId(p), doc))
        case None => None
  }

  lemma {:induction false} AlongPicked(l: Layout, files: Files, paths: seq<string>)
    ensures Picked(paths, Readable(l, files), Along(l, files, paths))
  {
    hide Picked;
    if paths == [] {
      PickedNone(Readable(l, files));
    } else {
      var front, last := paths[..|paths| - 1], paths[|paths| - 1];
      AlongPicked(l, files, front);
      PickedSnoc(front, Readable(l, files), Along(l, files, front), last);
      assert paths == front + [last];
    }
  }

  /**
    A scan reads every readable file once: first those outside the karr directories, in
    the order of their listing, then those inside, in the order of theirs.
  */
  lemma ScanExactly(l: Layout, files: Files) returns (paths: seq<string>)
    requires Lists(l)
    ensures Picked(paths, Readable(l, files), FreshScan(l, files))
    ensures Distinct(paths) && forall p :: p in paths <==> p in files
    ensures forall i, j :: 0 <= i < j < |paths| ==> !(l.inKarr(paths[i]) && !l.inKarr(paths[j]))
  {
    hide Picked, Along, Readable;
    var a, b := l.listing(Paths(l, files, false)), l.listing(Paths(l, files, true));
    paths := a + b;
    AlongPicked(l, files, a);
    AlongPicked(l, files, b);
    PickedConcat(a, b, Readable(l, files), Along(l, files, a), Along(l, files, b));
    DistinctConcat(a, b);
    forall i, j | 0 <= i < j < |paths|
      ensures !(l.inKarr(paths[i]) && !l.inKarr(paths[j]))
    {
      assert i < |a| ==> paths[i] in a;
      assert j >= |a| ==> paths[j] in b;
    }
  }

  // ----- where a record is saved -----

  /** t is s with every `from` turned into `to`. */
  ghost predicate Replaces(s: string, from: char, to: char, t: string) {
    |t| == |s| && forall i :: 0 <= i < |s| ==> t[i] == if s[i] == from then to else s[i]
  }

  lemma {:induction false} ReplaceExactly(s: string, from: char, to: char)
    ensures Replaces(s, from, to, Replace(s, from, to))
  {
    if s != "" {
      ReplaceExactly(s[1..], from, to);
    }
  }

  /** The directory of a saved record, without its unique end. */
  ghost predicate IsPlaceOf(d: Doc, place: string) {
    exists model, moment ::
      && Replaces(d.model, '/', '_', model)
      && Replaces(if 19 <= |d.timestamp| then d.timestamp[..19] else d.timestamp, ':', '-', moment)
      && place == "kitt-results/" + model + "/" + d.engine + "/" + moment + "_"
  }

  /** A record is saved under its model, engine and moment; different uids give different files. */
  lemma SavePathExactly(d: Doc, uid: string, other: string) returns (place: string)
    ensures IsPlaceOf(d, place) && SavePath(d, uid) == place + uid + "/metrics.json"
    ensures uid != other ==> SavePath(d, uid) != SavePath(d, other)
  {
    hide Replace, Replaces;
    ReplaceExactly(d.model, '/', '_');
    ReplaceExactly(Take(d.timestamp, 19), ':', '-');
    var model, moment := Replace(d.model, '/', '_'), Replace(Take(d.timestamp, 19), ':', '-');
    place := "kitt-results/" + model + "/" + d.engine + "/" + moment + "_";
    assert IsPlaceOf(d, place);
    PathOf(d, uid, place);
    PathOf(d, other, place);
    SameMiddle(place, uid, other, "/metrics.json");
  }

  lemma PathOf(d: Doc, uid: string, place: string)
    requires place == "kitt-results/" + Replace(d.model, '/', '_') + "/" + d.engine + "/"
                      + Replace(Take(d.timestamp, 19), ':', '-') + "_"
    ensures SavePath(d, uid) == place + uid + "/metrics.json"
  {
    hide Replace;
  }

  lemma SameMiddle(a: string, b: string, c: string, d: string)
    ensures a + b + d == a + c + d ==> b == c
  {
    if a + b + d == a + c + d {
      assert |b| == |c|;
      assert (a + b + d)[|a|..|a| + |b|] == b && (a + c + d)[|a|..|a| + |b|] == c;
    }
  }

  // ----- the tables -----

  ghost predicate IsRunRow(e: Entry, r: RunRow) {
    && r.id == e.runId && r.model == e.doc.model && r.engine == e.doc.engine && r.suiteName == e.doc.suiteName
    && r.timestamp == e.doc.timestamp && r.passed == (if e.doc.passed then 1 else 0)
    && r.totalTimeSeconds == e.doc.totalTimeSeconds && r.kittVersion == e.doc.kittVersion && r.rawJson == e.doc
  }

  ghost predicate IsBenchRow(e: Entry, j: int, r: BenchRow) {
    && 0 <= j < |e.doc.results| && r.id == e.first + j && r.runId == e.runId
    && r.testName == e.doc.results[j].testName && r.passed == (if e.doc.results[j].passed then 1 else 0)
  }

  ghost predicate IsMetricRow(e: Entry, j: int, k: int, r: MetricRow) {
    && 0 <= j < |e.doc.results| && 0 <= k < |e.doc.results[j].metrics| && r.benchmarkId == e.first + j
    && e.doc.results[j].metrics[k] == (r.metricName, Number(r.metricValue))
  }

  lemma RunsExactly(es: seq<Entry>)
    ensures |RunsOf(es)| == |es| && forall i :: 0 <= i < |es| ==> IsRunRow(es[i], RunsOf(es)[i])
  {
  }

  /** The row of some benchmark. */
  ghost predicate IsBenchOf(e: Entry, r: BenchRow) {
    exists j :: IsBenchRow(e, j, r)
  }

  /** One row for each benchmark of each stored record. */
  lemma {:induction false} BenchesExactly(es: seq<Entry>, r: BenchRow)
    ensures r in BenchesOf(es) <==> exists i :: 0 <= i < |es| && IsBenchOf(es[i], r)
  {
    if es != [] {
      hide IsBenchOf, EntryBenches, MetricsOf;
      var front, last := es[..|es| - 1], es[|es| - 1];
      BenchesExactly(front, r);
      EntryBenchesExactly(last, r);
      assert BenchesOf(es) == BenchesOf(front) + EntryBenches(last, |last.doc.results|);
      if i :| 0 <= i < |front| && IsBenchOf(front[i], r) {
        assert IsBenchOf(es[i], r);
      }
      if i :| 0 <= i < |es| && IsBenchOf(es[i], r) {
        assert i == |front| || IsBenchOf(front[i], r);
      }
    }
  }

  lemma EntryBenchesExactly(e: Entry, r: BenchRow)
    ensures r in EntryBenches(e, |e.doc.results|) <==> IsBenchOf(e, r)
  {
    var rows := EntryBenches(e, |e.doc.results|);
    assert forall j :: 0 <= j < |rows| ==> IsBenchRow(e, j, rows[j]);
    if j :| IsBenchRow(e, j, r) {
      assert rows[j] == r;
    }
  }

  /** The row of one benchmark's numeric metric. */
  ghost predicate IsMetricIn(e: Entry, j: int, r: MetricRow) {
    exists k :: IsMetricRow(e, j, k, r)
  }

  ghost predicate IsMetricOf(e: Entry, r: MetricRow) {
    exists j :: IsMetricIn(e, j, r)
  }

  /** One row for each numeric metric of each benchmark. */
  lemma {:induction false} MetricsExactly(es: seq<Entry>, r: MetricRow)
    ensures r in MetricsOf(es) <==> exists i :: 0 <= i < |es| && IsMetricOf(es[i], r)
  {
    if es != [] {
      hide IsMetricOf, EntryMetrics, BenchesOf;
      var front, last := es[..|es| - 1], es[|es| - 1];
      MetricsExactly(front, r);
      AllMetrics(last, r);
      assert MetricsOf(es) == MetricsOf(front) + EntryMetrics(last, |last.doc.results|);
      if i :| 0 <= i < |front| && IsMetricOf(front[i], r) {
        assert IsMetricOf(es[i], r);
      }
      if i :| 0 <= i < |es| && IsMetricOf(es[i], r) {
        assert i == |front| || IsMetricOf(front[i], r);
      }
    }
  }

  lemma AllMetrics(e: Entry, r: MetricRow)
    ensures r in EntryMetrics(e, |e.doc.results|) <==> IsMetricOf(e, r)
  {
    hide EntryMetrics;
    EntryMetricsExactly(e, |e.doc.results|, r);
    if j :| IsMetricIn(e, j, r) {
      var k :| IsMetricRow(e, j, k, r);
    }
  }

  lemma {:induction false} EntryMetricsExactly(e: Entry, n: nat, r: MetricRow)
    requires n <= |e.doc.results|
    ensures r in EntryMetrics(e, n) <==> exists j :: 0 <= j < n && IsMetricIn(e, j, r)
  {
    if n > 0 {
      hide BenchMetrics, IsMetricIn;
      EntryMetricsExactly(e, n - 1, r);
      OneBench(e, n - 1, r);
    }
  }

  lemma OneBench(e: Entry, j: nat, r: MetricRow)
    requires j < |e.doc.results|
    ensures var ms := e.doc.results[j].metrics; r in BenchMetrics(e.first + j, ms, |ms|) <==> IsMetricIn(e, j, r)
  {
    hide BenchMetrics;
    BenchMetricsExactly(e, j, |e.doc.results[j].metrics|, r);
  }

  lemma {:induction false} BenchMetricsExactly(e: Entry, j: nat, n: nat, r: MetricRow)
    requires j < |e.doc.results| && n <= |e.doc.results[j].metrics|
    ensures r in BenchMetrics(e.first + j, e.doc.results[j].metrics, n)
            <==> exists k :: k < n && IsMetricRow(e, j, k, r)
  {
    if n > 0 {
      hide IsMetricRow;
      BenchMetricsExactly(e, j, n - 1, r);
      RowOfMetric(e, j, n - 1, r);
    }
  }

  lemma RowOfMetric(e: Entry, j: nat, k: nat, r: MetricRow)
    requires j < |e.doc.results| && k < |e.doc.results[j].metrics|
    ensures var metric := e.doc.results[j].metrics[k];
      IsMetricRow(e, j, k, r) <==> metric.1.Number? && r == MetricRow(e.first + j, metric.0, metric.1.value)
  {
  }

  function Described(): Entry -> Option<HardwareRow> {
    (e: Entry) =>
      match e.doc.systemInfo
      case Some(info) => Some(HardwareRow(e.runId, info))
      case None => None
  }

  /** One row for each stored record that describes its system. */
  lemma {:induction false} HardwareExactly(es: seq<Entry>)
    ensures Picked(es, Described(), HardwareOf(es))
  {
    hide Picked;
    if es == [] {
      PickedNone(Described());
    } else {
      var front, last := es[..|es| - 1], es[|es| - 1];
      HardwareExactly(front);
      PickedSnoc(front, Described(), HardwareOf(front), last);
      assert es == front + [last];
    }
  }

  function OfOthers(id: string): Entry -> Option<Entry> {
    (e: Entry) => if e.runId == id then None else Some(e)
  }

  /** A delete keeps the other records, in order. */
  lemma {:induction false} WithoutRunExactly(es: seq<Entry>, id: string)
    ensures Picked(es, OfOthers(id), WithoutRun(es, id))
  {
    hide Picked;
    if es == [] {
      PickedNone(OfOthers(id));
    } else {
      var front, last := es[..|es| - 1], es[|es| - 1];
      WithoutRunExactly(front, id);
      PickedSnoc(front, OfOthers(id), WithoutRun(front, id), last);
      assert es == front + [last];
    }
  }
}
