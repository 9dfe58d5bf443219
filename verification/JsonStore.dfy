/** The JSON file store (src/kitt/storage/json_store.py). */
module JsonStore {
  import opened Basics
  import opened Sorting
  import opened ResultModel

  /** A scanned record with its internal fields `_source_path` and `_id`. */
  datatype Record = Record(path: string, id: string, doc: Doc)

  /**
    What the store is given: the id it derives from a path, which files lie in a
    karr-* directory, and the order in which sorted globbing lists a set of paths.
  */
  datatype Layout = Layout(makeId: string -> string, inKarr: string -> bool, listing: set<string> -> seq<string>)

  /** Listing a set of paths yields each of them once. */
  ghost predicate Lists(l: Layout) {
    forall s :: Distinct(l.listing(s)) && (forall p :: p in l.listing(s) <==> p in s)
  }

  /** A file that cannot be read or parsed, or is empty, yields no record. */
  type Files = map<string, Option<Doc>>

  /** The readable files along a list of paths. */
  function Along(l: Layout, files: Files, paths: seq<string>): seq<Record> {
    if paths == [] then []
    else Along(l, files, paths[..|paths| - 1])
         + (var p := paths[|paths| - 1];
            if p in files && files[p].Some? then [Record(p, l.makeId(p), files[p].value)] else [])
  }

  function Paths(l: Layout, files: Files, karr: bool): set<string> {
    set p | p in files && l.inKarr(p) == karr
  }

  /** A fresh scan: kitt-results first, then the karr-* directories. */
  function FreshScan(l: Layout, files: Files): seq<Record> {
    Along(l, files, l.listing(Paths(l, files, false))) + Along(l, files, l.listing(Paths(l, files, true)))
  }

  function Docs(rs: seq<Record>): (docs: seq<Doc>)
    ensures |docs| == |rs| && forall i :: 0 <= i < |rs| ==> docs[i] == rs[i].doc
  {
    seq(|rs|, i requires 0 <= i < |rs| => rs[i].doc)
  }

  // ----- saving: the file name -----

  function Replace(s: string, from: char, to: char): string {
    if s == "" then "" else [if s[0] == from then to else s[0]] + Replace(s[1..], from, to)
  }

  function SavePath(d: Doc, uid: string): string {
    "kitt-results/" + Replace(d.model, '/', '_') + "/" + d.engine + "/"
    + Replace(Take(d.timestamp, 19), ':', '-') + "_" + uid + "/metrics.json"
  }

  // ----- slicing with Python's rules -----

  /** s[k:] for any integer k. */
  function SliceFrom<T>(s: seq<T>, k: int): seq<T> {
    if k >= 0 then Drop(s, k) else if -k <= |s| then s[|s| + k..] else s
  }

  /** s[:k] for any integer k. */
  function SliceTo<T>(s: seq<T>, k: int): seq<T> {
    if k >= 0 then Take(s, k) else if -k <= |s| then s[..|s| + k] else []
  }

  /** query on a list of records; in a field's order if one is wanted. */
  function QueryDocs(docs: seq<Doc>, filters: seq<Filter>, order: Option<Order>, limit: Option<int>,
                     offset: int): seq<Doc> {
    var rest := SliceFrom(Arrange(Select(docs, filters), order), offset);
    if limit.Some? then SliceTo(rest, limit.value) else rest
  }

  // ----- aggregation -----

  /** A group while its records are being read. */
  datatype Group = Group(count: nat, values: map<string, seq<real>>)

  datatype GroupRow = GroupRow(count: nat, averages: map<string, Option<real>>)

  function Times<T>(x: T, n: nat): seq<T> {
    seq(n, _ => x)
  }

  function Occurrences(names: seq<string>, m: string): nat {
    if names == [] then 0 else Occurrences(names[..|names| - 1], m) + (if names[|names| - 1] == m then 1 else 0)
  }

  /** What one benchmark adds for a metric mentioned k times. */
  function BenchAdds(bench: Bench, m: string, k: nat): seq<real> {
    match Sample(bench.metrics, m)
    case Some(v) => Times(v, k)
    case None => []
  }

  /** What the loops collect for a metric: each sample once for every mention of the metric. */
  function BenchValues(benches: seq<Bench>, m: string, k: nat): seq<real> {
    if benches == [] then []
    else BenchValues(benches[..|benches| - 1], m, k) + BenchAdds(benches[|benches| - 1], m, k)
  }

  function GroupValues(docs: seq<Doc>, col: GroupColumn, g: string, m: string, k: nat): seq<real> {
    if docs == [] then []
    else GroupValues(docs[..|docs| - 1], col, g, m, k)
         + (if GroupOf(docs[|docs| - 1], col) == g then BenchValues(docs[|docs| - 1].results, m, k) else [])
  }

  function GroupsSeen(docs: seq<Doc>, col: GroupColumn): set<string> {
    set d | d in docs :: GroupOf(d, col)
  }

  /** The group after reading the records. */
  function Collected(docs: seq<Doc>, col: GroupColumn, g: string, names: seq<string>): Group {
    Group(GroupSize(docs, col, g), map m | m in names :: GroupValues(docs, col, g, m, Occurrences(names, m)))
  }

  /** A group after reading some of the metric names off a benchmark. */
  function ReadNames(group: Group, bench: Bench, names: seq<string>, read: seq<string>): (after: Group)
    requires group.values.Keys == Names(names)
    ensures after.values.Keys == Names(names) && after.count == group.count
  {
    group.(values := map m | m in names :: group.values[m] + BenchAdds(bench, m, Occurrences(read, m)))
  }

  /** A group after one more of its records. */
  function ReadInto(group: Group, doc: Doc, names: seq<string>): Group
    requires group.values.Keys == Names(names)
  {
    Group(group.count + 1, map m | m in names :: group.values[m] + BenchValues(doc.results, m, Occurrences(names, m)))
  }

  /** The groups collected from the first n records. */
  ghost predicate GroupsUpTo(groups: map<string, Group>, docs: seq<Doc>, n: nat, col: GroupColumn, names: seq<string>)
    requires n <= |docs|
  {
    && groups.Keys == GroupsSeen(docs[..n], col)
    && forall g :: g in groups ==> groups[g] == Collected(docs[..n], col, g, names)
  }

  function Names(names: seq<string>): set<string> {
    set m | m in names
  }

  /** A finished group's row: the average of each metric, None without samples. */
  function RowOf(group: Group, names: seq<string>): GroupRow
    requires group.values.Keys == Names(names)
  {
    GroupRow(group.count, map m | m in names :: AverageOf(group.values[m]))
  }

  function AggregateDocs(docs: seq<Doc>, col: GroupColumn, names: seq<string>): map<string, GroupRow> {
    map g | g in GroupsSeen(docs, col) :: RowOf(Collected(docs, col, g, names), names)
  }

  // ----- the store -----

  class JsonStore {
    const layout: Layout
    var files: Files
    var cache: Option<seq<Record>>

    /** The cache is empty or equal to a fresh scan. */
    ghost predicate Valid()
      reads this
    {
      Lists(layout) && (cache.Some? ==> cache.value == FreshScan(layout, files))
    }

    /** What the uncached store would see. */
    function Scan(): seq<Record>
      reads this
    {
      FreshScan(layout, files)
    }

    constructor (layout: Layout, files: Files)
      requires Lists(layout)
      ensures Valid() && this.layout == layout && this.files == files
    {
      this.layout, this.files, this.cache := layout, files, None;
    }

    method ReadAlong(paths: seq<string>) returns (rs: seq<Record>)
      ensures rs == Along(layout, files, paths)
    {
      rs := [];
      for i := 0 to |paths|
        invariant rs == Along(layout, files, paths[..i])
      {
        assert paths[..i + 1][..i] == paths[..i];
        var p := paths[i];
        if p in files && files[p].Some? {
          rs := rs + [Record(p, layout.makeId(p), files[p].value)];
        }
      }
      assert paths[..|paths|] == paths;
    }

    method ScanResults() returns (rs: seq<Record>)
      requires Valid()
      modifies `cache
      ensures Valid() && rs == Scan()
    {
      if cache.Some? {
        return cache.value;
      }
      rs := ReadAlong(layout.listing(Paths(layout, files, false)));
      var karr := ReadAlong(layout.listing(Paths(layout, files, true)));
      rs := rs + karr;
      cache := Some(rs);
    }

    method SaveResult(doc: Doc, uid: string) returns (id: string)
      requires Valid()
      modifies this
      ensures Valid()
      ensures files == old(files)[SavePath(doc, uid) := Some(doc)]
      ensures id == layout.makeId(SavePath(doc, uid))
    {
      var path := SavePath(doc, uid);
      files := files[path := Some(doc)];
      cache := None;
      id := layout.makeId(path);
    }

    method GetResult(id: string) returns (r: Option<Doc>)
      requires Valid()
      modifies `cache
      ensures Valid()
      ensures r == Lookup(Scan(), id)
    {
      var rs := ScanResults();
      for i := 0 to |rs|
        invariant forall j :: 0 <= j < i ==> rs[j].id != id
      {
        if rs[i].id == id {
          FoundAt(rs, id, i);
          return Some(rs[i].doc);
        }
      }
      NotFound(rs, id);
      return None;
    }

    /** Sorts by any field with comparable values; an absent field leaves the order alone. */
    method Query(filters: seq<Filter>, orderBy: string, limit: Option<int>, offset: int) returns (docs: seq<Doc>)
      requires Valid() && (orderBy == "" || ParseField(orderBy).Some?)
      modifies `cache
      ensures Valid()
      ensures docs == QueryDocs(Docs(Scan()), filters, ParseField(orderBy), limit, offset)
    {
      var rs := ScanResults();
      var results := Docs(rs);
      if filters != [] {
        results := Select(results, filters);
      } else {
        SelectAll(results);
      }
      if orderBy != "" {
        results := Sort(Less(ParseField(orderBy).value), results);
      }
      results := SliceFrom(results, offset);
      if limit.Some? {
        results := SliceTo(results, limit.value);
      }
      return results;
    }

    method Count(filters: seq<Filter>) returns (n: nat)
      requires Valid()
      modifies `cache
      ensures Valid()
      ensures n == |Select(Docs(Scan()), filters)|
    {
      var rs := ScanResults();
      var results := Docs(rs);
      if filters != [] {
        results := Select(results, filters);
      } else {
        SelectAll(results);
      }
      return |results|;
    }

    /** Deletes the first record with this id; without outside writers its file exists. */
    method DeleteResult(id: string) returns (found: bool)
      requires Valid()
      modifies this
      ensures Valid()
      ensures found <==> FirstWith(old(Scan()), id).Some?
      ensures found ==> FirstWith(old(Scan()), id).value.path in old(files)
      ensures files == if found then old(files) - {FirstWith(old(Scan()), id).value.path} else old(files)
    {
      var rs := ScanResults();
      for i := 0 to |rs|
        invariant Valid() && files == old(files)
        invariant forall j :: 0 <= j < i ==> rs[j].id != id
      {
        if rs[i].id == id {
          FoundAt(rs, id, i);
          var path := rs[i].path;
          ScannedPathExists(layout, files, rs[i]);
          assert rs[i] in old(Scan());
          if path in files {
            files := files - {path};
            cache := None;
            return true;
          }
        }
      }
      NotFound(rs, id);
      return false;
    }

    /** Adds one benchmark's samples to the group being collected. */
    method ReadBench(bench: Bench, names: seq<string>, group: Group) returns (after: Group)
      requires group.values.Keys == Names(names)
      ensures after == ReadNames(group, bench, names, names)
    {
      hide ReadNames, Sample;
      after := group;
      NoNamesRead(group, bench, names);
      for i := 0 to |names|
        invariant after == ReadNames(group, bench, names, names[..i])
      {
        var m := names[i];
        ReadNamesNext(group, bench, names, i);
        var val := Sample(bench.metrics, m);
        if val.Some? {
          after := after.(values := after.values[m := after.values[m] + [val.value]]);
        }
      }
      assert names[..|names|] == names;
    }

    /** Adds one record to its group. */
    method ReadDoc(doc: Doc, names: seq<string>, group: Group) returns (after: Group)
      requires group.values.Keys == Names(names)
      ensures after == ReadInto(group, doc, names)
    {
      hide BenchAdds, Occurrences;
      after := group.(count := group.count + 1);
      for i := 0 to |doc.results|
        invariant after.count == group.count + 1 && after.values.Keys == Names(names)
        invariant forall m :: m in names ==>
                    after.values[m] == group.values[m] + BenchValues(doc.results[..i], m, Occurrences(names, m))
      {
        assert doc.results[..i + 1][..i] == doc.results[..i];
        after := ReadBench(doc.results[i], names, after);
      }
      assert doc.results[..|doc.results|] == doc.results;
    }

    /** Groups by any field that is a text, a flag or absent. */
    method Aggregate(groupBy: string, names: seq<string>) returns (rows: map<string, GroupRow>)
      requires Valid() && GroupField(groupBy).Some?
      modifies `cache
      ensures Valid()
      ensures rows == AggregateDocs(Docs(Scan()), GroupField(groupBy).value, names)
    {
      hide Collected, ReadInto, GroupsUpTo, FreshScan;
      var rs := ScanResults();
      var docs, col := Docs(rs), GroupField(groupBy).value;
      var groups: map<string, Group> := map[];
      NoGroups(docs, col, names);
      for i := 0 to |docs|
        invariant Valid() && docs == Docs(Scan())
        invariant GroupsUpTo(groups, docs, i, col, names)
      {
        var key := GroupOf(docs[i], col);
        GroupsNext(groups, docs, i, col, names);
        ghost var before := groups;
        if key !in groups {
          groups := groups[key := Group(0, map m | m in names :: [])];
        }
        var group := ReadDoc(docs[i], names, groups[key]);
        groups := groups[key := group];
        assert groups == before[key := group];
      }
      RowsFrom(groups, docs, col, names);
      rows := map g | g in groups :: RowOf(groups[g], names);
    }
  }

  lemma NoNamesRead(group: Group, bench: Bench, names: seq<string>)
    requires group.values.Keys == Names(names)
    ensures ReadNames(group, bench, names, []) == group
  {
    hide Sample;
    forall m | m in names
      ensures group.values[m] + BenchAdds(bench, m, Occurrences([], m)) == group.values[m]
    {
      assert BenchAdds(bench, m, 0) == [];
    }
    assert forall m :: m in group.values <==> m in names;
  }

  lemma ReadNamesNext(group: Group, bench: Bench, names: seq<string>, i: nat)
    requires group.values.Keys == Names(names) && i < |names|
    ensures var before, m := ReadNames(group, bench, names, names[..i]), names[i];
      m in before.values
      && ReadNames(group, bench, names, names[..i + 1])
         == match Sample(bench.metrics, m)
            case Some(v) => before.(values := before.values[m := before.values[m] + [v]])
            case None => before
  {
    InNames(names, names[i]);
    hide ReadNames, Sample, Names;
    var before, after := ReadNames(group, bench, names, names[..i]), ReadNames(group, bench, names, names[..i + 1]);
    NameAdded(group, bench, names, i);
    forall m | m in after.values && m != names[i]
      ensures after.values[m] == before.values[m]
    {
      OtherName(group, bench, names, i, m);
    }
    SameButOne(after.values, before.values, names[i]);
  }

  lemma InNames(names: seq<string>, m: string)
    requires m in names
    ensures m in Names(names)
  {
  }

  lemma SameMap<K, V>(a: map<K, V>, b: map<K, V>)
    requires a.Keys == b.Keys && forall k :: k in a ==> a[k] == b[k]
    ensures a == b
  {
  }

  lemma SameButOne<K, V>(a: map<K, V>, b: map<K, V>, key: K)
    requires a.Keys == b.Keys && key in a && forall k :: k in a && k != key ==> a[k] == b[k]
    ensures a == b[key := a[key]] && (a[key] == b[key] ==> a == b)
  {
  }

  lemma NameAdded(group: Group, bench: Bench, names: seq<string>, i: nat)
    requires group.values.Keys == Names(names) && i < |names| && names[i] in Names(names)
    ensures var before := ReadNames(group, bench, names, names[..i]);
      var after := ReadNames(group, bench, names, names[..i + 1]);
      after.values[names[i]] == match Sample(bench.metrics, names[i])
        case Some(v) => before.values[names[i]] + [v]
        case None => before.values[names[i]]
  {
    hide BenchAdds, Occurrences, Sample;
    AddsNext(bench, names[i], names, i);
  }

  lemma OtherName(group: Group, bench: Bench, names: seq<string>, i: nat, m: string)
    requires group.values.Keys == Names(names) && i < |names| && m in Names(names) && m != names[i]
    ensures ReadNames(group, bench, names, names[..i + 1]).values[m]
            == ReadNames(group, bench, names, names[..i]).values[m]
  {
    hide BenchAdds, Occurrences, Sample;
    AddsNext(bench, m, names, i);
  }

  /** Reading the i-th name adds its sample, and nothing for other metrics. */
  lemma AddsNext(bench: Bench, m: string, names: seq<string>, i: nat)
    requires i < |names|
    ensures var sample, before := Sample(bench.metrics, m), BenchAdds(bench, m, Occurrences(names[..i], m));
      BenchAdds(bench, m, Occurrences(names[..i + 1], m))
      == if m == names[i] && sample.Some? then before + [sample.value] else before
  {
    hide Sample;
    assert names[..i + 1][..i] == names[..i];
    var k := Occurrences(names[..i], m);
    if m == names[i] && Sample(bench.metrics, m).Some? {
      var v := Sample(bench.metrics, m).value;
      assert Times(v, k + 1) == Times(v, k) + [v];
    }
  }

  lemma NoGroups(docs: seq<Doc>, col: GroupColumn, names: seq<string>)
    ensures GroupsUpTo(map[], docs, 0, col, names)
  {
  }

  lemma {:induction false} UnseenIsEmpty(docs: seq<Doc>, col: GroupColumn, g: string, m: string, k: nat)
    requires forall d :: d in docs ==> GroupOf(d, col) != g
    ensures GroupSize(docs, col, g) == 0 && GroupValues(docs, col, g, m, k) == []
  {
    hide GroupOf;
    if docs != [] {
      assert forall d :: d in docs[..|docs| - 1] ==> d in docs;
      UnseenIsEmpty(docs[..|docs| - 1], col, g, m, k);
    }
  }

  /** A group that has not been seen is still empty. */
  lemma {:induction false} NewGroup(docs: seq<Doc>, col: GroupColumn, g: string, names: seq<string>)
    requires g !in GroupsSeen(docs, col)
    ensures Collected(docs, col, g, names) == Group(0, map m | m in names :: [])
  {
    hide GroupOf, GroupSize, GroupValues, Occurrences;
    UnseenIsEmpty(docs, col, g, "", 0);
    forall m {
      UnseenIsEmpty(docs, col, g, m, Occurrences(names, m));
    }
  }

  lemma CollectedKeys(docs: seq<Doc>, col: GroupColumn, g: string, names: seq<string>)
    ensures Collected(docs, col, g, names).values.Keys == Names(names)
  {
    hide GroupSize, GroupValues, Occurrences;
  }

  lemma SeenNext(docs: seq<Doc>, i: nat, col: GroupColumn)
    requires i < |docs|
    ensures GroupsSeen(docs[..i + 1], col) == GroupsSeen(docs[..i], col) + {GroupOf(docs[i], col)}
  {
    hide GroupOf;
    assert docs[..i + 1] == docs[..i] + [docs[i]];
  }

  /** Reading one more record changes its own group only. */
  lemma CollectedNext(docs: seq<Doc>, i: nat, col: GroupColumn, names: seq<string>, g: string)
    requires i < |docs|
    ensures Collected(docs[..i + 1], col, g, names)
            == if g == GroupOf(docs[i], col) then ReadInto(Collected(docs[..i], col, g, names), docs[i], names)
               else Collected(docs[..i], col, g, names)
  {
    hide GroupValues, GroupSize, BenchValues, Occurrences, GroupOf, Names;
    CollectedKeys(docs[..i], col, g, names);
    CollectedKeys(docs[..i + 1], col, g, names);
    var before, after := Collected(docs[..i], col, g, names), Collected(docs[..i + 1], col, g, names);
    SizeNext(docs, i, col, g);
    forall m | m in after.values
      ensures m in before.values && m in names
      ensures after.values[m]
              == if g != GroupOf(docs[i], col) then before.values[m]
                 else before.values[m] + BenchValues(docs[i].results, m, Occurrences(names, m))
    {
      ValuesNext(docs, i, col, g, m, Occurrences(names, m));
    }
    var want := if g == GroupOf(docs[i], col) then ReadInto(before, docs[i], names) else before;
    SameMap(after.values, want.values);
  }

  lemma ValuesNext(docs: seq<Doc>, i: nat, col: GroupColumn, g: string, m: string, k: nat)
    requires i < |docs|
    ensures GroupValues(docs[..i + 1], col, g, m, k)
            == if g != GroupOf(docs[i], col) then GroupValues(docs[..i], col, g, m, k)
               else GroupValues(docs[..i], col, g, m, k) + BenchValues(docs[i].results, m, k)
  {
    hide BenchValues;
    assert docs[..i + 1][..i] == docs[..i];
    assert GroupValues(docs[..i], col, g, m, k) + [] == GroupValues(docs[..i], col, g, m, k);
  }

  lemma SizeNext(docs: seq<Doc>, i: nat, col: GroupColumn, g: string)
    requires i < |docs|
    ensures GroupSize(docs[..i + 1], col, g)
            == GroupSize(docs[..i], col, g) + (if g == GroupOf(docs[i], col) then 1 else 0)
  {
    assert docs[..i + 1][..i] == docs[..i];
  }

  lemma GroupsNext(groups: map<string, Group>, docs: seq<Doc>, i: nat, col: GroupColumn, names: seq<string>)
    requires i < |docs| && GroupsUpTo(groups, docs, i, col, names)
    ensures var key := GroupOf(docs[i], col);
      var before := if key in groups then groups[key] else Group(0, map m | m in names :: []);
      && before.values.Keys == Names(names)
      && GroupsUpTo(groups[key := ReadInto(before, docs[i], names)], docs, i + 1, col, names)
  {
    hide ReadInto, Collected, GroupOf, GroupsSeen;
    var key := GroupOf(docs[i], col);
    if key !in groups {
      NewGroup(docs[..i], col, key, names);
    }
    CollectedKeys(docs[..i], col, key, names);
    SeenNext(docs, i, col);
    forall g {
      CollectedNext(docs, i, col, names, g);
    }
  }

  lemma RowsFrom(groups: map<string, Group>, docs: seq<Doc>, col: GroupColumn, names: seq<string>)
    requires GroupsUpTo(groups, docs, |docs|, col, names)
    ensures forall g :: g in groups ==> groups[g].values.Keys == Names(names)
    ensures (map g | g in groups :: RowOf(groups[g], names)) == AggregateDocs(docs, col, names)
  {
    hide Collected, RowOf, GroupsSeen;
    assert docs[..|docs|] == docs;
    forall g | g in groups
      ensures groups[g].values.Keys == Names(names)
    {
      CollectedKeys(docs, col, g, names);
    }
  }

  function FirstWith(rs: seq<Record>, id: string): (r: Option<Record>)
    ensures r.Some? ==> r.value in rs && r.value.id == id
    ensures r.None? ==> forall x :: x in rs ==> x.id != id
  {
    if rs == [] then None else if rs[0].id == id then Some(rs[0]) else FirstWith(rs[1..], id)
  }

  function Lookup(rs: seq<Record>, id: string): Option<Doc> {
    match FirstWith(rs, id)
    case Some(r) => Some(r.doc)
    case None => None
  }

  lemma {:induction false} FoundAt(rs: seq<Record>, id: string, i: nat)
    requires i < |rs| && rs[i].id == id && forall j :: 0 <= j < i ==> rs[j].id != id
    ensures FirstWith(rs, id) == Some(rs[i])
  {
    if i > 0 {
      FoundAt(rs[1..], id, i - 1);
    }
  }

  lemma NotFound(rs: seq<Record>, id: string)
    requires forall j :: 0 <= j < |rs| ==> rs[j].id != id
    ensures FirstWith(rs, id) == None
  {
  }

  lemma {:induction false} SelectAll(docs: seq<Doc>)
    ensures Select(docs, []) == docs
  {
    if docs != [] {
      SelectAll(docs[1..]);
    }
  }

  lemma {:induction false} AlongMember(l: Layout, files: Files, paths: seq<string>, r: Record)
    ensures r in Along(l, files, paths) <==>
            r.path in paths && r.path in files && files[r.path] == Some(r.doc) && r.id == l.makeId(r.path)
  {
    if paths != [] {
      var front, last := paths[..|paths| - 1], paths[|paths| - 1];
      assert paths == front + [last];
      AlongMember(l, files, front, r);
    }
  }

  lemma ScannedPathExists(l: Layout, files: Files, r: Record)
    requires r in FreshScan(l, files)
    ensures r.path in files && files[r.path] == Some(r.doc)
  {
    AlongMember(l, files, l.listing(Paths(l, files, false)), r);
    AlongMember(l, files, l.listing(Paths(l, files, true)), r);
  }
}
