/**
 Compaction: the oldest tables are merged, the newest record of each key wins and
 deletes are dropped.
 */
module Compaction {
  import opened Bytes
  import opened Storage
  import opened SkipList
  import SSTable

  /** A record and the number of the file it comes from; higher numbers are newer. */
  datatype Versioned = Versioned(entry: MemEntry, file: nat)

  /** By key, and for one key the newest file first. */
  predicate Ahead(a: Versioned, b: Versioned) {
    Less(a.entry.key, b.entry.key) || (a.entry.key == b.entry.key && a.file > b.file)
  }

  // ---- the stable sort ----

  /** `v` behind everything that it is not ahead of. */
  function Insert(s: seq<Versioned>, v: Versioned): seq<Versioned> {
    if s == [] then [v]
    else if Ahead(v, s[|s| - 1]) then Insert(s[..|s| - 1], v) + [s[|s| - 1]]
    else s + [v]
  }

  function Sort(s: seq<Versioned>): seq<Versioned> {
    if s == [] then [] else Insert(Sort(s[..|s| - 1]), s[|s| - 1])
  }

  ghost predicate InOrder(s: seq<Versioned>) {
    forall i, j :: 0 <= i < j < |s| ==> !Ahead(s[j], s[i])
  }

  /** What is not ahead of one record is not ahead of an earlier one. */
  lemma NotAheadTransitive(a: Versioned, b: Versioned, c: Versioned)
    requires !Ahead(b, a) && !Ahead(c, b)
    ensures !Ahead(c, a)
  {
    LessTotal(a.entry.key, b.entry.key);
    LessTotal(b.entry.key, c.entry.key);
    LessIrreflexive(a.entry.key);
    if Less(a.entry.key, b.entry.key) && Less(b.entry.key, c.entry.key) {
      LessTransitive(a.entry.key, b.entry.key, c.entry.key);
    }
    if Less(a.entry.key, c.entry.key) {
      LessAsymmetric(a.entry.key, c.entry.key);
    }
  }

  lemma AheadAsymmetric(a: Versioned, b: Versioned)
    requires Ahead(a, b)
    ensures !Ahead(b, a)
  {
    LessIrreflexive(a.entry.key);
    if Less(a.entry.key, b.entry.key) {
      LessAsymmetric(a.entry.key, b.entry.key);
    }
  }

  lemma {:induction false} InsertIsIn(s: seq<Versioned>, v: Versioned)
    ensures multiset(Insert(s, v)) == multiset(s) + multiset{v}
    decreases |s|
  {
    if s != [] && Ahead(v, s[|s| - 1]) {
      InsertIsIn(s[..|s| - 1], v);
      assert s == s[..|s| - 1] + [s[|s| - 1]];
    }
  }

  lemma {:induction false} InsertInOrder(s: seq<Versioned>, v: Versioned)
    requires InOrder(s)
    ensures InOrder(Insert(s, v))
    decreases |s|
  {
    if s != [] {
      var n := |s| - 1;
      if Ahead(v, s[n]) {
        InsertInOrder(s[..n], v);
        InsertIsIn(s[..n], v);
        var r := Insert(s[..n], v);
        AheadAsymmetric(v, s[n]);
        forall i | 0 <= i < |r|
          ensures !Ahead(s[n], r[i])
        {
          assert r[i] in multiset(r);
          assert r[i] == v || r[i] in s[..n];
        }
      } else {
        forall i | 0 <= i < n
          ensures !Ahead(v, s[i])
        {
          NotAheadTransitive(s[i], s[n], v);
        }
      }
    }
  }

  /** The sort keeps the records and puts them in order. */
  lemma {:induction false} SortSorts(s: seq<Versioned>)
    ensures InOrder(Sort(s)) && multiset(Sort(s)) == multiset(s)
    decreases |s|
  {
    if s != [] {
      var n := |s| - 1;
      SortSorts(s[..n]);
      InsertInOrder(Sort(s[..n]), s[n]);
      InsertIsIn(Sort(s[..n]), s[n]);
      assert s == s[..n] + [s[n]];
    }
  }

  // ---- the merge of sorted records ----

  /** The first of its key. */
  ghost predicate First(s: seq<Versioned>, i: nat)
    requires i < |s|
  {
    i == 0 || s[i - 1].entry.key != s[i].entry.key
  }

  /** The records kept among the first `n`: the first of each key, unless it is a delete. */
  ghost function Kept(s: seq<Versioned>, n: nat): seq<MemEntry>
    requires n <= |s|
  {
    if n == 0 then []
    else if First(s, n - 1) && s[n - 1].entry.op != OP_DELETE then Kept(s, n - 1) + [s[n - 1].entry]
    else Kept(s, n - 1)
  }

  /** In order, a first one is larger than everything before it. */
  lemma FirstIsLarger(s: seq<Versioned>, i: nat, j: nat)
    requires InOrder(s) && j < i < |s| && First(s, i)
    ensures Less(s[j].entry.key, s[i].entry.key)
  {
    LessTotal(s[i - 1].entry.key, s[i].entry.key);
    assert !Ahead(s[i], s[i - 1]);
    if j < i - 1 {
      LessTotal(s[j].entry.key, s[i - 1].entry.key);
      assert !Ahead(s[i - 1], s[j]);
      if s[j].entry.key != s[i - 1].entry.key {
        LessTransitive(s[j].entry.key, s[i - 1].entry.key, s[i].entry.key);
      }
    }
  }

  /** Among the first `n`, a first one of its key that is no delete. */
  ghost predicate Chosen(s: seq<Versioned>, n: nat, e: MemEntry)
    requires n <= |s|
  {
    exists i :: 0 <= i < n && First(s, i) && s[i].entry == e && e.op != OP_DELETE
  }

  lemma {:induction false} KeptChosen(s: seq<Versioned>, n: nat, e: MemEntry)
    requires n <= |s| && e in Kept(s, n)
    ensures Chosen(s, n, e)
    decreases n
  {
    if n > 0 && e in Kept(s, n - 1) {
      KeptChosen(s, n - 1, e);
    }
  }

  lemma SortedSnoc(es: seq<MemEntry>, e: MemEntry)
    requires Sorted(es) && forall k :: 0 <= k < |es| ==> Less(es[k].key, e.key)
    ensures Sorted(es + [e])
  {}

  lemma {:induction false} KeptSmaller(s: seq<Versioned>, n: nat, e: MemEntry)
    requires InOrder(s) && n < |s| && First(s, n) && e in Kept(s, n)
    ensures Less(e.key, s[n].entry.key)
  {
    KeptChosen(s, n, e);
    var i :| 0 <= i < n && First(s, i) && s[i].entry == e && e.op != OP_DELETE;
    FirstIsLarger(s, n, i);
  }

  /** What is kept is strictly sorted. */
  lemma {:induction false} KeptSorted(s: seq<Versioned>, n: nat)
    requires InOrder(s) && n <= |s|
    ensures Sorted(Kept(s, n))
    decreases n
  {
    if n > 0 {
      KeptSorted(s, n - 1);
      if First(s, n - 1) && s[n - 1].entry.op != OP_DELETE {
        var before, e := Kept(s, n - 1), s[n - 1].entry;
        forall k | 0 <= k < |before|
          ensures Less(before[k].key, e.key)
        {
          KeptSmaller(s, n - 1, before[k]);
        }
        SortedSnoc(before, e);
        assert Kept(s, n) == before + [e];
      }
    }
  }

  lemma {:induction false} KeptHas(s: seq<Versioned>, n: nat, i: nat)
    requires i < n <= |s| && First(s, i) && s[i].entry.op != OP_DELETE
    ensures s[i].entry in Kept(s, n)
    decreases n
  {
    if i < n - 1 {
      KeptHas(s, n - 1, i);
    }
  }

  /** Every key in the records has a first one, and it is the newest. */
  lemma {:induction false} FirstExists(s: seq<Versioned>, j: nat) returns (i: nat)
    requires InOrder(s) && j < |s|
    ensures i <= j && First(s, i) && s[i].entry.key == s[j].entry.key
    decreases j
  {
    if First(s, j) {
      i := j;
    } else {
      i := FirstExists(s, j - 1);
    }
  }

  lemma FirstIsNewest(s: seq<Versioned>, i: nat, j: nat)
    requires InOrder(s) && i < |s| && j < |s| && First(s, i) && s[i].entry.key == s[j].entry.key
    ensures s[j].file <= s[i].file
  {
    LessIrreflexive(s[i].entry.key);
    if j < i {
      FirstIsLarger(s, i, j);
    } else if i < j {
      assert !Ahead(s[j], s[i]);
    }
  }

  // ---- the merge of tables ----

  /** The records of all tables, oldest table first. */
  function Collect(ts: seq<seq<MemEntry>>): seq<Versioned> {
    if ts == [] then [] else Collect(ts[..|ts| - 1]) + Tagged(ts[|ts| - 1], |ts| - 1)
  }

  function Tagged(es: seq<MemEntry>, file: nat): (vs: seq<Versioned>)
    ensures |vs| == |es|
    ensures forall i :: 0 <= i < |es| ==> vs[i] == Versioned(es[i], file)
  {
    if es == [] then [] else Tagged(es[..|es| - 1], file) + [Versioned(es[|es| - 1], file)]
  }

  lemma {:induction false} CollectHas(ts: seq<seq<MemEntry>>, v: Versioned)
    ensures v in Collect(ts) <==> v.file < |ts| && v.entry in ts[v.file]
    decreases |ts|
  {
    if ts != [] {
      var n := |ts| - 1;
      CollectHas(ts[..n], v);
      var last := Tagged(ts[n], n);
      assert v in last <==> v.file == n && v.entry in ts[n] by {
        if v.file == n && v.entry in ts[n] {
          var i :| 0 <= i < |ts[n]| && ts[n][i] == v.entry;
          assert last[i] == v;
        }
      }
    }
  }

  function Merge(ts: seq<seq<MemEntry>>): seq<Versioned> {
    Sort(Collect(ts))
  }

  ghost function Merged(ts: seq<seq<MemEntry>>): seq<MemEntry> {
    Kept(Merge(ts), |Merge(ts)|)
  }

  /** What the tables say together: the newest table that has the key decides. */
  function Overlay(ts: seq<seq<MemEntry>>): Table {
    if ts == [] then map[] else Overlay(ts[..|ts| - 1]) + ToTable(ts[|ts| - 1])
  }

  function Live(t: Table): Table {
    map k | k in t && t[k].op != OP_DELETE :: t[k]
  }

  ghost predicate AllSorted(ts: seq<seq<MemEntry>>) {
    forall i :: 0 <= i < |ts| ==> Sorted(ts[i])
  }

  lemma NotInTable(es: seq<MemEntry>, k: Key)
    requires forall x :: x in es ==> x.key != k
    ensures k !in ToTable(es)
  {
    TableKeys(es);
  }

  lemma InTable(es: seq<MemEntry>, e: MemEntry)
    requires Sorted(es) && e in es
    ensures e.key in ToTable(es) && ToTable(es)[e.key] == Write(e.op, e.value)
  {
    SortedTable(es);
    var i :| 0 <= i < |es| && es[i] == e;
  }

  /** The newest table with the key, as the overlay sees it. */
  lemma {:induction false} OverlayNewest(ts: seq<seq<MemEntry>>, e: MemEntry, f: nat)
    requires AllSorted(ts) && f < |ts| && e in ts[f]
    requires forall g, x :: f < g < |ts| && x in ts[g] ==> x.key != e.key
    ensures e.key in Overlay(ts) && Overlay(ts)[e.key] == Write(e.op, e.value)
    decreases |ts|
  {
    var n := |ts| - 1;
    if f < n {
      OverlayNewest(ts[..n], e, f);
      NotInTable(ts[n], e.key);
    } else {
      InTable(ts[n], e);
    }
  }

  lemma {:induction false} OverlayFrom(ts: seq<seq<MemEntry>>, k: Key) returns (f: nat, e: MemEntry)
    requires k in Overlay(ts)
    ensures f < |ts| && e in ts[f] && e.key == k
    decreases |ts|
  {
    var n := |ts| - 1;
    TableKeys(ts[n]);
    if k in ToTable(ts[n]) {
      var i :| 0 <= i < |ts[n]| && ts[n][i].key == k;
      f, e := n, ts[n][i];
    } else {
      f, e := OverlayFrom(ts[..n], k);
    }
  }

  /** The first one of its key in the merge is what the overlay has for that key. */
  lemma FirstIsOverlay(ts: seq<seq<MemEntry>>, i: nat)
    requires AllSorted(ts) && i < |Merge(ts)| && First(Merge(ts), i)
    ensures var e := Merge(ts)[i].entry; e.key in Overlay(ts) && Overlay(ts)[e.key] == Write(e.op, e.value)
  {
    var s := Merge(ts);
    SortSorts(Collect(ts));
    var v := s[i];
    assert v in multiset(s);
    CollectHas(ts, v);
    forall g, x | v.file < g < |ts| && x in ts[g]
      ensures x.key != v.entry.key
    {
      var w := Versioned(x, g);
      CollectHas(ts, w);
      assert w in multiset(s);
      var j :| 0 <= j < |s| && s[j] == w;
      if x.key == v.entry.key {
        FirstIsNewest(s, i, j);
      }
    }
    OverlayNewest(ts, v.entry, v.file);
  }

  /**
   The merge is strictly sorted and holds, for each key, the newest record of all tables,
   except where that record is a delete.
   */
  lemma MergeMeans(ts: seq<seq<MemEntry>>)
    requires AllSorted(ts)
    ensures Sorted(Merged(ts)) && ToTable(Merged(ts)) == Live(Overlay(ts))
  {
    SortSorts(Collect(ts));
    KeptSorted(Merge(ts), |Merge(ts)|);
    var t, live := ToTable(Merged(ts)), Live(Overlay(ts));
    forall k | k in t
      ensures k in live && t[k] == live[k]
    {
      KeptIsLive(ts, k);
    }
    forall k | k in live
      ensures k in t
    {
      LiveIsKept(ts, k);
    }
  }

  /** Table `i` is the newest that has the key. */
  ghost predicate NewestWith(ts: seq<seq<MemEntry>>, k: Key, i: nat) {
    i < |ts| && k in ToTable(ts[i]) && forall j :: i < j < |ts| ==> k !in ToTable(ts[j])
  }

  lemma {:induction false} OverlayAt(ts: seq<seq<MemEntry>>, k: Key, i: nat)
    requires NewestWith(ts, k, i)
    ensures k in Overlay(ts) && Overlay(ts)[k] == ToTable(ts[i])[k]
    decreases |ts|
  {
    if i < |ts| - 1 {
      assert k !in ToTable(ts[|ts| - 1]);
      OverlayAt(ts[..|ts| - 1], k, i);
    }
  }

  lemma {:induction false} OverlaySource(ts: seq<seq<MemEntry>>, k: Key) returns (j: nat)
    requires k in Overlay(ts)
    ensures j < |ts| && k in ToTable(ts[j])
    decreases |ts|
  {
    j := |ts| - 1;
    if k !in ToTable(ts[j]) {
      j := OverlaySource(ts[..j], k);
    }
  }

  /**
   Key by key: the merge has what the newest table with the key says, if that is no delete, and otherwise, or
   if no table has the key, nothing.
   */
  lemma {:induction false} MergedNewest(ts: seq<seq<MemEntry>>, k: Key)
    requires AllSorted(ts)
    ensures forall i: nat :: NewestWith(ts, k, i) ==>
      var w := ToTable(ts[i])[k];
      if w.op == OP_DELETE then k !in ToTable(Merged(ts))
      else k in ToTable(Merged(ts)) && ToTable(Merged(ts))[k] == w
    ensures k in ToTable(Merged(ts)) ==> exists j :: 0 <= j < |ts| && k in ToTable(ts[j])
  {
    MergeMeans(ts);
    forall i: nat | NewestWith(ts, k, i)
      ensures k in Overlay(ts) && Overlay(ts)[k] == ToTable(ts[i])[k]
    {
      OverlayAt(ts, k, i);
    }
    if k in Overlay(ts) {
      var j := OverlaySource(ts, k);
    }
  }

  lemma KeptIsLive(ts: seq<seq<MemEntry>>, k: Key)
    requires AllSorted(ts) && k in ToTable(Merged(ts))
    ensures k in Live(Overlay(ts)) && ToTable(Merged(ts))[k] == Live(Overlay(ts))[k]
  {
    var s, m := Merge(ts), Merged(ts);
    SortSorts(Collect(ts));
    KeptSorted(s, |s|);
    TableKeys(m);
    var x :| 0 <= x < |m| && m[x].key == k;
    InTable(m, m[x]);
    KeptChosen(s, |s|, m[x]);
    var i :| 0 <= i < |s| && First(s, i) && s[i].entry == m[x] && m[x].op != OP_DELETE;
    FirstIsOverlay(ts, i);
  }

  lemma LiveIsKept(ts: seq<seq<MemEntry>>, k: Key)
    requires AllSorted(ts) && k in Live(Overlay(ts))
    ensures k in ToTable(Merged(ts))
  {
    var s := Merge(ts);
    SortSorts(Collect(ts));
    KeptSorted(s, |s|);
    var f, e := OverlayFrom(ts, k);
    CollectHas(ts, Versioned(e, f));
    assert Versioned(e, f) in multiset(s);
    var j :| 0 <= j < |s| && s[j] == Versioned(e, f);
    var i := FirstExists(s, j);
    FirstIsOverlay(ts, i);
    KeptHas(s, |s|, i);
    InTable(Merged(ts), s[i].entry);
  }

  // ---- what a table file means ----

  /** A table as lookups answer from its file: no value is nil. */
  function StoredTable(t: Table): Table {
    map k | k in t :: Write(t[k].op, Of(t[k].value.Content()))
  }

  lemma {:induction false} StoredCommutes(es: seq<MemEntry>)
    ensures ToTable(SSTable.StoredAll(es)) == StoredTable(ToTable(es))
    decreases |es|
  {
    if es != [] {
      StoredCommutes(es[1..]);
      assert SSTable.StoredAll(es)[1..] == SSTable.StoredAll(es[1..]);
    }
  }

  /** The tables as a merge reads them, and as lookups see them. */
  function Rereads(ts: seq<seq<MemEntry>>): (rs: seq<seq<MemEntry>>)
    ensures |rs| == |ts|
    ensures forall i :: 0 <= i < |ts| ==> rs[i] == SSTable.RereadAll(ts[i])
  {
    if ts == [] then [] else Rereads(ts[..|ts| - 1]) + [SSTable.RereadAll(ts[|ts| - 1])]
  }

  function Meanings(ts: seq<seq<MemEntry>>): Table {
    if ts == [] then map[] else Meanings(ts[..|ts| - 1]) + ToTable(SSTable.StoredAll(ts[|ts| - 1]))
  }

  lemma StoredReread(es: seq<MemEntry>)
    ensures SSTable.StoredAll(SSTable.RereadAll(es)) == SSTable.StoredAll(es)
  {}

  lemma StoredUnion(a: Table, b: Table)
    ensures StoredTable(a + b) == StoredTable(a) + StoredTable(b)
  {}

  lemma {:induction false} OverlayMeanings(ts: seq<seq<MemEntry>>)
    ensures StoredTable(Overlay(Rereads(ts))) == Meanings(ts)
    decreases |ts|
  {
    if ts != [] {
      var n := |ts| - 1;
      OverlayMeanings(ts[..n]);
      assert Rereads(ts)[..n] == Rereads(ts[..n]);
      StoredUnion(Overlay(Rereads(ts[..n])), ToTable(SSTable.RereadAll(ts[n])));
      StoredReread(ts[n]);
      StoredCommutes(SSTable.RereadAll(ts[n]));
    }
  }

  /** Read, merged and written again, the tables mean what they meant together, less the deletes. */
  lemma CompactionMeans(ts: seq<seq<MemEntry>>)
    requires AllSorted(ts)
    ensures Sorted(Merged(Rereads(ts)))
    ensures ToTable(SSTable.StoredAll(Merged(Rereads(ts)))) == Live(Meanings(ts))
  {
    MergeMeans(Rereads(ts));
    StoredCommutes(Merged(Rereads(ts)));
    OverlayMeanings(ts);
  }

  // ---- the program ----

  method MergeRecords(all: seq<Versioned>) returns (merged: seq<MemEntry>)
    ensures merged == Kept(Sort(all), |Sort(all)|)
  {
    var sorted := Sort(all);
    merged := [];
    var lastKey := Nil;
    var i := 0;
    while i < |sorted|
      invariant 0 <= i <= |sorted|
      invariant lastKey == if i == 0 then Nil else Of(sorted[i - 1].entry.key)
      invariant merged == Kept(sorted, i)
    {
      var e := sorted[i].entry;
      if lastKey.Nil? || e.key != lastKey.bytes {
        lastKey := Of(e.key);
        if e.op != OP_DELETE {
          merged := merged + [MemEntry(e.key, e.value, e.op)];
        }
      }
      i := i + 1;
    }
  }

  /** The result of a compaction: it failed, aborted, left nothing, or left one new file. */
  datatype Outcome = Failed | Panicked | Nothing | Written(file: seq<byte>)

  /** What the first file that cannot be opened does to the compaction. */
  function OpenAll(files: seq<seq<byte>>): SSTable.Opened {
    if files == [] then SSTable.Reader([])
    else
      match OpenAll(files[..|files| - 1])
      case Reader(_) => SSTable.Open(files[|files| - 1])
      case Refused => SSTable.Refused
      case Panic => SSTable.Panic
  }

  function Entries(file: seq<byte>): seq<MemEntry> {
    match SSTable.ReadTable(file)
    case Contents(es) => es
    case TooSmall => []
  }

  function EntriesOf(files: seq<seq<byte>>): (ts: seq<seq<MemEntry>>)
    ensures |ts| == |files|
  {
    seq(|files|, i requires 0 <= i < |files| => Entries(files[i]))
  }

  ghost function Compact(files: seq<seq<byte>>): Outcome {
    match OpenAll(files)
    case Refused => Failed
    case Panic => Panicked
    case Reader(_) =>
      var merged := Merged(EntriesOf(files));
      if merged == [] then Nothing else Written(SSTable.Image(merged))
  }

  lemma {:induction false} OpenAllReads(files: seq<seq<byte>>, i: nat)
    requires OpenAll(files).Reader? && i < |files|
    ensures SSTable.ReadTable(files[i]).Contents?
    decreases |files|
  {
    if i < |files| - 1 {
      OpenAllReads(files[..|files| - 1], i);
    }
  }

  method CompactFiles(files: seq<seq<byte>>) returns (r: Outcome)
    ensures r == Compact(files)
  {
    var access := OpenReaders(files);
    if access.Refused? { return Failed; }
    if access.Panic? { return Panicked; }
    var all := CollectRecords(files);
    var merged := MergeRecords(all);
    if |merged| == 0 { return Nothing; }
    var ok, file := SSTable.WriteTable(merged);
    r := Written(file);
  }

  method OpenReaders(files: seq<seq<byte>>) returns (access: SSTable.Opened)
    ensures match access
            case Reader(_) => OpenAll(files).Reader?
            case Refused => OpenAll(files).Refused?
            case Panic => OpenAll(files).Panic?
  {
    access := SSTable.Reader([]);
    var i := 0;
    while i < |files|
      invariant 0 <= i <= |files|
      invariant OpenAll(files[..i]).Reader? && access.Reader?
    {
      access := SSTable.OpenReader(files[i]);
      assert files[..i + 1][..i] == files[..i];
      if !access.Reader? {
        OpenAllStops(files, i + 1);
        return;
      }
      i := i + 1;
    }
    assert files[..i] == files;
  }

  lemma {:induction false} OpenAllStops(files: seq<seq<byte>>, n: nat)
    requires n <= |files| && !OpenAll(files[..n]).Reader?
    ensures OpenAll(files) == OpenAll(files[..n])
    decreases |files|
  {
    if n < |files| {
      assert files[..|files| - 1][..n] == files[..n];
      OpenAllStops(files[..|files| - 1], n);
    } else {
      assert files[..n] == files;
    }
  }

  lemma CollectNext(ts: seq<seq<MemEntry>>, i: nat)
    requires i < |ts|
    ensures Collect(ts[..i + 1]) == Collect(ts[..i]) + Tagged(ts[i], i)
  {
    assert ts[..i + 1][..i] == ts[..i];
  }

  method CollectRecords(files: seq<seq<byte>>) returns (all: seq<Versioned>)
    requires OpenAll(files).Reader?
    ensures all == Collect(EntriesOf(files))
  {
    all := [];
    var i := 0;
    ghost var ts := EntriesOf(files);
    while i < |files|
      invariant 0 <= i <= |files|
      invariant all == Collect(ts[..i])
    {
      OpenAllReads(files, i);
      var read := SSTable.ReadAllRecords(files[i]);
      var tagged := TagRecords(read.entries, i);
      CollectNext(ts, i);
      all := all + tagged;
      i := i + 1;
    }
    assert ts[..i] == ts;
  }

  method TagRecords(es: seq<MemEntry>, file: nat) returns (vs: seq<Versioned>)
    ensures vs == Tagged(es, file)
  {
    vs := [];
    var k := 0;
    while k < |es|
      invariant 0 <= k <= |es|
      invariant vs == Tagged(es[..k], file)
    {
      assert es[..k + 1][..k] == es[..k];
      vs := vs + [Versioned(es[k], file)];
      k := k + 1;
    }
    assert es[..k] == es;
  }

  ghost predicate AllWritable(ts: seq<seq<MemEntry>>) {
    forall i :: 0 <= i < |ts| ==> SSTable.Writable(ts[i])
  }

  function Images(ts: seq<seq<MemEntry>>): (files: seq<seq<byte>>)
    ensures |files| == |ts|
  {
    seq(|ts|, i requires 0 <= i < |ts| => SSTable.Image(ts[i]))
  }

  lemma {:induction false} ImagesOpen(ts: seq<seq<MemEntry>>)
    requires AllWritable(ts)
    ensures OpenAll(Images(ts)).Reader?
    decreases |ts|
  {
    if ts != [] {
      var n := |ts| - 1;
      ImagesOpen(ts[..n]);
      assert Images(ts)[..n] == Images(ts[..n]);
      SSTable.OpenBack(ts[n]);
    }
  }

  lemma ImagesRead(ts: seq<seq<MemEntry>>)
    requires AllWritable(ts)
    ensures EntriesOf(Images(ts)) == Rereads(ts)
  {
    forall i | 0 <= i < |ts|
      ensures EntriesOf(Images(ts))[i] == Rereads(ts)[i]
    {
      SSTable.ReadTableBack(ts[i]);
    }
  }

  /**
   Compacting written tables, bytes to bytes: the new file is the image of a strictly sorted
   list that means what the tables meant together less the deletes, or there is no such file
   because nothing is left.
   */
  lemma CompactBack(ts: seq<seq<MemEntry>>)
    requires AllWritable(ts) && AllSorted(ts)
    ensures var merged := Merged(Rereads(ts));
            && Compact(Images(ts)) == (if merged == [] then Nothing else Written(SSTable.Image(merged)))
            && Sorted(merged) && ToTable(SSTable.StoredAll(merged)) == Live(Meanings(ts))
  {
    ImagesOpen(ts);
    ImagesRead(ts);
    CompactionMeans(ts);
  }

  // ---- the size of the merge ----

  function RecordsSize(vs: seq<Versioned>): nat {
    if vs == [] then 0 else RecordsSize(vs[..|vs| - 1]) + SSTable.EntrySize(vs[|vs| - 1].entry)
  }

  /** The bytes of the records of all tables. */
  function TotalData(ts: seq<seq<MemEntry>>): nat {
    if ts == [] then 0 else TotalData(ts[..|ts| - 1]) + SSTable.DataSize(ts[|ts| - 1])
  }

  lemma SizeSnoc(vs: seq<Versioned>, v: Versioned)
    ensures RecordsSize(vs + [v]) == RecordsSize(vs) + SSTable.EntrySize(v.entry)
  {
    assert (vs + [v])[..|vs|] == vs;
  }

  lemma {:induction false} DataSizeSnoc(es: seq<MemEntry>, e: MemEntry)
    ensures SSTable.DataSize(es + [e]) == SSTable.DataSize(es) + SSTable.EntrySize(e)
    decreases |es|
  {
    if es == [] {
      assert (es + [e])[1..] == [];
    } else {
      assert (es + [e])[1..] == es[1..] + [e];
      DataSizeSnoc(es[1..], e);
    }
  }

  lemma {:induction false} InsertSize(s: seq<Versioned>, v: Versioned)
    ensures RecordsSize(Insert(s, v)) == RecordsSize(s) + SSTable.EntrySize(v.entry)
    decreases |s|
  {
    if s != [] && Ahead(v, s[|s| - 1]) {
      InsertSize(s[..|s| - 1], v);
      SizeSnoc(Insert(s[..|s| - 1], v), s[|s| - 1]);
    } else {
      SizeSnoc(s, v);
      assert s == [] ==> s + [v] == [v];
    }
  }

  lemma {:induction false} SortSize(s: seq<Versioned>)
    ensures RecordsSize(Sort(s)) == RecordsSize(s)
    decreases |s|
  {
    if s != [] {
      SortSize(s[..|s| - 1]);
      InsertSize(Sort(s[..|s| - 1]), s[|s| - 1]);
    }
  }

  lemma {:induction false} KeptSize(s: seq<Versioned>, n: nat)
    requires n <= |s|
    ensures SSTable.DataSize(Kept(s, n)) <= RecordsSize(s[..n])
    decreases n
  {
    if n > 0 {
      KeptSize(s, n - 1);
      assert s[..n] == s[..n - 1] + [s[n - 1]];
      SizeSnoc(s[..n - 1], s[n - 1]);
      DataSizeSnoc(Kept(s, n - 1), s[n - 1].entry);
    }
  }

  lemma {:induction false} SizeConcat(a: seq<Versioned>, b: seq<Versioned>)
    ensures RecordsSize(a + b) == RecordsSize(a) + RecordsSize(b)
    decreases |b|
  {
    if b == [] {
      assert a + b == a;
    } else {
      assert a + b == a + b[..|b| - 1] + [b[|b| - 1]];
      SizeConcat(a, b[..|b| - 1]);
      SizeSnoc(a + b[..|b| - 1], b[|b| - 1]);
    }
  }

  lemma {:induction false} TaggedSize(es: seq<MemEntry>, file: nat)
    ensures RecordsSize(Tagged(es, file)) == SSTable.DataSize(es)
    decreases |es|
  {
    if es != [] {
      var n := |es| - 1;
      TaggedSize(es[..n], file);
      SizeSnoc(Tagged(es[..n], file), Versioned(es[n], file));
      DataSizeSnoc(es[..n], es[n]);
      assert es == es[..n] + [es[n]];
    }
  }

  lemma {:induction false} CollectSize(ts: seq<seq<MemEntry>>)
    ensures RecordsSize(Collect(ts)) == TotalData(ts)
    decreases |ts|
  {
    if ts != [] {
      var n := |ts| - 1;
      CollectSize(ts[..n]);
      TaggedSize(ts[n], n);
      SizeConcat(Collect(ts[..n]), Tagged(ts[n], n));
    }
  }

  /** The merge has no more bytes of records than the tables have together. */
  lemma MergedSize(ts: seq<seq<MemEntry>>)
    ensures SSTable.DataSize(Merged(ts)) <= TotalData(ts)
  {
    var s := Merge(ts);
    KeptSize(s, |s|);
    assert s[..|s|] == s;
    SortSize(Collect(ts));
    CollectSize(ts);
  }

  lemma {:induction false} RereadSize(es: seq<MemEntry>)
    ensures SSTable.DataSize(SSTable.RereadAll(es)) == SSTable.DataSize(es)
    decreases |es|
  {
    if es != [] {
      assert SSTable.RereadAll(es)[1..] == SSTable.RereadAll(es[1..]);
      RereadSize(es[1..]);
    }
  }

  lemma {:induction false} RereadsSize(ts: seq<seq<MemEntry>>)
    ensures TotalData(Rereads(ts)) == TotalData(ts)
    decreases |ts|
  {
    if ts != [] {
      var n := |ts| - 1;
      assert Rereads(ts)[..n] == Rereads(ts[..n]);
      RereadsSize(ts[..n]);
      RereadSize(ts[n]);
    }
  }

  /** Every entry of the merge is an entry of a table. */
  lemma MergedFrom(ts: seq<seq<MemEntry>>, e: MemEntry) returns (f: nat)
    requires e in Merged(ts)
    ensures f < |ts| && e in ts[f]
  {
    var s := Merge(ts);
    KeptChosen(s, |s|, e);
    var i :| 0 <= i < |s| && First(s, i) && s[i].entry == e && e.op != OP_DELETE;
    SortSorts(Collect(ts));
    assert s[i] in multiset(s);
    CollectHas(ts, s[i]);
    f := s[i].file;
  }

  lemma RereadFits(es: seq<MemEntry>, e: MemEntry)
    requires SSTable.AllFit(es) && e in SSTable.RereadAll(es)
    ensures SSTable.Fits(e)
  {
    var y :| 0 <= y < |es| && SSTable.RereadAll(es)[y] == e;
    assert e == SSTable.Reread(es[y]) && SSTable.Fits(es[y]);
  }

  lemma MergedFits(ts: seq<seq<MemEntry>>)
    requires forall i :: 0 <= i < |ts| ==> SSTable.AllFit(ts[i])
    ensures SSTable.AllFit(Merged(Rereads(ts)))
  {
    var m, rs := Merged(Rereads(ts)), Rereads(ts);
    forall x | 0 <= x < |m|
      ensures SSTable.Fits(m[x])
    {
      var f := MergedFrom(rs, m[x]);
      RereadFits(ts[f], m[x]);
    }
  }
}
