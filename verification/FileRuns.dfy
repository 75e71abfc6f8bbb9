/**
 The store down to its table files: flushes and compactions on bytes, next to the run of the store they
 belong to, and what a reader of the files gets.
 */
module FileRuns {
  import opened Bytes
  import opened Storage
  import opened SkipList
  import opened SSTable
  import opened Lsm
  import opened TableFiles
  import Compaction
  import StoreRuns

  // ---- the list of files ----

  lemma {:induction false} InsertNamed(m: seq<byte> -> Table, ts: seq<TableFile>, t: TableFile)
    ensures NamedBy(m, InsertByName(ts, t)) == InsertByName(NamedBy(m, ts), Named(t.name, m(t.content.file)))
    decreases |ts|
  {
    if ts == [] || Less(ts[0].name, t.name) {
      assert ([t] + ts)[1..] == ts;
    } else {
      InsertNamed(m, ts[1..], t);
      assert NamedBy(m, ts)[1..] == NamedBy(m, ts[1..]);
      assert ([ts[0]] + InsertByName(ts[1..], t))[1..] == InsertByName(ts[1..], t);
    }
  }

  lemma {:induction false} SortNamed(m: seq<byte> -> Table, ts: seq<TableFile>)
    ensures NamedBy(m, SortByName(ts)) == SortByName(NamedBy(m, ts))
    decreases |ts|
  {
    if ts != [] {
      SortNamed(m, ts[1..]);
      InsertNamed(m, SortByName(ts[1..]), ts[0]);
      assert NamedBy(m, ts)[1..] == NamedBy(m, ts[1..]);
    }
  }

  lemma {:induction false} KeepNamed(m: seq<byte> -> Table, ts: seq<TableFile>, removed: set<Key>)
    ensures NamedBy(m, Survivors(ts, removed)) == Survivors(NamedBy(m, ts), removed)
    decreases |ts|
  {
    if ts != [] {
      KeepNamed(m, ts[1..], removed);
      assert NamedBy(m, ts)[1..] == NamedBy(m, ts[1..]);
      if ts[0].name !in removed {
        assert ([ts[0]] + Survivors(ts[1..], removed))[1..] == Survivors(ts[1..], removed);
      } else {
        assert [] + Survivors(ts[1..], removed) == Survivors(ts[1..], removed);
      }
    }
  }

  lemma {:induction false} NamedSnoc(m: seq<byte> -> Table, ts: seq<TableFile>, t: TableFile)
    ensures NamedBy(m, ts + [t]) == NamedBy(m, ts) + [Named(t.name, m(t.content.file))]
    decreases |ts|
  {
    if ts == [] {
      assert (ts + [t])[1..] == [];
    } else {
      assert (ts + [t])[1..] == ts[1..] + [t];
      NamedSnoc(m, ts[1..], t);
    }
  }

  lemma {:induction false} NamedAt(m: seq<byte> -> Table, ts: seq<TableFile>, i: nat)
    requires i < |ts|
    ensures NamedBy(m, ts)[i] == Named(ts[i].name, m(ts[i].content.file))
    decreases i
  {
    if i > 0 {
      NamedAt(m, ts[1..], i - 1);
    }
  }

  /** Replacing files and replacing what they mean go together. */
  lemma ReplaceNamed(m: seq<byte> -> Table, ts: seq<TableFile>, removed: set<Key>, t: TableFile)
    ensures NamedBy(m, SortByName(Survivors(ts, removed) + [t]))
         == Lsm.Replaced(NamedBy(m, ts), removed, Named(t.name, m(t.content.file)))
  {
    KeepNamed(m, ts, removed);
    NamedSnoc(m, Survivors(ts, removed), t);
    SortNamed(m, Survivors(ts, removed) + [t]);
  }

  lemma {:induction false} InsertedFiles(ok: TableFile -> bool, ts: seq<TableFile>, t: TableFile)
    requires ok(t) && forall x :: x in ts ==> ok(x)
    ensures forall x :: x in InsertByName(ts, t) ==> ok(x)
    decreases |ts|
  {
    if ts != [] && !Less(ts[0].name, t.name) {
      InsertedFiles(ok, ts[1..], t);
    }
  }

  lemma {:induction false} SortedFiles(ok: TableFile -> bool, ts: seq<TableFile>)
    requires forall x :: x in ts ==> ok(x)
    ensures forall x :: x in SortByName(ts) ==> ok(x)
    decreases |ts|
  {
    if ts != [] {
      SortedFiles(ok, ts[1..]);
      InsertedFiles(ok, SortByName(ts[1..]), ts[0]);
    }
  }

  lemma {:induction false} KeptFiles(ok: TableFile -> bool, ts: seq<TableFile>, removed: set<Key>)
    requires forall x :: x in ts ==> ok(x)
    ensures forall x :: x in Survivors(ts, removed) ==> ok(x)
    decreases |ts|
  {
    if ts != [] {
      KeptFiles(ok, ts[1..], removed);
    }
  }

  // ---- compaction of files ----

  /** A new list of files, unless the program aborts on the way. */
  datatype Listing = Aborted | Files(list: seq<TableFile>)

  /** The list after a compaction result: survivors, and the new file if there is one that can be opened. */
  function ReplacedFiles(ts: seq<TableFile>, removed: set<Key>, outcome: Compaction.Outcome, name: Key): Listing {
    match outcome
    case Failed => Files(ts)
    case Panicked => Aborted
    case Nothing => Files(Survivors(ts, removed))
    case Written(file) =>
      match Open(file)
      case Reader(index) => Files(SortByName(Survivors(ts, removed) + [Named(name, OpenFile(index, file))]))
      case Refused => Files(Survivors(ts, removed))
      case Panic => Aborted
  }

  /** From four files on, the two oldest are compacted, the older one first. */
  ghost function CompactedFiles(ts: seq<TableFile>, name: Key): Listing {
    if |ts| < 4 then Files(ts)
    else
      var newer, older := ts[|ts| - 2], ts[|ts| - 1];
      ReplacedFiles(ts, {newer.name, older.name}, Compaction.Compact([older.content.file, newer.content.file]), name)
  }

  lemma MergedWritable(ts: seq<seq<MemEntry>>)
    requires |ts| == 2 && Writable(ts[0]) && Writable(ts[1]) && 3 * (|Image(ts[0])| + |Image(ts[1])|) + 16 < I64
    ensures Writable(Compaction.Merged(Compaction.Rereads(ts)))
  {
    var m := Compaction.Merged(Compaction.Rereads(ts));
    Compaction.MergedFits(ts);
    Compaction.MergedSize(Compaction.Rereads(ts));
    Compaction.RereadsSize(ts);
    TotalOfTwo(ts);
    ImageByData(ts[0]);
    ImageByData(ts[1]);
    ImageByData(m);
  }

  lemma TotalOfTwo(ts: seq<seq<MemEntry>>)
    requires |ts| == 2
    ensures Compaction.TotalData(ts) == DataSize(ts[0]) + DataSize(ts[1])
  {
    assert ts[..1][..0] == [] && ts[..1][0] == ts[0];
    assert Compaction.TotalData(ts[..1]) == Compaction.TotalData(ts[..1][..0]) + DataSize(ts[0]);
  }

  lemma MeaningsOfTwo(ts: seq<seq<MemEntry>>)
    requires |ts| == 2
    ensures Compaction.Meanings(ts) == ToTable(StoredAll(ts[0])) + ToTable(StoredAll(ts[1]))
  {
    assert ts[..1][..0] == [] && ts[..1][0] == ts[0];
    assert Compaction.Meanings(ts[..1]) == Compaction.Meanings(ts[..1][..0]) + ToTable(StoredAll(ts[0]));
  }

  /** Only the empty list stands for the empty table. */
  lemma EmptyMerge(es: seq<MemEntry>)
    requires Sorted(es)
    ensures es == [] <==> ToTable(StoredAll(es)) == map[]
  {
    if es != [] {
      SortedTable(StoredAll(es));
      assert StoredAll(es)[0].key in ToTable(StoredAll(es));
    }
  }

  lemma {:induction false} CompactAs(files: seq<seq<byte>>, ts: seq<seq<MemEntry>>, merged: seq<MemEntry>)
    requires files == Compaction.Images(ts) && Compaction.AllWritable(ts) && Compaction.AllSorted(ts)
    requires merged == Compaction.Merged(Compaction.Rereads(ts))
    ensures Compaction.Compact(files)
            == (if merged == [] then Compaction.Nothing else Compaction.Written(Image(merged)))
    ensures Sorted(merged) && ToTable(StoredAll(merged)) == Compaction.Live(Compaction.Meanings(ts))
  {
    Compaction.CompactBack(ts);
  }

  /** `merged` is what the two files are compacted to, and means their merge. */
  ghost predicate CompactsTo(older: TableFile, newer: TableFile, merged: seq<MemEntry>) {
    && Sorted(merged) && Writable(merged)
    && Compaction.Compact([older.content.file, newer.content.file])
       == (if merged == [] then Compaction.Nothing else Compaction.Written(Image(merged)))
    && ToTable(StoredAll(merged)) == Compaction.Live(Meaning(older.content.file) + Meaning(newer.content.file))
  }

  lemma {:induction false} CompactTwo(older: TableFile, newer: TableFile, ts: seq<seq<MemEntry>>)
    requires |ts| == 2 && WrittenFrom(older, ts[0]) && WrittenFrom(newer, ts[1])
    requires 3 * (|older.content.file| + |newer.content.file|) + 16 < I64
    ensures CompactsTo(older, newer, Compaction.Merged(Compaction.Rereads(ts)))
  {
    MergedWritable(ts);
    MeaningBack(ts[0]);
    MeaningBack(ts[1]);
    ImagesOfTwo(ts);
    TwoOk(ts);
    CompactTwoAs([older.content.file, newer.content.file], ts, Compaction.Merged(Compaction.Rereads(ts)),
                 Meaning(older.content.file), Meaning(newer.content.file));
  }

  lemma TwoOk(ts: seq<seq<MemEntry>>)
    requires |ts| == 2 && Writable(ts[0]) && Writable(ts[1]) && Sorted(ts[0]) && Sorted(ts[1])
    ensures Compaction.AllWritable(ts) && Compaction.AllSorted(ts)
  {
    forall i | 0 <= i < |ts|
      ensures Writable(ts[i]) && Sorted(ts[i])
    {
      assert i == 0 || i == 1;
    }
  }

  lemma ImagesOfTwo(ts: seq<seq<MemEntry>>)
    requires |ts| == 2
    ensures Compaction.Images(ts) == [Image(ts[0]), Image(ts[1])]
  {}

  lemma {:induction false} CompactTwoAs(
    files: seq<seq<byte>>, ts: seq<seq<MemEntry>>, merged: seq<MemEntry>, older: Table, newer: Table)
    requires |ts| == 2 && files == Compaction.Images(ts)
    requires Compaction.AllWritable(ts) && Compaction.AllSorted(ts)
    requires merged == Compaction.Merged(Compaction.Rereads(ts))
    requires older == ToTable(StoredAll(ts[0])) && newer == ToTable(StoredAll(ts[1]))
    ensures Compaction.Compact(files)
            == (if merged == [] then Compaction.Nothing else Compaction.Written(Image(merged)))
    ensures Sorted(merged) && ToTable(StoredAll(merged)) == Compaction.Live(older + newer)
  {
    MeaningsOfTwo(ts);
    CompactAs(files, ts, merged);
  }

  /** Compacting two written files: nothing, or a written file, that means their merge. */
  lemma {:induction false} CompactPair(older: TableFile, newer: TableFile) returns (merged: seq<MemEntry>)
    requires Written(older) && Written(newer) && 3 * (|older.content.file| + |newer.content.file|) + 16 < I64
    ensures CompactsTo(older, newer, merged)
  {
    var a: seq<MemEntry> :| WrittenFrom(older, a);
    var b: seq<MemEntry> :| WrittenFrom(newer, b);
    var ts := Pair(a, b);
    merged := Compaction.Merged(Compaction.Rereads(ts));
    CompactTwo(older, newer, ts);
  }

  lemma Pair(a: seq<MemEntry>, b: seq<MemEntry>) returns (ts: seq<seq<MemEntry>>)
    ensures |ts| == 2 && ts[0] == a && ts[1] == b
  {
    ts := [a, b];
  }

  /** What a compaction makes of the list, in terms of the merge alone. */
  lemma ReplacedBy(ts: seq<TableFile>, removed: set<Key>, merged: seq<MemEntry>, name: Key)
    requires merged != [] && Sorted(merged) && Writable(merged)
    ensures WrittenFrom(Named(name, OpenFile(Index(merged), Image(merged))), merged)
    ensures ReplacedFiles(ts, removed, Compaction.Written(Image(merged)), name)
         == Files(SortByName(Survivors(ts, removed) + [Named(name, OpenFile(Index(merged), Image(merged)))]))
  {
    OpenBack(merged);
  }

  lemma AllWrittenIn(ts: seq<TableFile>)
    ensures AllWritten(ts) <==> forall x :: x in ts ==> Written(x)
  {
    if forall x :: x in ts ==> Written(x) {
      forall i | 0 <= i < |ts|
        ensures Written(ts[i])
      {
        assert ts[i] in ts;
      }
    }
  }

  lemma ReplacedWritten(ts: seq<TableFile>, removed: set<Key>, t: TableFile)
    requires AllWritten(ts) && Written(t)
    ensures AllWritten(Survivors(ts, removed)) && AllWritten(SortByName(Survivors(ts, removed) + [t]))
  {
    ghost var ok: TableFile -> bool := x => Written(x);
    AllWrittenIn(ts);
    KeptFiles(ok, ts, removed);
    AllWrittenIn(Survivors(ts, removed));
    SortedFiles(ok, Survivors(ts, removed) + [t]);
    AllWrittenIn(SortByName(Survivors(ts, removed) + [t]));
  }

  lemma KeptWritten(ts: seq<TableFile>, removed: set<Key>)
    requires AllWritten(ts)
    ensures AllWritten(Survivors(ts, removed))
  {
    ghost var ok: TableFile -> bool := x => Written(x);
    AllWrittenIn(ts);
    KeptFiles(ok, ts, removed);
    AllWrittenIn(Survivors(ts, removed));
  }

  /** The two oldest files are small enough that file sizes stay 64-bit numbers. */
  ghost predicate SizesFit(ts: seq<TableFile>) {
    |ts| >= 2 ==> 3 * (|ts[|ts| - 1].content.file| + |ts[|ts| - 2].content.file|) + 16 < I64
  }

  lemma LastTwo(m: seq<byte> -> Table, ts: seq<TableFile>)
    requires |ts| >= 2
    ensures var n := |ts|;
            && NamedBy(m, ts)[n - 2] == Named(ts[n - 2].name, m(ts[n - 2].content.file))
            && NamedBy(m, ts)[n - 1] == Named(ts[n - 1].name, m(ts[n - 1].content.file))
  {
    NamedAt(m, ts, |ts| - 2);
    NamedAt(m, ts, |ts| - 1);
  }

  function AfterMerge(ns: seq<Named>, removed: set<Key>, name: Key, content: Table): seq<Named> {
    if content == map[] then Survivors(ns, removed) else Lsm.Replaced(ns, removed, Named(name, content))
  }

  /** The tables after a compaction, by the merge of the last two. */
  lemma CompactTablesIs(ns: seq<Named>, name: Key, newer: Named, older: Named, content: Table)
    requires |ns| >= 2 && newer == ns[|ns| - 2] && older == ns[|ns| - 1]
    requires content == Compaction.Live(older.content + newer.content)
    ensures StoreRuns.CompactTables(ns, name) == AfterMerge(ns, {newer.name, older.name}, name, content)
  {}

  /** The same for any reading of the files. */
  lemma CompactTablesBy(
    m: seq<byte> -> Table, ts: seq<TableFile>, name: Key, newer: TableFile, older: TableFile, content: Table)
    requires |ts| >= 2 && newer == ts[|ts| - 2] && older == ts[|ts| - 1]
    requires content == Compaction.Live(m(older.content.file) + m(newer.content.file))
    ensures StoreRuns.CompactTables(NamedBy(m, ts), name)
            == AfterMerge(NamedBy(m, ts), {newer.name, older.name}, name, content)
  {
    LastTwo(m, ts);
    CompactTablesIs(NamedBy(m, ts), name, Named(newer.name, m(newer.content.file)),
                    Named(older.name, m(older.content.file)), content);
  }

  /** One compaction, on bytes and in meaning. */
  lemma {:induction false} CompactedMeans(ts: seq<TableFile>, name: Key)
    requires AllWritten(ts) && |ts| >= 4 && SizesFit(ts)
    ensures CompactedFiles(ts, name).Files? && AllWritten(CompactedFiles(ts, name).list)
    ensures NamedAll(CompactedFiles(ts, name).list) == StoreRuns.CompactTables(NamedAll(ts), name)
  {
    var newer, older := ts[|ts| - 2], ts[|ts| - 1];
    assert Written(newer) && Written(older);
    var merged := CompactPair(older, newer);
    CompactedIs(ts, name, newer, older, merged);
    CompactedTo(ts, name, newer, older, merged, CompactedFiles(ts, name));
  }

  lemma {:induction false} CompactedIs(
    ts: seq<TableFile>, name: Key, newer: TableFile, older: TableFile, merged: seq<MemEntry>)
    requires |ts| >= 4 && newer == ts[|ts| - 2] && older == ts[|ts| - 1] && CompactsTo(older, newer, merged)
    ensures var removed := {newer.name, older.name};
            CompactedFiles(ts, name) ==
            if merged == [] then Files(Survivors(ts, removed))
            else ReplacedFiles(ts, removed, Compaction.Written(Image(merged)), name)
  {}

  lemma {:induction false} CompactedTo(
    ts: seq<TableFile>, name: Key, newer: TableFile, older: TableFile, merged: seq<MemEntry>, l: Listing)
    requires AllWritten(ts) && |ts| >= 4 && newer == ts[|ts| - 2] && older == ts[|ts| - 1]
    requires Sorted(merged) && Writable(merged)
    requires ToTable(StoredAll(merged)) == Compaction.Live(Meaning(older.content.file) + Meaning(newer.content.file))
    requires l == if merged == [] then Files(Survivors(ts, {newer.name, older.name}))
                  else ReplacedFiles(ts, {newer.name, older.name}, Compaction.Written(Image(merged)), name)
    ensures l.Files? && AllWritten(l.list) && NamedAll(l.list) == StoreRuns.CompactTables(NamedAll(ts), name)
  {
    ReplacementMeans(ts, {newer.name, older.name}, merged, name);
    CompactTablesBy(Meaning, ts, name, newer, older, ToTable(StoredAll(merged)));
  }

  lemma {:induction false} ReplacementMeans(ts: seq<TableFile>, removed: set<Key>, merged: seq<MemEntry>, name: Key)
    requires AllWritten(ts) && Sorted(merged) && Writable(merged)
    ensures var l := if merged == [] then Files(Survivors(ts, removed))
                     else ReplacedFiles(ts, removed, Compaction.Written(Image(merged)), name);
            && l.Files? && AllWritten(l.list)
            && NamedAll(l.list) == AfterMerge(NamedAll(ts), removed, name, ToTable(StoredAll(merged)))
  {
    EmptyMerge(merged);
    if merged == [] {
      KeptWritten(ts, removed);
      KeepNamed(Meaning, ts, removed);
    } else {
      CompactedMeansBy(ts, removed, merged, name);
    }
  }

  lemma {:induction false} CompactedMeansBy(ts: seq<TableFile>, removed: set<Key>, merged: seq<MemEntry>, name: Key)
    requires AllWritten(ts) && merged != [] && Sorted(merged) && Writable(merged)
    ensures var l := ReplacedFiles(ts, removed, Compaction.Written(Image(merged)), name);
            && l.Files? && AllWritten(l.list)
            && NamedAll(l.list) == Lsm.Replaced(NamedAll(ts), removed, Named(name, ToTable(StoredAll(merged))))
  {
    var t := Named(name, OpenFile(Index(merged), Image(merged)));
    ReplacedBy(ts, removed, merged, name);
    assert Written(t);
    ReplacedWritten(ts, removed, t);
    ReplaceNamed(Meaning, ts, removed, t);
    MeaningBack(merged);
  }

  // ---- runs ----

  /** These are the entries of the MemTable, and they can be written. */
  ghost predicate FlushedAs(mem: Table, es: seq<MemEntry>) {
    Sorted(es) && ToTable(es) == mem && Writable(es)
  }

  /** What a step of the store does to the files; a crash leaves them, and opening reads their indexes again. */
  ghost predicate FileStep(s: StoreRuns.Store, step: StoreRuns.Step, files: seq<TableFile>, files': seq<TableFile>) {
    match step
    case DoWrite(_) => files' == files
    case DoFlush(name) =>
      exists es :: FlushedAs(s.mem, es) && files' == [Named(name, OpenFile(Index(es), Image(es)))] + files
    case DoCompact(name) => SizesFit(files) && CompactedFiles(files, name) == Files(files')
    case DoCrash(_) => Reopened(files) == Files(files')
  }

  function Behind(done: seq<TableFile>, l: Listing): Listing {
    match l
    case Aborted => Aborted
    case Files(list) => Files(done + list)
  }

  /** The files are opened one by one; a corrupt one is skipped, and one whose reading panics aborts the program. */
  function Reopened(ts: seq<TableFile>): Listing {
    if ts == [] then Files([])
    else
      match Open(ts[0].content.file)
      case Panic => Aborted
      case Refused => Reopened(ts[1..])
      case Reader(index) => Behind([Named(ts[0].name, OpenFile(index, ts[0].content.file))], Reopened(ts[1..]))
  }

  /** Opening aborts exactly if reading some file panics, and otherwise skips exactly the files that are refused. */
  lemma {:induction false} ReopenedExactly(ts: seq<TableFile>)
    ensures Reopened(ts).Aborted? <==> exists i :: 0 <= i < |ts| && Open(ts[i].content.file).Panic?
    ensures Reopened(ts).Files? ==> forall i :: 0 <= i < |ts| && Open(ts[i].content.file).Reader? ==>
      Named(ts[i].name, OpenFile(Open(ts[i].content.file).index, ts[i].content.file)) in Reopened(ts).list
    decreases |ts|
  {
    if ts != [] {
      ReopenedExactly(ts[1..]);
      assert forall i :: 1 <= i < |ts| ==> ts[i] == ts[1..][i - 1];
      assert forall i :: 0 <= i < |ts| - 1 ==> ts[1..][i] == ts[i + 1];
    }
  }

  /** Written files open with the indexes they had. */
  lemma {:induction false} ReopenedSame(ts: seq<TableFile>)
    requires AllWritten(ts)
    ensures Reopened(ts) == Files(ts)
    decreases |ts|
  {
    if ts != [] {
      assert Written(ts[0]);
      OpensAgain(ts[0]);
      ReopenedSame(ts[1..]);
      ReopenedFirst(ts, ts[1..]);
      assert [ts[0]] + ts[1..] == ts;
    }
  }

  lemma {:induction false} OpensAgain(t: TableFile)
    requires Written(t)
    ensures Open(t.content.file) == Reader(t.content.index)
  {
    var es: seq<MemEntry> :| WrittenFrom(t, es);
    OpenBack(es);
  }

  lemma {:induction false} ReopenedFirst(ts: seq<TableFile>, rest: seq<TableFile>)
    requires ts != [] && rest == ts[1..] && Open(ts[0].content.file) == Reader(ts[0].content.index)
    ensures Reopened(ts) == Behind([ts[0]], Reopened(rest))
  {}

  ghost predicate IsFileRun(states: seq<StoreRuns.Store>, steps: seq<StoreRuns.Step>, disks: seq<seq<TableFile>>) {
    && StoreRuns.IsRun(states, steps) && |disks| == |states| && disks[0] == []
    && forall i :: 0 <= i < |steps| ==> FileStep(states[i], steps[i], disks[i], disks[i + 1])
  }

  ghost predicate Mirrors(s: StoreRuns.Store, files: seq<TableFile>) {
    AllWritten(files) && NamedAll(files) == s.tables
  }

  lemma {:induction false} FlushMirrors(s: StoreRuns.Store, name: Key, es: seq<MemEntry>, files: seq<TableFile>)
    requires Mirrors(s, files) && FlushedAs(s.mem, es) && s.mem != map[]
    ensures Mirrors(StoreRuns.Exec(s, StoreRuns.DoFlush(name)), [Named(name, OpenFile(Index(es), Image(es)))] + files)
  {
    NewTable(Named(name, OpenFile(Index(es), Image(es))), es, files);
  }

  lemma {:induction false} StepMirrors(
    s: StoreRuns.Store, step: StoreRuns.Step, files: seq<TableFile>, files': seq<TableFile>)
    requires Mirrors(s, files) && StoreRuns.Enabled(s, step) && FileStep(s, step, files, files')
    ensures Mirrors(StoreRuns.Exec(s, step), files')
  {
    match step
    case DoWrite(_) =>
    case DoFlush(name) =>
      var es :| FlushedAs(s.mem, es) && files' == [Named(name, OpenFile(Index(es), Image(es)))] + files;
      FlushMirrors(s, name, es, files);
    case DoCompact(name) => CompactedMeans(files, name);
    case DoCrash(_) => ReopenedSame(files);
  }

  /** In every run the files on disk mean the tables of the store. */
  lemma {:induction false} FilesMirror(
    states: seq<StoreRuns.Store>, steps: seq<StoreRuns.Step>, disks: seq<seq<TableFile>>, n: nat)
    requires IsFileRun(states, steps, disks) && n < |states|
    ensures Mirrors(states[n], disks[n])
    decreases n
  {
    if n > 0 {
      FilesMirror(states, steps, disks, n - 1);
      var k := n - 1;
      assert FileStep(states[k], steps[k], disks[k], disks[k + 1]);
      assert StoreRuns.Enabled(states[k], steps[k]) && states[k + 1] == StoreRuns.Exec(states[k], steps[k]);
      StepMirrors(states[k], steps[k], disks[k], disks[k + 1]);
    }
  }

  /** What a reader gets from the MemTable and the bytes of the files. */
  function FileReads(mem: Table, files: seq<TableFile>, key: Key): Lookup {
    Seen(if key in mem then ProbeOf(mem, key) else FindFiles(files, key))
  }

  /**
   In every run, flushes, compactions and crashes included, reading through the bytes of the files gives what
   the store says exactly if the MemTable has the key or no haunted file misleads.
   */
  lemma FileReadsExact(
    states: seq<StoreRuns.Store>, steps: seq<StoreRuns.Step>, disks: seq<seq<TableFile>>, n: nat, key: Key)
    requires IsFileRun(states, steps, disks) && n < |states|
    ensures FileReads(states[n].mem, disks[n], key) == Reads(states[n].mem, states[n].tables, key)
            <==> key in states[n].mem || !Misled(disks[n], key)
  {
    FilesMirror(states, steps, disks, n);
    FilesFind(disks[n], key);
  }

  // ---- the program's loops ----

  /** A file that cannot be read is skipped; the first that finds the key decides. */
  method SearchFiles(ts: seq<TableFile>, key: Key) returns (p: Probe)
    requires forall i :: 0 <= i < |ts| ==> |ts[i].content.file| < I64
    ensures p == FindFiles(ts, key)
  {
    var i := 0;
    assert ts[0..] == ts;
    while i < |ts|
      invariant 0 <= i <= |ts|
      invariant FindFiles(ts, key) == FindFiles(ts[i..], key)
    {
      var value, found, ok := GetFrom(ts[i].content.index, ts[i].content.file, key);
      assert ts[i..][1..] == ts[i + 1..];
      if ok && found { return Hit(value); }
      i := i + 1;
    }
    p := Miss;
  }

  /** The removed files leave the list, and the new one is opened and goes where its name puts it. */
  method ReplaceFiles(ts: seq<TableFile>, removed: set<Key>, outcome: Compaction.Outcome, name: Key)
    returns (l: Listing)
    requires outcome.Nothing? || outcome.Written?
    ensures l == ReplacedFiles(ts, removed, outcome, name)
  {
    var newList := FilterFiles(ts, removed);
    if outcome.Written? {
      var access := OpenReader(outcome.file);
      if access.Panic? { return Aborted; }
      if access.Reader? {
        newList := SortByName(newList + [Named(name, OpenFile(access.index, outcome.file))]);
      }
    }
    l := Files(newList);
  }

  method FilterFiles(ts: seq<TableFile>, removed: set<Key>) returns (newList: seq<TableFile>)
    ensures newList == Survivors(ts, removed)
  {
    newList := [];
    var i := 0;
    assert ts[0..] == ts;
    while i < |ts|
      invariant 0 <= i <= |ts|
      invariant newList + Survivors(ts[i..], removed) == Survivors(ts, removed)
    {
      assert ts[i..][1..] == ts[i + 1..];
      if ts[i].name !in removed {
        newList := newList + [ts[i]];
      }
      i := i + 1;
    }
    assert ts[i..] == [];
  }

  /** From four files on, the two oldest are read, merged and replaced; a compaction that fails changes nothing. */
  method MaybeCompact(ts: seq<TableFile>, name: Key) returns (l: Listing)
    ensures l == CompactedFiles(ts, name) && (|ts| < 4 ==> l == Files(ts))
  {
    if |ts| < 4 { return Files(ts); }
    var newer, older := ts[|ts| - 2], ts[|ts| - 1];
    var outcome := Compaction.CompactFiles([older.content.file, newer.content.file]);
    if outcome.Panicked? { return Aborted; }
    if outcome.Failed? { return Files(ts); }
    l := ReplaceFiles(ts, {newer.name, older.name}, outcome, name);
  }

  /** Opening the files anew, one by one. */
  method OpenFiles(ts: seq<TableFile>) returns (l: Listing)
    ensures l == Reopened(ts)
  {
    var sstables := [];
    var i := 0;
    assert ts[0..] == ts;
    while i < |ts|
      invariant 0 <= i <= |ts|
      invariant Reopened(ts) == Behind(sstables, Reopened(ts[i..]))
    {
      var file := ts[i].content.file;
      var access := OpenReader(file);
      assert ts[i..][1..] == ts[i + 1..];
      if access.Panic? { return Aborted; }
      if access.Reader? {
        var t := Named(ts[i].name, OpenFile(access.index, file));
        BehindOne(sstables, t, Reopened(ts[i + 1..]));
        sstables := sstables + [t];
      }
      i := i + 1;
    }
    assert sstables + [] == sstables;
    l := Files(sstables);
  }

  lemma BehindOne(done: seq<TableFile>, t: TableFile, l: Listing)
    ensures Behind(done + [t], l) == Behind(done, Behind([t], l))
  {
    if l.Files? {
      assert done + [t] + l.list == done + ([t] + l.list);
    }
  }
}
