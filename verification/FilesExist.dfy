/**
 Every run of the store whose log stays within bounds is a run on files: no flush and no compaction of it
 fails or aborts for the size of what it writes.
 */
module FilesExist {
  import opened Bytes
  import opened Storage
  import opened SkipList
  import opened SSTable
  import opened Lsm
  import opened TableFiles
  import opened FileRuns
  import Compaction
  import MemTables
  import StoreRuns
  import StoreReads
  import Wal

  // ---- tables are no larger than the log ----

  /** The record is the write of this entry. */
  predicate Matches(r: Record, e: MemEntry) {
    r.key == e.key && r.op == e.op && r.value.Content() == e.value.Content()
  }

  ghost predicate Source(rs: seq<Record>, e: MemEntry) {
    StoreReads.Wrote(rs, e.key, Write(e.op, e.value))
  }

  ghost predicate AllFrom(rs: seq<Record>, es: seq<MemEntry>) {
    forall i :: 0 <= i < |es| ==> Source(rs, es[i])
  }

  lemma {:induction false} SourceBehind(rs: seq<Record>, e: MemEntry)
    requires Source(rs, e)
    ensures rs != [] && (Matches(rs[0], e) || Source(rs[1..], e))
  {
    var i :| 0 <= i < |rs| && rs[i].key == e.key && rs[i].op == e.op && rs[i].value.Content() == e.value.Content();
    assert i > 0 ==> rs[1..][i - 1] == rs[i];
  }

  lemma {:induction false} DataWithout(es: seq<MemEntry>, p: nat)
    requires p < |es|
    ensures DataSize(es) == DataSize(es[..p] + es[p + 1..]) + EntrySize(es[p])
    decreases p
  {
    if p == 0 {
      assert es[..0] + es[1..] == es[1..];
    } else {
      DataWithout(es[1..], p - 1);
      assert (es[..p] + es[p + 1..])[1..] == es[1..][..p - 1] + es[1..][p..];
    }
  }

  /** Entries with different keys that all stem from a log take up no more bytes than the log. */
  lemma {:induction false} DataWithinLog(es: seq<MemEntry>, rs: seq<Record>)
    requires Sorted(es) && AllFrom(rs, es)
    ensures DataSize(es) <= Wal.TotalSize(rs)
    decreases |rs|
  {
    if p :| 0 <= p < |es| && rs != [] && Matches(rs[0], es[p]) {
      var others := es[..p] + es[p + 1..];
      DataWithout(es, p);
      OthersBehind(es, p, rs);
      DataWithinLog(others, rs[1..]);
    } else if es != [] {
      assert Source(rs, es[0]);
      forall i | 0 <= i < |es|
        ensures Source(rs[1..], es[i])
      {
        SourceBehind(rs, es[i]);
      }
      DataWithinLog(es, rs[1..]);
    }
  }

  lemma {:induction false} OthersBehind(es: seq<MemEntry>, p: nat, rs: seq<Record>)
    requires Sorted(es) && AllFrom(rs, es) && p < |es| && rs != [] && rs[0].key == es[p].key
    ensures var others := es[..p] + es[p + 1..]; Sorted(others) && AllFrom(rs[1..], others)
  {
    var others := es[..p] + es[p + 1..];
    forall i | 0 <= i < |others|
      ensures Source(rs[1..], others[i])
    {
      var x := if i < p then i else i + 1;
      assert others[i] == es[x];
      LessIrreflexive(es[p].key);
      SourceBehind(rs, es[x]);
    }
  }

  /** The entries of a table whose writes are in the log. */
  lemma {:induction false} EntriesFrom(es: seq<MemEntry>, t: Table, rs: seq<Record>)
    requires Sorted(es) && (t == ToTable(es) || t == Compaction.StoredTable(ToTable(es)))
    requires StoreReads.TableWrote(t, rs)
    ensures AllFrom(rs, es)
  {
    SortedTable(es);
    forall i | 0 <= i < |es|
      ensures Source(rs, es[i])
    {
      var k := es[i].key;
      assert k in t && StoreReads.Wrote(rs, k, t[k]);
    }
  }

  lemma {:induction false} PartSize(rs: seq<Record>, n: nat)
    requires n <= |rs|
    ensures Wal.TotalSize(rs[..n]) <= Wal.TotalSize(rs)
    decreases n
  {
    if n > 0 {
      assert rs[..n][1..] == rs[1..][..n - 1];
      PartSize(rs[1..], n - 1);
    }
  }

  // ---- flushes ----

  /** Every MemTable is made up of sorted entries. */
  lemma {:induction false} EntriesOf(t: Table) returns (es: seq<MemEntry>)
    ensures Sorted(es) && ToTable(es) == t
    decreases |t|
  {
    es := [];
    if t != map[] {
      var k :| k in t;
      var rest := t - {k};
      assert t.Keys == rest.Keys + {k};
      assert |rest.Keys| < |t.Keys|;
      es := EntriesOf(rest);
      PutKeepsSorted(es, MemEntry(k, t[k].value, t[k].op));
      PutIsUpdate(es, MemEntry(k, t[k].value, t[k].op));
      es := PutSorted(es, MemEntry(k, t[k].value, t[k].op));
    }
  }

  /** The log is so short that no file outgrows a 64-bit size. */
  predicate SmallLog(log: seq<Record>) {
    20 * Wal.TotalSize(log) + 112 < I64
  }

  lemma {:induction false} FittingEntry(rs: seq<Record>, e: MemEntry)
    requires StoreRuns.AllAccepted(rs) && Source(rs, e)
    ensures SSTable.Fits(e)
  {
    var i :| 0 <= i < |rs| && rs[i].key == e.key && rs[i].op == e.op && rs[i].value.Content() == e.value.Content();
    assert StoreRuns.Accepts(rs[i]);
  }

  /** Entries that stem from such a log can be written. */
  lemma {:induction false} FlushWritable(es: seq<MemEntry>, log: seq<Record>)
    requires Sorted(es) && AllFrom(log, es) && StoreRuns.AllAccepted(log) && SmallLog(log)
    ensures Writable(es)
  {
    DataWithinLog(es, log);
    DataFootprint(es);
    SortedTable(es);
    TableKeys(es);
    forall k | k in ToTable(es)
      ensures |k| < U16 && |ToTable(es)[k].value.Content()| < U32
    {
      var i :| 0 <= i < |es| && es[i].key == k;
      FittingEntry(log, es[i]);
    }
    EntriesWritable(es, |es|);
  }

  // ---- compactions ----

  /** A file that mirrors a table of the store is at most about three times as long as the log. */
  lemma {:induction false} FileWithinLog(s: StoreRuns.Store, files: seq<TableFile>, i: nat)
    requires Mirrors(s, files) && StoreReads.SourceInv(s) && i < |files|
    ensures |files[i].content.file| <= 3 * Wal.TotalSize(s.log) + 16
  {
    assert Written(files[i]);
    var es: seq<MemEntry> :| WrittenFrom(files[i], es);
    NamedAt(Meaning, files, i);
    MeaningBack(es);
    assert StoreReads.TableWrote(s.tables[i].content, s.log[..s.flushed]);
    EntriesFrom(es, s.tables[i].content, s.log[..s.flushed]);
    DataWithinLog(es, s.log[..s.flushed]);
    PartSize(s.log, s.flushed);
    ImageByData(es);
  }

  ghost predicate Within(files: seq<TableFile>, size: nat) {
    forall i :: 0 <= i < |files| ==> |files[i].content.file| <= size
  }

  lemma {:induction false} FilesWithinLog(s: StoreRuns.Store, files: seq<TableFile>)
    requires Mirrors(s, files) && StoreReads.SourceInv(s)
    ensures Within(files, 3 * Wal.TotalSize(s.log) + 16)
  {
    forall i | 0 <= i < |files|
      ensures |files[i].content.file| <= 3 * Wal.TotalSize(s.log) + 16
    {
      FileWithinLog(s, files, i);
    }
  }

  lemma {:induction false} CompactionFits(files: seq<TableFile>, log: seq<Record>)
    requires Within(files, 3 * Wal.TotalSize(log) + 16) && SmallLog(log)
    ensures SizesFit(files)
  {}

  // ---- runs ----

  /** Each step of the store, done on the files. */
  lemma {:induction false} NextFiles(s: StoreRuns.Store, step: StoreRuns.Step, files: seq<TableFile>)
    returns (files': seq<TableFile>)
    requires StoreRuns.Inv(s) && StoreReads.SourceInv(s) && StoreRuns.Enabled(s, step) && SmallLog(s.log)
    requires Mirrors(s, files)
    ensures FileStep(s, step, files, files')
  {
    match step
    case DoWrite(_) => files' := files;
    case DoFlush(name) =>
      var es := EntriesOf(s.mem);
      EntriesFrom(es, s.mem, s.log);
      FlushWritable(es, s.log);
      files' := [Named(name, OpenFile(Index(es), Image(es)))] + files;
      assert FlushedAs(s.mem, es);
    case DoCompact(name) =>
      FilesWithinLog(s, files);
      CompactionFits(files, s.log);
      CompactedMeans(files, name);
      files' := CompactedFiles(files, name).list;
    case DoCrash(_) =>
      ReopenedSame(files);
      files' := files;
  }

  /** The files after the first steps of a run. */
  ghost predicate FilesSoFar(states: seq<StoreRuns.Store>, steps: seq<StoreRuns.Step>, disks: seq<seq<TableFile>>) {
    && 0 < |disks| <= |steps| + 1 <= |states| && disks[0] == []
    && forall i :: 0 <= i < |disks| - 1 ==> FileStep(states[i], steps[i], disks[i], disks[i + 1])
  }

  lemma {:induction false} OneMoreDisk(
    states: seq<StoreRuns.Store>, steps: seq<StoreRuns.Step>, disks: seq<seq<TableFile>>, files: seq<TableFile>)
    requires FilesSoFar(states, steps, disks) && |disks| <= |steps|
    requires var n := |disks| - 1; FileStep(states[n], steps[n], disks[n], files)
    ensures FilesSoFar(states, steps, disks + [files])
  {
    var more := disks + [files];
    forall i | 0 <= i < |more| - 1
      ensures FileStep(states[i], steps[i], more[i], more[i + 1])
    {
      assert more[i] == disks[i] && (i + 1 < |disks| ==> more[i + 1] == disks[i + 1]);
    }
  }

  lemma {:induction false} NextMirrors(
    states: seq<StoreRuns.Store>, steps: seq<StoreRuns.Step>, n: nat, files: seq<TableFile>)
    returns (files': seq<TableFile>)
    requires StoreRuns.IsRun(states, steps) && n < |steps| && SmallLog(states[n].log) && Mirrors(states[n], files)
    ensures FileStep(states[n], steps[n], files, files') && Mirrors(states[n + 1], files')
  {
    StoreRuns.RunInv(states, steps, n);
    StoreReads.RunSource(states, steps, n);
    assert StoreRuns.Enabled(states[n], steps[n]) && states[n + 1] == StoreRuns.Exec(states[n], steps[n]);
    files' := NextFiles(states[n], steps[n], files);
    StepMirrors(states[n], steps[n], files, files');
  }

  lemma {:induction false} FilesUpTo(states: seq<StoreRuns.Store>, steps: seq<StoreRuns.Step>, n: nat)
    returns (disks: seq<seq<TableFile>>)
    requires StoreRuns.IsRun(states, steps) && n < |states|
    requires forall i :: 0 <= i < |states| ==> SmallLog(states[i].log)
    ensures |disks| == n + 1 && FilesSoFar(states, steps, disks) && Mirrors(states[n], disks[n])
    decreases n
  {
    if n == 0 {
      disks := [[]];
    } else {
      disks := FilesUpTo(states, steps, n - 1);
      var files := NextMirrors(states, steps, n - 1, disks[n - 1]);
      OneMoreDisk(states, steps, disks, files);
      disks := disks + [files];
    }
  }

  /**
   Every run of the store whose log stays that short has its files: all flushes can be written, all
   compactions go through, all files open again, and nothing aborts.
   */
  lemma {:induction false} EveryRunHasFiles(states: seq<StoreRuns.Store>, steps: seq<StoreRuns.Step>)
    returns (disks: seq<seq<TableFile>>)
    requires StoreRuns.IsRun(states, steps)
    requires forall i :: 0 <= i < |states| ==> SmallLog(states[i].log)
    ensures IsFileRun(states, steps, disks)
  {
    disks := FilesUpTo(states, steps, |steps|);
  }
}
