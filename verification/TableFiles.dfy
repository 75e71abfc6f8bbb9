/**
 Table files as the engine holds them: a name, the index read when the file was opened, and the
 bytes; what they mean, and how large they get.
 */
module TableFiles {
  import opened Bytes
  import opened Storage
  import opened SkipList
  import opened SSTable
  import opened Lsm
  import MemTables
  import Compaction

  /** An opened file: its index, and its bytes. */
  datatype OpenFile = OpenFile(index: seq<IndexEntry>, file: seq<byte>)

  type TableFile = Filed<OpenFile>

  /** The file was written from these entries, and its index is the one written with it. */
  ghost predicate WrittenFrom(t: TableFile, es: seq<MemEntry>) {
    es != [] && Sorted(es) && Writable(es) && t.content.file == Image(es) && t.content.index == Index(es)
  }

  ghost predicate Written(t: TableFile) {
    exists es :: WrittenFrom(t, es)
  }

  ghost predicate AllWritten(ts: seq<TableFile>) {
    forall i :: 0 <= i < |ts| ==> Written(ts[i])
  }

  /** What the records of a file say. */
  function Meaning(file: seq<byte>): Table {
    ToTable(StoredAll(Compaction.Entries(file)))
  }

  lemma {:induction false} MeaningBack(es: seq<MemEntry>)
    requires Writable(es)
    ensures Meaning(Image(es)) == ToTable(StoredAll(es)) == Compaction.StoredTable(ToTable(es))
  {
    ReadTableBack(es);
    Compaction.StoredReread(es);
    Compaction.StoredCommutes(es);
  }

  /** The files by name and meaning, for any reading of file contents. */
  function NamedBy(m: seq<byte> -> Table, ts: seq<TableFile>): (ns: seq<Named>)
    ensures |ns| == |ts|
  {
    if ts == [] then [] else [Named(ts[0].name, m(ts[0].content.file))] + NamedBy(m, ts[1..])
  }

  function NamedAll(ts: seq<TableFile>): (ns: seq<Named>)
    ensures |ns| == |ts|
  {
    NamedBy(Meaning, ts)
  }

  // ---- lookup through the files ----

  function FindBy(get: TableFile -> Probe, ts: seq<TableFile>): Probe {
    if ts == [] then Miss
    else if get(ts[0]).Hit? then get(ts[0])
    else FindBy(get, ts[1..])
  }

  /** The first file in which the lookup finds the key decides. */
  function FindFiles(ts: seq<TableFile>, key: Key): Probe {
    FindBy(GetBy(key), ts)
  }

  function GetBy(key: Key): TableFile -> Probe {
    (t: TableFile) => Get(t.content.index, t.content.file, key)
  }

  /** The key lies beyond the last key of the file, and bytes behind the records look like a record of it. */
  ghost predicate Haunted(t: TableFile, key: Key) {
    exists es: seq<MemEntry> :: WrittenFrom(t, es) && Less(es[|es| - 1].key, key) && Exposed(Phantoms(es), key)
  }

  lemma {:induction false} FileGet(t: TableFile, key: Key)
    requires Written(t)
    ensures Get(t.content.index, t.content.file, key) == ProbeOf(Meaning(t.content.file), key) <==> !Haunted(t, key)
  {
    var es :| WrittenFrom(t, es);
    FileGetFrom(t, es, key);
    if Haunted(t, key) {
      var fs: seq<MemEntry> :| WrittenFrom(t, fs) && Less(fs[|fs| - 1].key, key) && Exposed(Phantoms(fs), key);
      FileGetFrom(t, fs, key);
    }
  }

  lemma {:induction false} FileGetFrom(t: TableFile, es: seq<MemEntry>, key: Key)
    requires WrittenFrom(t, es)
    ensures Get(t.content.index, t.content.file, key) == ProbeOf(Meaning(t.content.file), key)
            <==> !(Less(es[|es| - 1].key, key) && Exposed(Phantoms(es), key))
  {
    GetExact(es, key);
    MeaningBack(es);
  }

  /** A haunted file answers, although it has not the key. */
  lemma {:induction false} HauntedAnswers(t: TableFile, key: Key)
    requires Haunted(t, key)
    ensures Get(t.content.index, t.content.file, key).Hit? && key !in Meaning(t.content.file)
  {
    var es: seq<MemEntry> :| WrittenFrom(t, es) && Less(es[|es| - 1].key, key) && Exposed(Phantoms(es), key);
    HauntedFrom(t, es, key);
  }

  lemma {:induction false} HauntedFrom(t: TableFile, es: seq<MemEntry>, key: Key)
    requires WrittenFrom(t, es) && Less(es[|es| - 1].key, key) && Exposed(Phantoms(es), key)
    ensures Get(t.content.index, t.content.file, key).Hit? && key !in Meaning(t.content.file)
  {
    PhantomAnswers(es, key);
    MeaningBack(es);
  }

  /** The first file that is haunted, with no file before it that has the key, says other than the files behind it. */
  ghost predicate MisledBy(
    m: seq<byte> -> Table, get: TableFile -> Probe, haunted: TableFile -> bool, ts: seq<TableFile>, key: Key) {
    && ts != []
    && if haunted(ts[0]) then Seen(get(ts[0])) != Seen(Find(NamedBy(m, ts[1..]), key))
       else key !in m(ts[0].content.file) && MisledBy(m, get, haunted, ts[1..], key)
  }

  lemma {:induction false} FindByExact(
    m: seq<byte> -> Table, get: TableFile -> Probe, haunted: TableFile -> bool, ts: seq<TableFile>, key: Key)
    requires forall i :: 0 <= i < |ts| ==>
      if haunted(ts[i]) then get(ts[i]).Hit? && key !in m(ts[i].content.file)
      else get(ts[i]) == ProbeOf(m(ts[i].content.file), key)
    ensures Seen(FindBy(get, ts)) == Seen(Find(NamedBy(m, ts), key)) <==> !MisledBy(m, get, haunted, ts, key)
    decreases |ts|
  {
    if ts != [] {
      assert NamedBy(m, ts)[1..] == NamedBy(m, ts[1..]);
      FindByExact(m, get, haunted, ts[1..], key);
    }
  }

  ghost predicate Misled(ts: seq<TableFile>, key: Key) {
    MisledBy(Meaning, GetBy(key), t => Haunted(t, key), ts, key)
  }

  /** Searching the files shows what searching their meanings shows exactly if no haunted file misleads. */
  lemma FilesFind(ts: seq<TableFile>, key: Key)
    requires AllWritten(ts)
    ensures Seen(FindFiles(ts, key)) == Seen(Find(NamedAll(ts), key)) <==> !Misled(ts, key)
  {
    ghost var haunted: TableFile -> bool := t => Haunted(t, key);
    forall i | 0 <= i < |ts|
      ensures if haunted(ts[i]) then GetBy(key)(ts[i]).Hit? && key !in Meaning(ts[i].content.file)
              else GetBy(key)(ts[i]) == ProbeOf(Meaning(ts[i].content.file), key)
    {
      assert Written(ts[i]);
      FileGet(ts[i], key);
      if Haunted(ts[i], key) {
        HauntedAnswers(ts[i], key);
      }
    }
    FindByExact(Meaning, GetBy(key), haunted, ts, key);
  }

  // ---- sizes ----

  lemma {:induction false} DataFootprint(es: seq<MemEntry>)
    ensures DataSize(es) == MemTables.Footprint(es) + 7 * |es|
    decreases |es|
  {
    if es != [] {
      DataFootprint(es[1..]);
    }
  }

  lemma {:induction false} IndexFootprint(es: seq<MemEntry>, at: nat, offset: nat)
    ensures |IndexBytes(SparseIndex(es, at, offset))| <= MemTables.Footprint(es) + 10 * |es|
    decreases |es|
  {
    if es != [] {
      var rest := SparseIndex(es[1..], at + 1, offset + EntrySize(es[0]));
      IndexFootprint(es[1..], at + 1, offset + EntrySize(es[0]));
      if at % INTERVAL == 0 {
        var ie := IndexEntry(es[0].key, offset);
        assert ([ie] + rest)[1..] == rest;
        IndexStep(ie, rest);
      } else {
        assert [] + rest == rest;
      }
    }
  }

  lemma IndexStep(ie: IndexEntry, rest: seq<IndexEntry>)
    ensures |IndexBytes([ie] + rest)| == |ie.key| + 10 + |IndexBytes(rest)|
  {
    assert ([ie] + rest)[1..] == rest;
  }

  /** A file is at most about twice as large as what the MemTable charged for its entries. */
  lemma ImageBound(es: seq<MemEntry>)
    ensures |Image(es)| <= 2 * MemTables.Footprint(es) + 17 * |es| + 16
  {
    DataFootprint(es);
    DataLength(es);
    IndexFootprint(es, 0, 0);
  }

  lemma ImageByData(es: seq<MemEntry>)
    ensures DataSize(es) <= |Image(es)| <= 3 * DataSize(es) + 16
  {
    ImageBound(es);
    DataFootprint(es);
    DataLength(es);
  }

  /**
   The entries of a MemTable whose keys and values fit their fields can be written, as long as sizes are
   64-bit numbers.
   */
  lemma EntriesWritable(es: seq<MemEntry>, writes: nat)
    requires Sorted(es) && |es| <= writes
    requires forall k :: k in ToTable(es) ==> |k| < U16 && |ToTable(es)[k].value.Content()| < U32
    requires 2 * (MemTables.Footprint(es) + MemTables.ENTRY_OVERHEAD * writes) + 16 < I64
    ensures Writable(es)
  {
    SortedTable(es);
    ImageBound(es);
    forall i | 0 <= i < |es|
      ensures SSTable.Fits(es[i])
    {
      assert es[i].key in ToTable(es);
    }
  }

  /** A file written from these entries and opened, in front of others. */
  lemma {:induction false} NewTable(t: TableFile, es: seq<MemEntry>, ts: seq<TableFile>)
    requires WrittenFrom(t, es) && AllWritten(ts)
    ensures AllWritten([t] + ts)
    ensures NamedAll([t] + ts) == [Named(t.name, Compaction.StoredTable(ToTable(es)))] + NamedAll(ts)
  {
    MeaningBack(es);
    NamedCons(Meaning, t, ts);
    assert Written(t);
    WrittenCons(t, ts);
  }

  lemma NamedCons(m: seq<byte> -> Table, t: TableFile, ts: seq<TableFile>)
    ensures NamedBy(m, [t] + ts) == [Named(t.name, m(t.content.file))] + NamedBy(m, ts)
  {
    assert ([t] + ts)[1..] == ts;
  }

  lemma WrittenCons(t: TableFile, ts: seq<TableFile>)
    requires Written(t) && AllWritten(ts)
    ensures AllWritten([t] + ts)
  {}
}
