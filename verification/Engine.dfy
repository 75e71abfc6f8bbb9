/**
 The storage engine: every write goes to the write-ahead log and then to the MemTable; a full
 MemTable becomes a table; reads go from the newest to the oldest.

 The MemTable is held by its entries and its size, which a write changes as the contract of
 `MemTables.MemTable.Set` says; a table by its name and what it means, which is what its file
 answers where `FileRuns.FileReadsExact` says so.
 */
module Engines {
  import opened Bytes
  import opened Storage
  import opened SkipList
  import opened Wal
  import opened Lsm
  import opened StoreRuns
  import Compaction
  import MemTables

  /** The outcome of a lookup; an empty key is an error. */
  datatype Answer = EmptyKey | Answer(lookup: Lookup)

  class Engine {
    const wal: Log
    var mem: seq<MemEntry>
    var memSize: int
    /** The tables, newest first. */
    var sstables: seq<Named>
    /**
     The records written to the log, how many of them there were at the last flush, and the writes the
     MemTable took.
     */
    ghost var log: seq<Record>
    ghost var flushed: nat
    ghost var writes: nat

    ghost predicate MemOk()
      reads this
    {
      && Sorted(mem) && (mem == [] ==> writes == 0)
      && memSize == MemTables.Footprint(mem) + MemTables.ENTRY_OVERHEAD * writes
    }

    ghost predicate Valid()
      reads this, wal
    {
      MemOk() && wal.file == EncodeAll(wal.crc, log)
    }

    ghost function State(): Store
      reads this
    {
      Store(log, ToTable(mem), sstables, flushed)
    }

    /** The replayed MemTable, the log cut to its whole records, the tables newest first. */
    constructor (wal: Log, mem: seq<MemEntry>, memSize: int, sstables: seq<Named>,
                 ghost log: seq<Record>, ghost flushed: nat, ghost writes: nat)
      requires Sorted(mem) && (mem == [] ==> writes == 0) && wal.file == EncodeAll(wal.crc, log)
      requires memSize == MemTables.Footprint(mem) + MemTables.ENTRY_OVERHEAD * writes
      ensures Valid() && State() == Store(log, ToTable(mem), sstables, flushed) && this.wal == wal
    {
      this.wal, this.mem, this.memSize, this.sstables := wal, mem, memSize, sstables;
      this.log, this.flushed, this.writes := log, flushed, writes;
    }

    method PutMem(op: byte, key: Key, value: Slice)
      requires MemOk()
      modifies this`mem, this`memSize, this`writes
      ensures MemOk() && ToTable(mem) == ToTable(old(mem))[key := Write(op, value)]
      ensures memSize == MemTables.Charge(old(mem), old(memSize), MemEntry(key, value, op))
    {
      var e := MemEntry(key, value, op);
      MemAfter(mem, e, memSize, writes);
      memSize := MemTables.Charge(mem, memSize, e);
      mem := PutSorted(mem, e);
      writes := writes + 1;
    }

    /** Log first, MemTable second; a key that is too long is refused by the log. */
    method WriteThrough(op: byte, key: Key, value: Slice) returns (ok: bool)
      requires Valid() && (op == OP_PUT || (op == OP_DELETE && value == Nil))
      modifies wal, this`mem, this`memSize, this`log, this`writes
      ensures Valid() && (ok <==> |key| <= MAX_KEY)
      ensures State() == if ok then Exec(old(State()), DoWrite(Record(op, key, value))) else old(State())
      ensures memSize == if ok then MemTables.Charge(old(mem), old(memSize), MemEntry(key, value, op)) else old(memSize)
    {
      AppendOne(wal.crc, log, Record(op, key, value));
      ok := wal.Append(op, key, value);
      if ok {
        log := log + [Record(op, key, value)];
        PutMem(op, key, value);
      }
    }

    /** A full MemTable becomes a table of its own and is replaced by an empty one. */
    method MaybeFlush(name: Key) returns (full: bool)
      requires Valid()
      modifies this`mem, this`memSize, this`sstables, this`flushed, this`writes
      ensures Valid() && (full <==> old(memSize) >= MemTables.MAX_SIZE)
      ensures State() == if full then Exec(old(State()), DoFlush(name)) else old(State())
      ensures full ==> ToTable(old(mem)) != map[]
    {
      if memSize < MemTables.MAX_SIZE { return false; }
      full := true;
      SortedTable(mem);
      var entries := mem;
      mem, memSize, writes := [], 0, 0;
      sstables := [Named(name, Compaction.StoredTable(ToTable(entries)))] + sstables;
      flushed := |log|;
    }

    method Put(key: Key, value: Slice, name: Key) returns (ok: bool, full: bool)
      requires Valid()
      modifies this, wal
      ensures Valid() && (ok <==> key != [] && |key| <= MAX_KEY)
      ensures ok ==>
        (full <==> MemTables.Charge(old(mem), old(memSize), MemEntry(key, value, OP_PUT)) >= MemTables.MAX_SIZE)
      ensures ok ==>
        var s := Exec(old(State()), DoWrite(Record(OP_PUT, key, value)));
        State() == if full then Exec(s, DoFlush(name)) else s
      ensures !ok ==> State() == old(State())
    {
      full := false;
      if |key| == 0 { return false, false; }
      ok := WriteThrough(OP_PUT, key, value);
      if ok {
        full := MaybeFlush(name);
      }
    }

    method Delete(key: Key, name: Key) returns (ok: bool, full: bool)
      requires Valid()
      modifies this, wal
      ensures Valid() && (ok <==> key != [] && |key| <= MAX_KEY)
      ensures ok ==>
        (full <==> MemTables.Charge(old(mem), old(memSize), MemEntry(key, Nil, OP_DELETE)) >= MemTables.MAX_SIZE)
      ensures ok ==>
        var s := Exec(old(State()), DoWrite(Record(OP_DELETE, key, Nil)));
        State() == if full then Exec(s, DoFlush(name)) else s
      ensures !ok ==> State() == old(State())
    {
      full := false;
      if |key| == 0 { return false, false; }
      ok := WriteThrough(OP_DELETE, key, Nil);
      if ok {
        full := MaybeFlush(name);
      }
    }

    /** The MemTable, then the tables from the newest to the oldest. */
    method Get(key: Key) returns (a: Answer)
      ensures a == if key == [] then EmptyKey else Answer(Reads(State().mem, State().tables, key))
    {
      if |key| == 0 { return EmptyKey; }
      var p := ProbeOf(ToTable(mem), key);
      if p.Hit? { return Answer(Seen(p)); }
      var i := 0;
      assert sstables[0..] == sstables;
      while i < |sstables|
        invariant 0 <= i <= |sstables|
        invariant Find(sstables, key) == Find(sstables[i..], key)
      {
        p := ProbeOf(sstables[i].content, key);
        assert sstables[i..][1..] == sstables[i + 1..];
        if p.Hit? { return Answer(Seen(p)); }
        i := i + 1;
      }
      a := Answer(NotFound);
    }

    /** The compacted tables leave the list; the new one, if there is one, goes where its name puts it. */
    method ApplyCompactionResult(removed: set<Key>, created: bool, t: Named)
      requires Valid()
      modifies this`sstables
      ensures Valid()
      ensures sstables == if created then Lsm.Replaced(old(sstables), removed, t) else Survivors(old(sstables), removed)
    {
      var newList := [];
      var i := 0;
      assert sstables[0..] == sstables;
      while i < |sstables|
        invariant 0 <= i <= |sstables|
        invariant newList + Survivors(sstables[i..], removed) == Survivors(sstables, removed)
                  && sstables == old(sstables)
      {
        SurvivorNext(sstables, i, removed, newList);
        if sstables[i].name !in removed {
          newList := newList + [sstables[i]];
        }
        i := i + 1;
      }
      assert sstables[i..] == [];
      assert newList + [] == newList == Survivors(sstables, removed);
      if created {
        newList := SortByName(newList + [t]);
      }
      sstables := newList;
    }

    /** From four tables on, the two oldest are merged. */
    method MaybeCompact(name: Key)
      requires Valid()
      modifies this`sstables
      ensures Valid()
      ensures State() == if |old(sstables)| < 4 then old(State()) else Exec(old(State()), DoCompact(name))
    {
      if |sstables| < 4 { return; }
      var newer, older := sstables[|sstables| - 2], sstables[|sstables| - 1];
      var merged := Compaction.Live(older.content + newer.content);
      ApplyCompactionResult({newer.name, older.name}, merged != map[], Named(name, merged));
    }
  }

  lemma SurvivorNext(ts: seq<Named>, i: nat, removed: set<Key>, before: seq<Named>)
    requires i < |ts|
    ensures before + Survivors(ts[i..], removed)
         == (if ts[i].name in removed then before else before + [ts[i]]) + Survivors(ts[i + 1..], removed)
  {
    assert ts[i..][1..] == ts[i + 1..];
  }

  lemma AppendOne(crc: Checksum, log: seq<Record>, r: Record)
    ensures EncodeAll(crc, log + [r]) == EncodeAll(crc, log) + EncodeRecord(crc, r)
  {
    EncodeConcat(crc, log, [r]);
    assert [r][1..] == [];
    assert EncodeAll(crc, [r]) == EncodeRecord(crc, r) + EncodeAll(crc, []);
  }

  /** What a write does to the entries and the size. */
  lemma MemAfter(mem: seq<MemEntry>, e: MemEntry, size: int, writes: nat)
    requires Sorted(mem) && size == MemTables.Footprint(mem) + MemTables.ENTRY_OVERHEAD * writes
    ensures var mem' := PutSorted(mem, e);
            && Sorted(mem') && 1 <= |mem'|
            && ToTable(mem') == ToTable(mem)[e.key := Write(e.op, e.value)]
            && MemTables.Charge(mem, size, e) == MemTables.Footprint(mem') + MemTables.ENTRY_OVERHEAD * (writes + 1)
  {
    PutKeepsSorted(mem, e);
    PutIsUpdate(mem, e);
    MemTables.PutLength(mem, e);
    MemTables.FootprintAfterPut(mem, e);
  }

  // ---- recovery ----

  /** The records of the log, replayed into an empty MemTable; other kinds of records are skipped. */
  method ReplayRecords(records: seq<Record>) returns (mem: seq<MemEntry>, size: int, count: nat)
    ensures Sorted(mem) && ToTable(mem) == Replay(map[], records)
    ensures size == MemTables.Footprint(mem) + MemTables.ENTRY_OVERHEAD * count && (mem == [] ==> count == 0)
  {
    mem, size, count := [], 0, 0;
    var i := 0;
    assert records[..0] == [];
    while i < |records|
      invariant 0 <= i <= |records|
      invariant Sorted(mem) && ToTable(mem) == Replay(map[], records[..i])
      invariant size == MemTables.Footprint(mem) + MemTables.ENTRY_OVERHEAD * count && (mem == [] ==> count == 0)
    {
      var rec := records[i];
      ReplayNext(map[], records, i);
      if rec.op == OP_PUT || rec.op == OP_DELETE {
        var e := MemEntry(rec.key, if rec.op == OP_PUT then rec.value else Nil, rec.op);
        MemAfter(mem, e, size, count);
        size := MemTables.Charge(mem, size, e);
        mem := PutSorted(mem, e);
        count := count + 1;
      }
      i := i + 1;
    }
    assert records[..i] == records;
  }

  lemma ReplayNext(t: Table, rs: seq<Record>, i: nat)
    requires i < |rs|
    ensures Replay(t, rs[..i + 1]) == Apply(Replay(t, rs[..i]), rs[i])
  {
    assert rs[..i + 1] == rs[..i] + [rs[i]];
    ReplayAppend(t, rs[..i], [rs[i]]);
    assert [rs[i]][1..] == [];
    assert Replay(Replay(t, rs[..i]), [rs[i]]) == Apply(Replay(t, rs[..i]), rs[i]);
  }

  /** The files as listed, smallest name first, are turned around in place. */
  method Reverse(a: array<Named>)
    modifies a
    ensures forall k :: 0 <= k < a.Length ==> a[k] == old(a[a.Length - 1 - k])
  {
    var i, j := 0, a.Length - 1;
    while i < j
      invariant 0 <= i <= a.Length && i + j == a.Length - 1
      invariant forall k :: 0 <= k < a.Length ==> a[k] == if i <= k <= j then old(a[k]) else old(a[a.Length - 1 - k])
    {
      a[i], a[j] := a[j], a[i];
      i, j := i + 1, j - 1;
    }
  }

  method NewestFirst(listed: seq<Named>) returns (ts: seq<Named>)
    ensures |ts| == |listed| && forall k :: 0 <= k < |ts| ==> ts[k] == listed[|ts| - 1 - k]
  {
    var paths := new Named[|listed|](i requires 0 <= i < |listed| => listed[i]);
    Reverse(paths);
    ts := paths[..];
  }

  /**
   Opening after a crash: the log as the crash left it is read, replayed and cut to its whole
   records, and the tables are listed newest first; a log with an unreadable key aborts.
   */
  method Open(crc: Checksum, file: seq<byte>, listed: seq<Named>, ghost s: Store, ghost cut: nat) returns (e: Engine?)
    requires AllFit(s.log) && cut <= |EncodeAll(crc, s.log)| && file == EncodeAll(crc, s.log)[..cut]
    requires Descending(s.tables) && |listed| == |s.tables|
    requires forall k :: 0 <= k < |listed| ==> listed[k] == s.tables[|listed| - 1 - k]
    ensures e == null <==> !Readable(Left(s.log, cut))
    ensures e != null ==> fresh(e) && fresh(e.wal) && e.Valid() && e.State() == Exec(s, DoCrash(cut))
    ensures e != null ==> e.wal.crc == crc && e.wal.file == EncodeAll(crc, Left(s.log, cut))
  {
    TornTail(crc, s.log, cut);
    var o := ReadRecords(crc, file);
    if o.Panic? { return null; }
    ValidSizeIsBoundary(crc, s.log, cut);
    var mem, size, count := ReplayRecords(o.rs);
    var valid := ComputeValidSize(crc, file, |o.rs|);
    var tables := NewestFirst(listed);
    assert tables == s.tables;
    var wal := new Log(crc, file[..valid]);
    e := new Engine(wal, mem, size, tables, Left(s.log, cut), s.flushed, count);
  }
}
