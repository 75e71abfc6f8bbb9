/**
 The MemTable: a skip list with a running count of the bytes it takes up.
 */
module MemTables {
  import opened Bytes
  import opened Storage
  import opened SkipList

  const ENTRY_OVERHEAD: nat := 64
  const MAX_SIZE: nat := 64 * 1024 * 1024

  function Weight(e: MemEntry): nat {
    |e.key| + |e.value.Content()|
  }

  function Footprint(es: seq<MemEntry>): nat {
    if es == [] then 0 else Weight(es[0]) + Footprint(es[1..])
  }

  /** The weight of the entry a put of `key` replaces. */
  function Replaced(es: seq<MemEntry>, key: Key): nat {
    if key in ToTable(es) then |key| + |ToTable(es)[key].value.Content()| else 0
  }

  lemma {:induction false} FootprintAfterPut(es: seq<MemEntry>, e: MemEntry)
    requires Sorted(es)
    ensures Footprint(PutSorted(es, e)) == Footprint(es) - Replaced(es, e.key) + Weight(e)
    decreases |es|
  {
    TableKeys(es);
    if es == [] {
      assert [e][1..] == [];
    } else if es[0].key == e.key {
      assert ([e] + es[1..])[1..] == es[1..];
    } else if Less(e.key, es[0].key) {
      assert ([e] + es)[1..] == es;
      SmallestIsNew(es, e.key);
    } else {
      FootprintAfterPut(es[1..], e);
      assert ([es[0]] + PutSorted(es[1..], e))[1..] == PutSorted(es[1..], e);
    }
  }

  lemma SmallestIsNew(es: seq<MemEntry>, key: Key)
    requires Sorted(es) && es != [] && Less(key, es[0].key)
    ensures key !in ToTable(es)
  {
    TableKeys(es);
    forall i | 0 <= i < |es|
      ensures es[i].key != key
    {
      LessIrreflexive(key);
      if i > 0 {
        LessTransitive(key, es[0].key, es[i].key);
      }
    }
  }

  lemma {:induction false} FootprintCovers(es: seq<MemEntry>, key: Key)
    requires key in ToTable(es)
    ensures |key| + |ToTable(es)[key].value.Content()| <= Footprint(es)
    decreases |es|
  {
    if key != es[0].key {
      FootprintCovers(es[1..], key);
    }
  }

  lemma {:induction false} PutLength(es: seq<MemEntry>, e: MemEntry)
    ensures 1 <= |PutSorted(es, e)| <= |es| + 1
    decreases |es|
  {
    if es != [] && es[0].key != e.key && !Less(e.key, es[0].key) {
      PutLength(es[1..], e);
    }
  }

  /** The entries that a sequence of puts leaves. */
  function PutAll(es: seq<MemEntry>, ps: seq<MemEntry>): seq<MemEntry>
    decreases |ps|
  {
    if ps == [] then es else PutAll(PutSorted(es, ps[0]), ps[1..])
  }

  /** The map that the same puts leave. */
  function UpdateAll(t: Table, ps: seq<MemEntry>): Table
    decreases |ps|
  {
    if ps == [] then t else UpdateAll(t[ps[0].key := Write(ps[0].op, ps[0].value)], ps[1..])
  }

  /**
   Any run of puts: the list stays strictly sorted, holds exactly the map of the latest
   writes, and is as long as that map is large.
   */
  lemma {:induction false} PutsRefineMap(es: seq<MemEntry>, ps: seq<MemEntry>)
    requires Sorted(es)
    ensures Sorted(PutAll(es, ps))
    ensures ToTable(PutAll(es, ps)) == UpdateAll(ToTable(es), ps)
    ensures |PutAll(es, ps)| == |UpdateAll(ToTable(es), ps)|
    decreases |ps|
  {
    if ps == [] {
      SortedTable(es);
    } else {
      PutKeepsSorted(es, ps[0]);
      PutIsUpdate(es, ps[0]);
      PutsRefineMap(PutSorted(es, ps[0]), ps[1..]);
    }
  }

  /** The running size after one more write: the old weight off, the new weight and the overhead on. */
  function Charge(es: seq<MemEntry>, size: int, e: MemEntry): int {
    size - Replaced(es, e.key) + Weight(e) + ENTRY_OVERHEAD
  }

  function ChargeAll(es: seq<MemEntry>, size: int, ps: seq<MemEntry>): int
    decreases |ps|
  {
    if ps == [] then size else ChargeAll(PutSorted(es, ps[0]), Charge(es, size, ps[0]), ps[1..])
  }

  /** Over any run the size is the weight of the current entries plus the overhead of every write. */
  lemma {:induction false} SizeOfRun(es: seq<MemEntry>, size: int, n: nat, ps: seq<MemEntry>)
    requires Sorted(es) && size == Footprint(es) + ENTRY_OVERHEAD * n
    ensures ChargeAll(es, size, ps) == Footprint(PutAll(es, ps)) + ENTRY_OVERHEAD * (n + |ps|)
    decreases |ps|
  {
    if ps != [] {
      PutKeepsSorted(es, ps[0]);
      FootprintAfterPut(es, ps[0]);
      SizeOfRun(PutSorted(es, ps[0]), Charge(es, size, ps[0]), n + 1, ps[1..]);
    }
  }

  /** A fresh table is full no later than with its 1,048,576th write. */
  lemma FullInTime(ps: seq<MemEntry>)
    requires |ps| >= 1_048_576
    ensures ChargeAll([], 0, ps) >= MAX_SIZE
  {
    SizeOfRun([], 0, 0, ps);
  }

  class MemTable {
    const sl: List
    var sizeBytes: int
    /** Writes since creation. */
    ghost var writes: nat
    ghost var repr: set<object>

    ghost predicate Valid()
      reads this, repr
    {
      && sl in repr && sl.repr <= repr && this !in repr
      && sl.Valid()
      && Sorted(sl.Entries())
      && |sl.Entries()| <= writes
      && (sl.Entries() == [] ==> writes == 0)
      && sizeBytes == Footprint(sl.Entries()) + ENTRY_OVERHEAD * writes
    }

    ghost function Content(): Table
      requires Valid()
      reads this, repr
    {
      ToTable(sl.Entries())
    }

    constructor ()
      ensures Valid() && Content() == map[] && writes == 0 && fresh(repr)
    {
      sl := new List();
      sizeBytes := 0;
      new;
      writes := 0;
      repr := {sl} + sl.repr;
    }

    /** What putting and deleting share: take the old weight off, write, add the new weight. */
    method Set(key: Key, value: Slice, op: byte, newLevel: nat)
      requires Valid() && 1 <= newLevel <= MAX_LEVEL
      modifies this, repr
      ensures Valid() && Content() == old(Content())[key := Write(op, value)]
      ensures writes == old(writes) + 1 && fresh(repr - old(repr))
      ensures sl.Entries() == PutSorted(old(sl.Entries()), MemEntry(key, value, op))
      ensures sizeBytes == Charge(old(sl.Entries()), old(sizeBytes), MemEntry(key, value, op))
    {
      ghost var es, e := sl.Entries(), MemEntry(key, value, op);
      var existing := sl.Get(key);
      var freed := 0;
      if existing != null {
        freed := |existing.key| + |existing.value.Content()|;
      }
      FootprintAfterPut(es, e);
      PutKeepsSorted(es, e);
      PutIsUpdate(es, e);
      PutLength(es, e);
      sl.Put(key, value, op, newLevel);
      Account(PutSorted(es, e), Weight(MemEntry(key, value, op)) - freed);
    }

    /** Bookkeeping after the list took one more write. */
    method Account(ghost es: seq<MemEntry>, growth: int)
      requires sl in repr && this !in repr && this !in sl.repr && this as object != sl
      requires sl.Valid() && sl.Entries() == es && Sorted(es) && 1 <= |es| <= writes + 1
      requires sizeBytes + growth == Footprint(es) + ENTRY_OVERHEAD * writes
      modifies this
      ensures Valid() && sl.Entries() == es && repr == old(repr) + sl.repr
      ensures sizeBytes == old(sizeBytes) + growth + ENTRY_OVERHEAD && writes == old(writes) + 1
    {
      sizeBytes := sizeBytes + growth + ENTRY_OVERHEAD;
      writes := writes + 1;
      repr := repr + sl.repr;
      assert sl.Entries() == es;
    }

    method Put(key: Key, value: Slice, newLevel: nat)
      requires Valid() && 1 <= newLevel <= MAX_LEVEL
      modifies this, repr
      ensures Valid() && Content() == old(Content())[key := Write(OP_PUT, value)]
      ensures writes == old(writes) + 1 && fresh(repr - old(repr))
      ensures sizeBytes == Charge(old(sl.Entries()), old(sizeBytes), MemEntry(key, value, OP_PUT))
    {
      Set(key, value, OP_PUT, newLevel);
    }

    method Delete(key: Key, newLevel: nat)
      requires Valid() && 1 <= newLevel <= MAX_LEVEL
      modifies this, repr
      ensures Valid() && Content() == old(Content())[key := Write(OP_DELETE, Nil)]
      ensures writes == old(writes) + 1 && fresh(repr - old(repr))
      ensures sizeBytes == Charge(old(sl.Entries()), old(sizeBytes), MemEntry(key, Nil, OP_DELETE))
    {
      Set(key, Nil, OP_DELETE, newLevel);
    }

    method Get(key: Key) returns (value: Slice, found: bool)
      requires Valid()
      ensures ProbeOf(Content(), key) == if found then Hit(value) else Miss
    {
      var node := sl.Get(key);
      if node == null {
        return Nil, false;
      }
      if node.op == OP_DELETE {
        return Nil, true;
      }
      return node.value, true;
    }

    method Entries() returns (es: seq<MemEntry>)
      requires Valid()
      ensures es == sl.Entries() && Sorted(es) && ToTable(es) == Content()
    {
      es := sl.Iterate();
    }

    method Len() returns (n: nat)
      requires Valid()
      ensures n == |Content()|
    {
      SortedTable(sl.Entries());
      n := sl.length;
    }
  }
}
