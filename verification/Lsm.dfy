/**
 The store as a reader sees it: the MemTable first, then the table files from the newest
 to the oldest; what flushes, compactions and crashes do to what is read.
 */
module Lsm {
  import opened Bytes
  import opened Storage
  import opened Compaction

  /** Something that stands under a file name. */
  datatype Filed<+T> = Named(name: Key, content: T)

  /** A table file, by its name and by what it means. */
  type Named = Filed<Table>

  /** The first table that has the key decides. */
  function Find(ts: seq<Named>, key: Key): Probe {
    if ts == [] then Miss
    else if key in ts[0].content then ProbeOf(ts[0].content, key)
    else Find(ts[1..], key)
  }

  function Reads(mem: Table, ts: seq<Named>, key: Key): Lookup {
    Seen(if key in mem then ProbeOf(mem, key) else Find(ts, key))
  }

  lemma {:induction false} FindConcat(a: seq<Named>, b: seq<Named>, key: Key)
    ensures Find(a + b, key) == if Find(a, key).Hit? then Find(a, key) else Find(b, key)
    decreases |a|
  {
    if a == [] {
      assert a + b == b;
    } else {
      assert (a + b)[1..] == a[1..] + b;
      FindConcat(a[1..], b, key);
    }
  }

  // ---- flush ----

  /**
   A flush leaves what is read of a key unchanged, except for a put of a nil value, which turns into an
   empty value.
   */
  lemma FlushExact(mem: Table, ts: seq<Named>, name: Key, key: Key)
    ensures Reads(map[], [Named(name, StoredTable(mem))] + ts, key) == Reads(mem, ts, key)
            <==> !(key in mem && mem[key].op != OP_DELETE && mem[key].value.Nil?)
  {
    assert ([Named(name, StoredTable(mem))] + ts)[1..] == ts;
  }

  // ---- compaction at the bottom ----

  lemma FindOne(t: Named, key: Key)
    ensures Find([t], key) == ProbeOf(t.content, key)
  {
    assert [t][1..] == [];
  }

  lemma FindTwo(newer: Named, older: Named, key: Key)
    ensures Find([newer, older], key) == ProbeOf(older.content + newer.content, key)
  {
    assert [newer, older][1..] == [older];
    FindOne(older, key);
  }

  /** Put where the two oldest tables were, the merge changes no read, although it has no deletes. */
  lemma BottomKeepsReads(mem: Table, rest: seq<Named>, newer: Named, older: Named, name: Key, key: Key)
    ensures Reads(mem, rest + [Named(name, Live(older.content + newer.content))], key)
            == Reads(mem, rest + [newer, older], key)
    ensures Live(older.content + newer.content) == map[] ==>
      Reads(mem, rest, key) == Reads(mem, rest + [newer, older], key)
  {
    var merged := Named(name, Live(older.content + newer.content));
    FindConcat(rest, [newer, older], key);
    FindConcat(rest, [merged], key);
    FindTwo(newer, older, key);
    FindOne(merged, key);
  }

  // ---- compaction as coded ----

  ghost predicate Descending<T>(ts: seq<Filed<T>>) {
    forall i, j :: 0 <= i < j < |ts| ==> Less(ts[j].name, ts[i].name)
  }

  /** `t` in front of the first table with a smaller name. */
  function InsertByName<T>(ts: seq<Filed<T>>, t: Filed<T>): seq<Filed<T>> {
    if ts == [] || Less(ts[0].name, t.name) then [t] + ts else [ts[0]] + InsertByName(ts[1..], t)
  }

  /** The tables from the largest name to the smallest. */
  function SortByName<T>(ts: seq<Filed<T>>): seq<Filed<T>> {
    if ts == [] then [] else InsertByName(SortByName(ts[1..]), ts[0])
  }

  function Survivors<T>(ts: seq<Filed<T>>, removed: set<Key>): seq<Filed<T>> {
    if ts == [] then []
    else (if ts[0].name in removed then [] else [ts[0]]) + Survivors(ts[1..], removed)
  }

  /** The list after a compaction: the survivors, and the new table where its name puts it. */
  function Replaced<T>(ts: seq<Filed<T>>, removed: set<Key>, t: Filed<T>): seq<Filed<T>> {
    SortByName(Survivors(ts, removed) + [t])
  }

  /** The tables in front whose names are larger. */
  function Above<T>(ts: seq<Filed<T>>, name: Key): seq<Filed<T>> {
    if ts == [] || !Less(name, ts[0].name) then [] else [ts[0]] + Above(ts[1..], name)
  }

  lemma {:induction false} AboveIsPrefix<T>(ts: seq<Filed<T>>, name: Key)
    ensures Above(ts, name) <= ts
    decreases |ts|
  {
    if ts != [] && Less(name, ts[0].name) {
      AboveIsPrefix(ts[1..], name);
    }
  }

  lemma InsertedBehind<T>(x: Filed<T>, above: seq<Filed<T>>, t: Filed<T>, below: seq<Filed<T>>)
    ensures [x] + (above + [t] + below) == ([x] + above) + [t] + below
  {}

  /** The new table goes behind those above it. */
  lemma {:induction false} InsertAtAbove<T>(ts: seq<Filed<T>>, t: Filed<T>)
    requires Descending(ts) && forall i :: 0 <= i < |ts| ==> ts[i].name != t.name
    ensures Above(ts, t.name) <= ts
    ensures InsertByName(ts, t) == Above(ts, t.name) + [t] + ts[|Above(ts, t.name)|..]
    decreases |ts|
  {
    AboveIsPrefix(ts, t.name);
    if ts != [] {
      LessTotal(ts[0].name, t.name);
      if Less(t.name, ts[0].name) {
        LessAsymmetric(t.name, ts[0].name);
        InsertAtAbove(ts[1..], t);
        var above := Above(ts[1..], t.name);
        InsertedBehind(ts[0], above, t, ts[1..][|above|..]);
        assert ts[|above| + 1..] == ts[1..][|above|..];
      } else {
        LessAsymmetric(ts[0].name, t.name);
        assert ts[0..] == ts;
      }
    }
  }

  /** Tables in descending order with one more behind them: sorting puts that one in its place. */
  lemma {:induction false} SortOneMore<T>(ts: seq<Filed<T>>, t: Filed<T>)
    requires Descending(ts) && forall i :: 0 <= i < |ts| ==> ts[i].name != t.name
    ensures SortByName(ts + [t]) == InsertByName(ts, t)
    decreases |ts|
  {
    if ts == [] {
      assert (ts + [t])[1..] == [];
    } else {
      assert (ts + [t])[1..] == ts[1..] + [t];
      SortOneMore(ts[1..], t);
      LessTotal(ts[0].name, t.name);
      HeadFirst(ts, t);
    }
  }

  lemma HeadFirst<T>(ts: seq<Filed<T>>, t: Filed<T>)
    requires Descending(ts) && ts != [] && (Less(ts[0].name, t.name) || Less(t.name, ts[0].name))
    ensures InsertByName(InsertByName(ts[1..], t), ts[0]) == InsertByName(ts, t)
  {
    LessIrreflexive(ts[0].name);
    if Less(ts[0].name, t.name) {
      LessAsymmetric(ts[0].name, t.name);
      if |ts| > 1 {
        LessTransitive(ts[1].name, ts[0].name, t.name);
        assert InsertByName(ts[1..], t) == [t] + ts[1..];
        assert ([t] + ts[1..])[1..] == ts[1..];
        assert InsertByName(ts[1..], ts[0]) == [ts[0]] + ts[1..];
      } else {
        assert ts[1..] == [];
        assert [t][1..] == [];
        assert ts == [ts[0]];
      }
      assert [t] + ([ts[0]] + ts[1..]) == [t] + ts;
    } else {
      LessAsymmetric(t.name, ts[0].name);
      var r := InsertByName(ts[1..], t);
      assert r[0] == t || (|ts| > 1 && r[0] == ts[1]);
      assert InsertByName(r, ts[0]) == [ts[0]] + r;
    }
  }

  lemma {:induction false} SurvivorsAll<T>(ts: seq<Filed<T>>, removed: set<Key>)
    requires forall i :: 0 <= i < |ts| ==> ts[i].name !in removed
    ensures Survivors(ts, removed) == ts
    decreases |ts|
  {
    if ts != [] {
      SurvivorsAll(ts[1..], removed);
    }
  }

  lemma {:induction false} SurvivorsConcat<T>(a: seq<Filed<T>>, b: seq<Filed<T>>, removed: set<Key>)
    ensures Survivors(a + b, removed) == Survivors(a, removed) + Survivors(b, removed)
    decreases |a|
  {
    if a == [] {
      assert a + b == b;
    } else {
      assert (a + b)[1..] == a[1..] + b;
      SurvivorsConcat(a[1..], b, removed);
    }
  }

  /** Taking the two oldest tables out leaves the others. */
  lemma RestSurvives<T>(rest: seq<Filed<T>>, newer: Filed<T>, older: Filed<T>)
    requires Descending(rest + [newer, older])
    ensures Survivors(rest + [newer, older], {newer.name, older.name}) == rest && Descending(rest)
  {
    var all, removed := rest + [newer, older], {newer.name, older.name};
    assert forall i :: 0 <= i < |rest| ==> rest[i] == all[i];
    forall i | 0 <= i < |rest|
      ensures rest[i].name !in removed
    {
      assert all[|rest|] == newer && all[|rest| + 1] == older;
      assert Less(all[|rest|].name, all[i].name) && Less(all[|rest| + 1].name, all[i].name);
      LessIrreflexive(rest[i].name);
    }
    SurvivorsConcat(rest, [newer, older], removed);
    SurvivorsAll(rest, removed);
    assert [newer, older][1..] == [older];
    assert [older][1..] == [];
    assert Survivors([older], removed) == [];
    assert Survivors([newer, older], removed) == [];
  }

  /**
   Where the code puts the merge of the two oldest tables: behind the survivors with larger names, before
   the others.
   */
  lemma PlacedByName(rest: seq<Named>, newer: Named, older: Named, merged: Named)
    requires Descending(rest + [newer, older]) && forall i :: 0 <= i < |rest| ==> rest[i].name != merged.name
    ensures var p := |Above(rest, merged.name)|;
            && p <= |rest| && Above(rest, merged.name) == rest[..p]
            && Replaced(rest + [newer, older], {newer.name, older.name}, merged) == rest[..p] + [merged] + rest[p..]
  {
    RestSurvives(rest, newer, older);
    SortOneMore(rest, merged);
    InsertAtAbove(rest, merged);
  }

  /**
   Put there, the merge leaves a read unchanged exactly if the MemTable or a table in front of it
   has the key, or it has not the key itself, or no table behind it has, or both say the same.
   */
  lemma PlacementExact(
    mem: Table, ahead: seq<Named>, behind: seq<Named>, newer: Named, older: Named, merged: Named, key: Key)
    requires merged.content == Live(older.content + newer.content)
    ensures Reads(mem, ahead + [merged] + behind, key) == Reads(mem, ahead + behind + [newer, older], key)
            <==> || key in mem || Find(ahead, key).Hit? || key !in merged.content || Find(behind, key).Miss?
                 || Seen(Find(behind, key)) == Seen(ProbeOf(merged.content, key))
  {
    FindConcat(ahead + [merged], behind, key);
    FindConcat(ahead, [merged], key);
    FindConcat(ahead + behind, [newer, older], key);
    FindConcat(ahead, behind, key);
    FindTwo(newer, older, key);
    FindOne(merged, key);
  }

  /** Four tables, all about one key: compacting the two oldest brings an old value back. */
  lemma OldValueReturns(key: Key, v: seq<byte>, w: seq<byte>)
    requires v != w
    ensures var t0 := Named([0], map[key := Write(OP_PUT, Of(v))]);
            var t1 := Named([1], map[key := Write(OP_PUT, Of(v))]);
            var t2 := Named([2], map[key := Write(OP_PUT, Of(v))]);
            var t3 := Named([3], map[key := Write(OP_PUT, Of(w))]);
            var merged := Named([4], Live(t0.content + t1.content));
            && Descending([t3, t2] + [t1, t0])
            && Reads(map[], [t3, t2] + [t1, t0], key) == Found(w)
            && Reads(map[], Replaced([t3, t2] + [t1, t0], {t1.name, t0.name}, merged), key) == Found(v)
  {
    var t0 := Named([0], map[key := Write(OP_PUT, Of(v))]);
    var t1 := Named([1], map[key := Write(OP_PUT, Of(v))]);
    var t2 := Named([2], map[key := Write(OP_PUT, Of(v))]);
    var t3 := Named([3], map[key := Write(OP_PUT, Of(w))]);
    var merged := Named([4], Live(t0.content + t1.content));
    var rest := [t3, t2];
    assert Descending(rest + [t1, t0]);
    PlacedByName(rest, t1, t0, merged);
    assert !Less([4], [3]);
    assert Above(rest, merged.name) == [];
    assert rest[..0] + [merged] + rest[0..] == [merged] + rest;
  }
}
