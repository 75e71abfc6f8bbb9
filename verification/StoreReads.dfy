/**
 What is read in runs of the store: exactly when a compaction changes a read, that every read is some
 write, that writing a log again heals, and runs in which a read changes without a write.
 */
module StoreReads {
  import opened Bytes
  import opened Storage
  import opened Wal
  import opened Compaction
  import opened Lsm
  import opened StoreRuns
  import MemTables
  import SkipList

  // ---- compaction in a run ----

  /**
   Compacting the two oldest tables leaves the read of a key unchanged exactly if the MemTable has the key,
   or their merge has not, or none of the newer tables has, or those say the same as the merge.
   */
  ghost predicate CompactKeeps(s: Store, k: Key)
    requires |s.tables| >= 2
  {
    var n := |s.tables|;
    var merged, rest := Live(s.tables[n - 1].content + s.tables[n - 2].content), s.tables[..n - 2];
    k in s.mem || k !in merged || Find(rest, k).Miss? || Seen(Find(rest, k)) == Seen(ProbeOf(merged, k))
  }

  lemma InFrontExact(mem: Table, rest: seq<Named>, newer: Named, older: Named, name: Key, k: Key)
    ensures var merged := Live(older.content + newer.content);
            Reads(mem, InFront(name, merged, rest), k) == Reads(mem, rest + [newer, older], k)
            <==> k in mem || k !in merged || Find(rest, k).Miss? || Seen(Find(rest, k)) == Seen(ProbeOf(merged, k))
  {
    var merged := Named(name, Live(older.content + newer.content));
    if merged.content == map[] {
      BottomKeepsReads(mem, rest, newer, older, name, k);
    } else {
      PlacementExact(mem, [], rest, newer, older, merged, k);
      assert [] + [merged] + rest == [merged] + rest;
      assert [] + rest + [newer, older] == rest + [newer, older];
    }
  }

  lemma CompactExact(s: Store, name: Key, k: Key)
    requires |s.tables| >= 4 && Descending(s.tables) && NewestName(s.tables, name)
    ensures Reads(s.mem, CompactTables(s.tables, name), k) == Reads(s.mem, s.tables, k) <==> CompactKeeps(s, k)
  {
    var rest, newer, older := CompactParts(s.tables, name);
    InFrontExact(s.mem, rest, newer, older, name, k);
  }

  /** For each compaction of every run: exactly when the read of a key changes. */
  lemma CompactExactInRuns(states: seq<Store>, steps: seq<Step>, n: nat, k: Key)
    requires IsRun(states, steps) && n < |steps| && steps[n].DoCompact?
    ensures |states[n].tables| >= 4
    ensures Reads(states[n + 1].mem, states[n + 1].tables, k) == Reads(states[n].mem, states[n].tables, k)
            <==> CompactKeeps(states[n], k)
  {
    RunInv(states, steps, n);
    assert Enabled(states[n], steps[n]);
    CompactExact(states[n], steps[n].name, k);
  }

  // ---- what is read was written ----

  /** The log has a record of this write. */
  ghost predicate Wrote(rs: seq<Record>, k: Key, w: Write) {
    exists i :: 0 <= i < |rs| && rs[i].key == k && rs[i].op == w.op && rs[i].value.Content() == w.value.Content()
  }

  ghost predicate Deleted(rs: seq<Record>, k: Key) {
    exists i :: 0 <= i < |rs| && rs[i].key == k && rs[i].op == OP_DELETE
  }

  ghost predicate TableWrote(t: Table, rs: seq<Record>) {
    forall k :: k in t ==> Wrote(rs, k, t[k])
  }

  ghost predicate AllWrote(ts: seq<Named>, rs: seq<Record>) {
    forall i :: 0 <= i < |ts| ==> TableWrote(ts[i].content, rs)
  }

  /** A key that was written is in the MemTable or in a table, or was deleted. */
  ghost predicate Present(s: Store) {
    forall k :: Logged(s.log, k) ==> k in s.mem || Find(s.tables, k).Hit? || Deleted(s.log, k)
  }

  ghost predicate SourceInv(s: Store) {
    s.flushed <= |s.log| && TableWrote(s.mem, s.log) && AllWrote(s.tables, s.log[..s.flushed]) && Present(s)
  }

  lemma WroteMore(rs: seq<Record>, ss: seq<Record>, k: Key, w: Write)
    requires Wrote(rs, k, w) && rs <= ss
    ensures Wrote(ss, k, w)
  {
    var i :| 0 <= i < |rs| && rs[i].key == k && rs[i].op == w.op && rs[i].value.Content() == w.value.Content();
    assert ss[i] == rs[i];
  }

  lemma DeletedMore(rs: seq<Record>, ss: seq<Record>, k: Key)
    requires Deleted(rs, k) && rs <= ss
    ensures Deleted(ss, k)
  {
    var i :| 0 <= i < |rs| && rs[i].key == k && rs[i].op == OP_DELETE;
    assert ss[i] == rs[i];
  }

  lemma {:induction false} ReplayWrote(t: Table, rs: seq<Record>, k: Key)
    requires AllAccepted(rs) && k in Replay(t, NormalAll(rs))
    ensures var w := Replay(t, NormalAll(rs))[k]; (k in t && t[k] == w) || Wrote(rs, k, w)
    decreases |rs|
  {
    if rs != [] {
      assert NormalAll(rs)[1..] == NormalAll(rs[1..]);
      var t1 := Apply(t, Normal(rs[0]));
      assert Accepts(rs[0]);
      ReplayWrote(t1, rs[1..], k);
      var w := Replay(t, NormalAll(rs))[k];
      if Wrote(rs[1..], k, w) {
        var i :| 0 <= i < |rs[1..]| && rs[1..][i].key == k && rs[1..][i].op == w.op
          && rs[1..][i].value.Content() == w.value.Content();
        assert rs[i + 1] == rs[1..][i];
      } else if k == rs[0].key {
        assert rs[0].op == w.op && rs[0].value.Content() == w.value.Content();
      }
    }
  }

  lemma WriteSource(s: Store, r: Record)
    requires SourceInv(s) && Accepts(r)
    ensures SourceInv(Exec(s, DoWrite(r)))
  {
    var s' := Exec(s, DoWrite(r));
    assert s'.log[..s.flushed] == s.log[..s.flushed];
    assert s'.log[|s.log|] == r;
    forall k | k in s'.mem
      ensures Wrote(s'.log, k, s'.mem[k])
    {
      if k != r.key {
        WroteMore(s.log, s'.log, k, s.mem[k]);
      }
    }
    forall k | Logged(s'.log, k)
      ensures k in s'.mem || Find(s'.tables, k).Hit? || Deleted(s'.log, k)
    {
      if k != r.key {
        var i :| 0 <= i < |s'.log| && s'.log[i].key == k;
        assert s.log[i].key == k;
        assert Logged(s.log, k);
        if Deleted(s.log, k) {
          DeletedMore(s.log, s'.log, k);
        }
      }
    }
  }

  lemma FlushSource(s: Store, name: Key)
    requires SourceInv(s)
    ensures SourceInv(Exec(s, DoFlush(name)))
  {
    var s' := Exec(s, DoFlush(name));
    assert s.log[..|s.log|] == s.log;
    forall i, k | 0 <= i < |s'.tables| && k in s'.tables[i].content
      ensures Wrote(s.log, k, s'.tables[i].content[k])
    {
      if i > 0 {
        assert s'.tables[i] == s.tables[i - 1] && TableWrote(s.tables[i - 1].content, s.log[..s.flushed]);
        WroteMore(s.log[..s.flushed], s.log, k, s'.tables[i].content[k]);
      } else {
        assert Wrote(s.log, k, s.mem[k]);
      }
    }
    assert s'.tables[1..] == s.tables;
  }

  lemma CrashSource(s: Store, cut: nat)
    requires SourceInv(s) && AllAccepted(s.log) && TotalSize(s.log[..s.flushed]) <= cut
    ensures SourceInv(Exec(s, DoCrash(cut)))
  {
    var kept := Left(s.log, cut);
    WholeCovers(s.log, s.flushed, cut);
    assert kept[..s.flushed] == s.log[..s.flushed];
    assert AllAccepted(kept);
    forall k | k in Replay(map[], NormalAll(kept))
      ensures Wrote(kept, k, Replay(map[], NormalAll(kept))[k])
    {
      ReplayWrote(map[], kept, k);
    }
    forall k | Logged(kept, k)
      ensures k in Replay(map[], NormalAll(kept))
    {
      ReplayKeys(map[], kept, k);
    }
  }

  lemma {:induction false} FindWrote(ts: seq<Named>, rs: seq<Record>, k: Key)
    requires AllWrote(ts, rs) && Find(ts, k).Hit?
    ensures exists w :: Wrote(rs, k, w) && Find(ts, k) == (if w.op == OP_DELETE then Hit(Nil) else Hit(w.value))
    decreases |ts|
  {
    assert TableWrote(ts[0].content, rs);
    if k in ts[0].content {
      assert Wrote(rs, k, ts[0].content[k]);
    } else {
      FindWrote(ts[1..], rs, k);
    }
  }

  lemma InFrontWrote(rest: seq<Named>, newer: Named, older: Named, name: Key, rs: seq<Record>)
    requires AllWrote(rest + [newer, older], rs)
    ensures TableWrote(newer.content, rs) && TableWrote(older.content, rs)
    ensures AllWrote(InFront(name, Live(older.content + newer.content), rest), rs)
  {
    var ts := rest + [newer, older];
    assert ts[|rest|] == newer && ts[|rest| + 1] == older;
    assert forall i :: 0 <= i < |rest| ==> rest[i] == ts[i];
    assert TableWrote(newer.content, rs) && TableWrote(older.content, rs);
  }

  lemma CompactSource(s: Store, name: Key)
    requires SourceInv(s) && |s.tables| >= 4 && Descending(s.tables) && NewestName(s.tables, name)
    ensures SourceInv(Exec(s, DoCompact(name)))
  {
    var rest, newer, older := CompactParts(s.tables, name);
    InFrontWrote(rest, newer, older, name, s.log[..s.flushed]);
    forall k | Logged(s.log, k)
      ensures k in s.mem || Find(CompactTables(s.tables, name), k).Hit? || Deleted(s.log, k)
    {
      if !(k in s.mem || Deleted(s.log, k)) {
        StillFound(rest, newer, older, name, s.log[..s.flushed], s.log, k);
      }
    }
  }

  /** A key that was found and never deleted is found after a compaction. */
  lemma StillFound(rest: seq<Named>, newer: Named, older: Named, name: Key, rs: seq<Record>, log: seq<Record>, k: Key)
    requires TableWrote(newer.content, rs) && TableWrote(older.content, rs) && rs <= log
    requires Find(rest + [newer, older], k).Hit? && !Deleted(log, k)
    ensures Find(InFront(name, Live(older.content + newer.content), rest), k).Hit?
  {
    var both := older.content + newer.content;
    FindConcat(rest, [newer, older], k);
    FindTwo(newer, older, k);
    FindConcat([Named(name, Live(both))], rest, k);
    FindOne(Named(name, Live(both)), k);
    if k in both && both[k].op == OP_DELETE {
      DeleteLogged(both, rs, log, k);
      assert false;
    }
  }

  lemma DeleteLogged(t: Table, rs: seq<Record>, log: seq<Record>, k: Key)
    requires k in t && Wrote(rs, k, t[k]) && t[k].op == OP_DELETE && rs <= log
    ensures Deleted(log, k)
  {
    var i :| 0 <= i < |rs| && rs[i].key == k && rs[i].op == OP_DELETE;
    assert log[i] == rs[i];
  }

  lemma {:induction false} RunSource(states: seq<Store>, steps: seq<Step>, n: nat)
    requires IsRun(states, steps) && n < |states|
    ensures SourceInv(states[n])
    decreases n
  {
    if n > 0 {
      var s, step := states[n - 1], steps[n - 1];
      RunSource(states, steps, n - 1);
      RunInv(states, steps, n - 1);
      assert Enabled(s, step);
      match step
      case DoWrite(r) => WriteSource(s, r);
      case DoFlush(name) => FlushSource(s, name);
      case DoCompact(name) => CompactSource(s, name);
      case DoCrash(cut) => CrashSource(s, cut);
    }
  }

  /**
   In every run, compactions and crashes included, a key reads as some write of it in the log: a value that
   was put, or absent if it was never written, was deleted, or was put empty.
   */
  lemma ReadsSomeWrite(states: seq<Store>, steps: seq<Step>, n: nat, k: Key)
    requires IsRun(states, steps) && n < |states|
    ensures var s := states[n];
            match Reads(s.mem, s.tables, k)
            case Found(v) => exists w :: Wrote(s.log, k, w) && w.op == OP_PUT && w.value.Content() == v
            case NotFound => !Logged(s.log, k) || Deleted(s.log, k) || Wrote(s.log, k, Write(OP_PUT, Nil))
  {
    var s := states[n];
    RunSource(states, steps, n);
    RunInv(states, steps, n);
    SomeWrite(s, k);
  }

  lemma SomeWrite(s: Store, k: Key)
    requires SourceInv(s) && AllAccepted(s.log)
    ensures match Reads(s.mem, s.tables, k)
            case Found(v) => exists w :: Wrote(s.log, k, w) && w.op == OP_PUT && w.value.Content() == v
            case NotFound => !Logged(s.log, k) || Deleted(s.log, k) || Wrote(s.log, k, Write(OP_PUT, Nil))
  {
    if k in s.mem {
      WriteShows(s.log, k, s.mem[k]);
    } else if Find(s.tables, k).Hit? {
      FindWrote(s.tables, s.log[..s.flushed], k);
      var w :| Wrote(s.log[..s.flushed], k, w)
        && Find(s.tables, k) == (if w.op == OP_DELETE then Hit(Nil) else Hit(w.value));
      WroteMore(s.log[..s.flushed], s.log, k, w);
      WriteShows(s.log, k, w);
    }
  }

  /** What a logged write shows as. */
  lemma WriteShows(rs: seq<Record>, k: Key, w: Write)
    requires AllAccepted(rs) && Wrote(rs, k, w)
    ensures w.op == OP_DELETE ==> Deleted(rs, k)
    ensures w.op != OP_DELETE ==> w.op == OP_PUT
    ensures w.op != OP_DELETE && w.value.Nil? ==> Wrote(rs, k, Write(OP_PUT, Nil))
  {
    var i :| 0 <= i < |rs| && rs[i].key == k && rs[i].op == w.op && rs[i].value.Content() == w.value.Content();
    assert Accepts(rs[i]);
  }

  // ---- serving a log again ----

  /** A write other than a put of nil, a flush, or a compaction that keeps what is read of the key. */
  ghost predicate Harmless(s: Store, step: Step, k: Key) {
    match step
    case DoWrite(r) => Solid(r, false)
    case DoFlush(_) => true
    case DoCompact(_) => |s.tables| >= 2 && CompactKeeps(s, k)
    case DoCrash(_) => false
  }

  /** From state `m` to state `n` there are only such steps. */
  ghost predicate Serving(states: seq<Store>, steps: seq<Step>, m: nat, n: nat, k: Key) {
    && IsRun(states, steps) && m <= n < |states|
    && forall i :: m <= i < n ==> Harmless(states[i], steps[i], k)
  }

  /** If `w` is about the key, it reads as its last write in `w`. */
  ghost predicate Healed(s: Store, w: seq<Record>, k: Key) {
    Logged(w, k) ==>
      && Reads(s.mem, s.tables, k) == View(Replay(map[], w), k)
      && (k in s.mem && s.mem[k].op != OP_DELETE ==> s.mem[k].value.Of?)
  }

  lemma WriteHeals(s: Store, w: seq<Record>, r: Record, k: Key)
    requires Healed(s, w, k) && Accepts(r) && Solid(r, false)
    ensures Healed(Exec(s, DoWrite(r)), w + [r], k)
  {
    ReplayAppend(map[], w, [r]);
    assert [r][1..] == [];
    var t := Replay(map[], w);
    assert Replay(t, [r]) == Apply(t, r);
    if Logged(w + [r], k) && k != r.key {
      var i :| 0 <= i < |w + [r]| && (w + [r])[i].key == k;
      assert w[i].key == k;
      assert Logged(w, k);
    }
  }

  /** What a step adds to the log. */
  function Added(step: Step): seq<Record> {
    if step.DoWrite? then [step.record] else []
  }

  lemma HarmlessStep(s: Store, step: Step, w: seq<Record>, k: Key)
    requires Descending(s.tables) && Enabled(s, step) && Harmless(s, step, k) && Healed(s, w, k)
    ensures Exec(s, step).log == s.log + Added(step) && Healed(Exec(s, step), w + Added(step), k)
  {
    match step
    case DoWrite(r) => WriteHeals(s, w, r, k);
    case DoFlush(name) =>
      FlushExact(s.mem, s.tables, name, k);
      assert w + [] == w;
    case DoCompact(name) =>
      CompactExact(s, name, k);
      assert w + [] == w;
  }

  /** While serving, the log grows, and the key, if it was written since, reads as last written. */
  lemma {:induction false} ServedReads(states: seq<Store>, steps: seq<Step>, m: nat, n: nat, k: Key)
    requires Serving(states, steps, m, n, k)
    ensures states[m].log <= states[n].log && Healed(states[n], states[n].log[|states[m].log|..], k)
    decreases n
  {
    if m < n {
      var s, step, from := states[n - 1], steps[n - 1], |states[m].log|;
      ServedReads(states, steps, m, n - 1, k);
      RunInv(states, steps, n - 1);
      assert Enabled(s, step) && Harmless(s, step, k);
      HarmlessStep(s, step, s.log[from..], k);
      assert (s.log + Added(step))[from..] == s.log[from..] + Added(step);
    }
  }

  /**
   Writing a log again heals: whatever happened before, compactions and crashes included, once every key
   written so far has been written again, a key reads as its last write since.
   */
  lemma WritingAgainHeals(states: seq<Store>, steps: seq<Step>, m: nat, n: nat, w: seq<Record>, k: Key)
    requires Serving(states, steps, m, n, k) && states[n].log == states[m].log + w
    requires Logged(states[m].log, k) ==> Logged(w, k)
    ensures Reads(states[n].mem, states[n].tables, k) == View(Replay(map[], w), k)
  {
    var s := states[n];
    ServedReads(states, steps, m, n, k);
    assert s.log[|states[m].log|..] == w;
    if !Logged(w, k) {
      RunInv(states, steps, n);
      NotLogged(states[m].log, w, k);
      Unwritten(s, k);
      AcceptedPart(s.log, w, |states[m].log|);
      ReplayKeys(map[], w, k);
    }
  }

  /** A compaction at that point leaves the key right exactly if it keeps what is read of it. */
  lemma CompactionSpoilsExactly(states: seq<Store>, steps: seq<Step>, m: nat, n: nat, w: seq<Record>, k: Key)
    requires Serving(states, steps, m, n, k) && n < |steps| && steps[n].DoCompact?
    requires states[n].log == states[m].log + w && (Logged(states[m].log, k) ==> Logged(w, k))
    ensures |states[n].tables| >= 4
    ensures Reads(states[n + 1].mem, states[n + 1].tables, k) == View(Replay(map[], w), k)
            <==> CompactKeeps(states[n], k)
  {
    WritingAgainHeals(states, steps, m, n, w, k);
    CompactExactInRuns(states, steps, n, k);
  }

  lemma AcceptedPart(log: seq<Record>, w: seq<Record>, from: nat)
    requires AllAccepted(log) && from <= |log| && w == log[from..]
    ensures AllAccepted(w)
  {}

  lemma NotLogged(a: seq<Record>, b: seq<Record>, k: Key)
    requires !Logged(a, k) && !Logged(b, k)
    ensures !Logged(a + b, k)
  {
    forall i | 0 <= i < |a + b|
      ensures (a + b)[i].key != k
    {
      assert (a + b)[i] == if i < |a| then a[i] else b[i - |a|];
    }
  }

  lemma FoundIsLogged(s: Store, k: Key)
    requires Inv(s) && Find(s.tables, k).Hit?
    ensures Logged(s.log, k)
  {
    FindLogged(s.tables, s.log[..s.flushed], k);
    LoggedMore(s.log[..s.flushed], s.log, k);
  }

  /** A key that no record is about is nowhere. */
  lemma Unwritten(s: Store, k: Key)
    requires Inv(s) && !Logged(s.log, k)
    ensures Reads(s.mem, s.tables, k) == NotFound
  {
    if Find(s.tables, k).Hit? {
      FoundIsLogged(s, k);
      assert false;
    }
  }

  // ---- runs in which a read changes without a write ----

  /** The entries of this MemTable weigh enough for the engine to flush it. */
  ghost predicate Full(mem: Table) {
    forall es :: SkipList.Sorted(es) && SkipList.ToTable(es) == mem ==> MemTables.Footprint(es) >= MemTables.MAX_SIZE
  }

  lemma FullByValue(mem: Table, k: Key)
    requires k in mem && |mem[k].value.Content()| >= MemTables.MAX_SIZE
    ensures Full(mem)
  {
    forall es | SkipList.Sorted(es) && SkipList.ToTable(es) == mem
      ensures MemTables.Footprint(es) >= MemTables.MAX_SIZE
    {
      MemTables.FootprintCovers(es, k);
    }
  }

  /** Flushes fall where the engine flushes: right behind a write, on a full MemTable. */
  ghost predicate FlushesDue(states: seq<Store>, steps: seq<Step>) {
    && |states| == |steps| + 1
    && forall i :: 0 <= i < |steps| && steps[i].DoFlush? ==> i > 0 && steps[i - 1].DoWrite? && Full(states[i].mem)
  }

  function PutOf(k: Key, v: seq<byte>): Record {
    Record(OP_PUT, k, Of(v))
  }

  function OneKey(k: Key, v: seq<byte>): Table {
    map[k := Write(OP_PUT, Of(v))]
  }

  lemma PutOnEmpty(k: Key, v: seq<byte>)
    ensures Apply(map[], PutOf(k, v)) == OneKey(k, v) == StoredTable(OneKey(k, v))
  {}

  /** A write of the key into an empty MemTable, and its flush. */
  lemma WriteAndFlush(s: Store, k: Key, v: seq<byte>, name: Key)
    requires s.mem == map[] && k != [] && |k| <= MAX_KEY && |v| < U32 && NewestName(s.tables, name)
    ensures Enabled(s, DoWrite(PutOf(k, v)))
    ensures var s1 := Exec(s, DoWrite(PutOf(k, v)));
            && Enabled(s1, DoFlush(name)) && (|v| >= MemTables.MAX_SIZE ==> Full(s1.mem))
            && Exec(s1, DoFlush(name))
               == Store(s.log + [PutOf(k, v)], map[], [Named(name, OneKey(k, v))] + s.tables, |s.log| + 1)
  {
    PutOnEmpty(k, v);
    assert k in OneKey(k, v);
    if |v| >= MemTables.MAX_SIZE {
      FullByValue(OneKey(k, v), k);
    }
  }

  lemma ExtendRun(states: seq<Store>, steps: seq<Step>, step: Step)
    requires IsRun(states, steps) && Enabled(states[|steps|], step)
    ensures IsRun(states + [Exec(states[|steps|], step)], steps + [step])
  {}

  lemma RunWriteAndFlush(states: seq<Store>, steps: seq<Step>, k: Key, v: seq<byte>, name: Key)
    returns (states': seq<Store>, steps': seq<Step>)
    requires IsRun(states, steps) && states[|steps|].mem == map[] && k != [] && |k| <= MAX_KEY && |v| < U32
    requires NewestName(states[|steps|].tables, name)
    ensures IsRun(states', steps') && |steps'| == |steps| + 2
    ensures FlushesDue(states, steps) && |v| >= MemTables.MAX_SIZE ==> FlushesDue(states', steps')
    ensures var s, s' := states[|steps|], states'[|steps'|];
            s' == Store(s.log + [PutOf(k, v)], map[], [Named(name, OneKey(k, v))] + s.tables, |s.log| + 1)
  {
    var s := states[|steps|];
    WriteAndFlush(s, k, v, name);
    var s1 := Exec(s, DoWrite(PutOf(k, v)));
    ExtendRun(states, steps, DoWrite(PutOf(k, v)));
    ExtendRun(states + [s1], steps + [DoWrite(PutOf(k, v))], DoFlush(name));
    states' := states + [s1] + [Exec(s1, DoFlush(name))];
    steps' := steps + [DoWrite(PutOf(k, v))] + [DoFlush(name)];
  }

  /** Four tables about one key, the newest with another value, and nothing in the MemTable. */
  lemma FourTables(k: Key, v: seq<byte>, w: seq<byte>) returns (states: seq<Store>, steps: seq<Step>)
    requires k != [] && |k| <= MAX_KEY && |v| < U32 && |w| < U32
    ensures |steps| == 8 && IsRun(states, steps) && states[8].mem == map[]
    ensures |v| >= MemTables.MAX_SIZE && |w| >= MemTables.MAX_SIZE ==> FlushesDue(states, steps)
    ensures states[8].log == [PutOf(k, v), PutOf(k, v), PutOf(k, v), PutOf(k, w)]
    ensures states[8].tables == [Named([3], OneKey(k, w)), Named([2], OneKey(k, v))]
                                + [Named([1], OneKey(k, v)), Named([0], OneKey(k, v))]
  {
    states, steps := [EMPTY], [];
    states, steps := RunWriteAndFlush(states, steps, k, v, [0]);
    states, steps := RunWriteAndFlush(states, steps, k, v, [1]);
    states, steps := RunWriteAndFlush(states, steps, k, v, [2]);
    states, steps := RunWriteAndFlush(states, steps, k, w, [3]);
  }

  /**
   Two replicas with the same log that answer a key differently: the run up to the last flush reads the
   newest value, and one compaction later, with nothing written, the old value. With values that fill a
   MemTable the flushes are the engine's own.
   */
  lemma CompactionDiverges(k: Key, v: seq<byte>, w: seq<byte>) returns (states: seq<Store>, steps: seq<Step>)
    requires k != [] && |k| <= MAX_KEY && |v| < U32 && |w| < U32 && v != w
    ensures |steps| == 9 && IsRun(states, steps) && IsRun(states[..9], steps[..8]) && steps[8].DoCompact?
    ensures states[8].log == states[9].log == [PutOf(k, v), PutOf(k, v), PutOf(k, v), PutOf(k, w)]
    ensures |v| >= MemTables.MAX_SIZE && |w| >= MemTables.MAX_SIZE ==> FlushesDue(states, steps)
    ensures Reads(states[8].mem, states[8].tables, k) == Found(w)
    ensures Reads(states[9].mem, states[9].tables, k) == Found(v)
  {
    var before, done := FourTables(k, v, w);
    var s := before[8];
    OldValueReturns(k, v, w);
    assert Live(OneKey(k, v) + OneKey(k, v)) == OneKey(k, v);
    assert k in OneKey(k, v);
    ExtendRun(before, done, DoCompact([4]));
    states, steps := before + [Exec(s, DoCompact([4]))], done + [DoCompact([4])];
    assert states[..9] == before && steps[..8] == done;
  }

  /** What a crash makes of a log of one put of an empty value: the key, with nil. */
  lemma EmptyRecovered(k: Key)
    requires k != [] && |k| <= READABLE_KEY
    ensures var r := PutOf(k, []);
            var s := Exec(EMPTY, DoWrite(r));
            && Enabled(EMPTY, DoWrite(r)) && Enabled(s, DoCrash(RecordSize(r)))
            && s == Store([r], OneKey(k, []), [], 0)
            && Exec(s, DoCrash(RecordSize(r))) == Store([r], map[k := Write(OP_PUT, Nil)], [], 0)
  {
    var r := PutOf(k, []);
    var size := RecordSize(r);
    assert [r][1..] == [];
    assert TotalSize([r]) == size && TotalSize([r][..0]) == 0;
    assert WholeCount([r], size) == 1 && Left([r], size) == [r];
    assert NormalAll([r]) == [Record(OP_PUT, k, Nil)];
    assert NormalAll([r])[1..] == [];
    var nil := map[k := Write(OP_PUT, Nil)];
    assert Replay(map[], NormalAll([r])) == Replay(nil, []) == nil;
  }

  /** A write of another key fills the MemTable, and the flush turns the nil into an empty value. */
  lemma NilFlushed(s: Store, k: Key, other: Key, v: seq<byte>)
    requires s.mem == map[k := Write(OP_PUT, Nil)] && s.tables == []
    requires other != [] && |other| <= MAX_KEY && other != k && MemTables.MAX_SIZE <= |v| < U32
    ensures var s1 := Exec(s, DoWrite(PutOf(other, v)));
            var s2 := Exec(s1, DoFlush([0]));
            && Enabled(s, DoWrite(PutOf(other, v))) && Enabled(s1, DoFlush([0])) && Full(s1.mem)
            && s1.log == s2.log == s.log + [PutOf(other, v)]
            && Reads(s1.mem, s1.tables, k) == NotFound && Reads(s2.mem, s2.tables, k) == Found([])
  {
    var s1 := Exec(s, DoWrite(PutOf(other, v)));
    assert other in s1.mem && k in s1.mem;
    FullByValue(s1.mem, other);
    FindOne(Named([0], StoredTable(s1.mem)), k);
  }

  /**
   A put of an empty value, a crash, and a write of another key that fills the MemTable, so that it is
   flushed: the key reads as found, absent, absent and found again, with one write of it.
   */
  lemma EmptyComesAndGoes(k: Key, other: Key, v: seq<byte>) returns (states: seq<Store>, steps: seq<Step>)
    requires k != [] && |k| <= READABLE_KEY && other != [] && |other| <= MAX_KEY && other != k
    requires MemTables.MAX_SIZE <= |v| < U32
    ensures |steps| == 4 && IsRun(states, steps) && FlushesDue(states, steps)
    ensures steps[1] == DoCrash(TotalSize(states[1].log)) && steps[2] == DoWrite(PutOf(other, v)) && steps[3].DoFlush?
    ensures states[1].log == states[2].log == [PutOf(k, [])] && states[4].log == [PutOf(k, []), PutOf(other, v)]
    ensures Reads(states[1].mem, states[1].tables, k) == Found([])
    ensures Reads(states[2].mem, states[2].tables, k) == NotFound
    ensures Reads(states[3].mem, states[3].tables, k) == NotFound
    ensures Reads(states[4].mem, states[4].tables, k) == Found([])
  {
    var r := PutOf(k, []);
    EmptyRecovered(k);
    assert [r][1..] == [];
    assert TotalSize([r]) == RecordSize(r);
    var s1 := Store([r], OneKey(k, []), [], 0);
    var s2 := Store([r], map[k := Write(OP_PUT, Nil)], [], 0);
    NilFlushed(s2, k, other, v);
    states, steps := FourSteps(s1, s2, [DoWrite(r), DoCrash(RecordSize(r)), DoWrite(PutOf(other, v)), DoFlush([0])]);
  }

  lemma FourSteps(s1: Store, s2: Store, todo: seq<Step>) returns (states: seq<Store>, steps: seq<Step>)
    requires |todo| == 4 && Enabled(EMPTY, todo[0]) && s1 == Exec(EMPTY, todo[0])
    requires Enabled(s1, todo[1]) && s2 == Exec(s1, todo[1]) && Enabled(s2, todo[2])
    requires todo[2].DoWrite? && Enabled(Exec(s2, todo[2]), todo[3]) && Full(Exec(s2, todo[2]).mem)
    requires !todo[0].DoFlush? && !todo[1].DoFlush?
    ensures steps == todo && IsRun(states, steps) && FlushesDue(states, steps)
    ensures states[1] == s1 && states[2] == s2
    ensures states[3] == Exec(s2, todo[2]) && states[4] == Exec(states[3], todo[3])
  {
    var s3 := Exec(s2, todo[2]);
    steps := todo;
    states := [EMPTY, s1, s2, s3, Exec(s3, todo[3])];
  }
}
