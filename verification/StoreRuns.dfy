/**
 Runs of the store with one writer: writes, flushes and compactions wherever they fall, and
 crashes that cut the write-ahead log.
 */
module StoreRuns {
  import opened Bytes
  import opened Storage
  import opened Wal
  import opened Compaction
  import opened Lsm

  /** The log as written, the MemTable, the tables newest first, and how much of the log was there at the last flush. */
  datatype Store = Store(log: seq<Record>, mem: Table, tables: seq<Named>, flushed: nat)

  const EMPTY := Store([], map[], [], 0)

  datatype Step =
    | DoWrite(record: Record)
    | DoFlush(name: Key)
    | DoCompact(name: Key)
    | DoCrash(cut: nat)

  /** What the engine lets into the log. */
  predicate Accepts(r: Record) {
    && r.key != [] && Fits(r)
    && (r.op == OP_PUT || (r.op == OP_DELETE && r.value == Nil))
  }

  ghost predicate NewestName(ts: seq<Named>, name: Key) {
    forall i :: 0 <= i < |ts| ==> Less(ts[i].name, name)
  }

  /** The records that a crash at byte `cut` leaves. */
  function Left(log: seq<Record>, cut: nat): seq<Record> {
    log[..WholeCount(log, cut)]
  }

  /** Every append is on disk before it returns, so a crash cuts nothing that was flushed. */
  ghost predicate Enabled(s: Store, step: Step) {
    match step
    case DoWrite(r) => Accepts(r)
    case DoFlush(name) => s.mem != map[] && NewestName(s.tables, name)
    case DoCompact(name) => |s.tables| >= 4 && NewestName(s.tables, name)
    case DoCrash(cut) =>
      s.flushed <= |s.log| && TotalSize(s.log[..s.flushed]) <= cut <= TotalSize(s.log) && Readable(Left(s.log, cut))
  }

  function CompactTables(ts: seq<Named>, name: Key): seq<Named>
    requires |ts| >= 2
  {
    var newer, older := ts[|ts| - 2], ts[|ts| - 1];
    var content := Live(older.content + newer.content);
    if content == map[] then Survivors(ts, {newer.name, older.name})
    else Lsm.Replaced(ts, {newer.name, older.name}, Named(name, content))
  }

  function Exec(s: Store, step: Step): Store {
    match step
    case DoWrite(r) => s.(log := s.log + [r], mem := Apply(s.mem, r))
    case DoFlush(name) =>
      Store(s.log, map[], [Named(name, StoredTable(s.mem))] + s.tables, |s.log|)
    case DoCompact(name) => if |s.tables| >= 2 then s.(tables := CompactTables(s.tables, name)) else s
    case DoCrash(cut) =>
      var kept := Left(s.log, cut);
      Store(kept, Replay(map[], NormalAll(kept)), s.tables, s.flushed)
  }

  ghost predicate IsRun(states: seq<Store>, steps: seq<Step>) {
    && |states| == |steps| + 1
    && states[0] == EMPTY
    && forall i :: 0 <= i < |steps| ==> Enabled(states[i], steps[i]) && states[i + 1] == Exec(states[i], steps[i])
  }

  // ---- what is written about ----

  ghost predicate Logged(rs: seq<Record>, k: Key) {
    exists i :: 0 <= i < |rs| && rs[i].key == k
  }

  ghost predicate AllAccepted(rs: seq<Record>) {
    forall i :: 0 <= i < |rs| ==> Accepts(rs[i])
  }

  ghost predicate TablesLogged(ts: seq<Named>, rs: seq<Record>) {
    forall i, k :: 0 <= i < |ts| && k in ts[i].content ==> Logged(rs, k)
  }

  /** Every key in a table was written in the part of the log that was there at the last flush. */
  ghost predicate Inv(s: Store) {
    && s.flushed <= |s.log| && AllAccepted(s.log)
    && (forall k :: k in s.mem ==> Logged(s.log, k))
    && TablesLogged(s.tables, s.log[..s.flushed])
    && Descending(s.tables)
  }

  lemma {:induction false} ReplayKeys(t: Table, rs: seq<Record>, k: Key)
    requires AllAccepted(rs)
    ensures k in Replay(t, NormalAll(rs)) <==> k in t || Logged(rs, k)
    ensures k in Replay(t, rs) <==> k in t || Logged(rs, k)
    decreases |rs|
  {
    if rs != [] {
      assert NormalAll(rs)[1..] == NormalAll(rs[1..]);
      ReplayKeys(Apply(t, Normal(rs[0])), rs[1..], k);
      ReplayKeys(Apply(t, rs[0]), rs[1..], k);
      LoggedFirst(rs, k);
    }
  }

  lemma LoggedFirst(rs: seq<Record>, k: Key)
    requires rs != []
    ensures Logged(rs, k) <==> rs[0].key == k || Logged(rs[1..], k)
  {
    if Logged(rs[1..], k) {
      var i :| 0 <= i < |rs[1..]| && rs[1..][i].key == k;
      assert rs[i + 1].key == k;
    }
    if Logged(rs, k) {
      var i :| 0 <= i < |rs| && rs[i].key == k;
      assert i > 0 ==> rs[1..][i - 1].key == k;
    }
  }

  lemma LoggedMore(rs: seq<Record>, ss: seq<Record>, k: Key)
    requires Logged(rs, k) && rs <= ss
    ensures Logged(ss, k)
  {
    var i :| 0 <= i < |rs| && rs[i].key == k;
    assert ss[i].key == k;
  }

  /** A cut that spares a prefix keeps it whole. */
  lemma {:induction false} WholeCovers(rs: seq<Record>, n: nat, cut: nat)
    requires n <= |rs| && TotalSize(rs[..n]) <= cut
    ensures WholeCount(rs, cut) >= n
    decreases n
  {
    if n > 0 {
      assert rs[..n][1..] == rs[1..][..n - 1];
      WholeCovers(rs[1..], n - 1, cut - RecordSize(rs[0]));
    }
  }

  // ---- the steps keep the invariant ----

  lemma FlushInv(s: Store, name: Key)
    requires Inv(s) && NewestName(s.tables, name)
    ensures Inv(Exec(s, DoFlush(name)))
  {
    var s' := Exec(s, DoFlush(name));
    assert s.log[..|s.log|] == s.log;
    forall i, k | 0 <= i < |s'.tables| && k in s'.tables[i].content
      ensures Logged(s.log, k)
    {
      if i > 0 {
        assert s'.tables[i] == s.tables[i - 1];
        LoggedMore(s.log[..s.flushed], s.log, k);
      }
    }
  }

  lemma WriteInv(s: Store, r: Record)
    requires Inv(s) && Accepts(r)
    ensures Inv(Exec(s, DoWrite(r)))
  {
    var s' := Exec(s, DoWrite(r));
    assert s'.log[..s.flushed] == s.log[..s.flushed];
    forall k | k in s'.mem
      ensures Logged(s'.log, k)
    {
      if k in s.mem {
        LoggedMore(s.log, s'.log, k);
      } else {
        assert s'.log[|s.log|].key == k;
      }
    }
  }

  lemma CrashInv(s: Store, cut: nat)
    requires Inv(s) && TotalSize(s.log[..s.flushed]) <= cut
    ensures Inv(Exec(s, DoCrash(cut)))
  {
    var kept := Left(s.log, cut);
    WholeCovers(s.log, s.flushed, cut);
    assert kept[..s.flushed] == s.log[..s.flushed];
    forall k | k in Replay(map[], NormalAll(kept))
      ensures Logged(kept, k)
    {
      ReplayKeys(map[], kept, k);
    }
  }

  /** The list after a compaction: survivors in their order, and the merge in front. */
  lemma CompactShape(ts: seq<Named>, name: Key)
    requires |ts| >= 2 && Descending(ts) && NewestName(ts, name)
    ensures var newer, older := ts[|ts| - 2], ts[|ts| - 1];
            var rest, content := ts[..|ts| - 2], Live(older.content + newer.content);
            CompactTables(ts, name) == if content == map[] then rest else [Named(name, content)] + rest
  {
    var newer, older := ts[|ts| - 2], ts[|ts| - 1];
    var rest, content := ts[..|ts| - 2], Live(older.content + newer.content);
    assert ts == rest + [newer, older];
    RestSurvives(rest, newer, older);
    forall i | 0 <= i < |rest|
      ensures rest[i].name != name && !Less(name, rest[i].name)
    {
      assert rest[i] == ts[i];
      LessAsymmetric(rest[i].name, name);
    }
    PlacedByName(rest, newer, older, Named(name, content));
    assert Above(rest, name) == [];
    assert rest[..0] + [Named(name, content)] + rest[0..] == [Named(name, content)] + rest;
  }

  /** A list of tables after a compaction under the newest name. */
  function InFront(name: Key, content: Table, rest: seq<Named>): seq<Named> {
    if content == map[] then rest else [Named(name, content)] + rest
  }

  lemma CompactParts(ts: seq<Named>, name: Key) returns (rest: seq<Named>, newer: Named, older: Named)
    requires |ts| >= 2 && Descending(ts) && NewestName(ts, name)
    ensures ts == rest + [newer, older] && rest == ts[..|ts| - 2] && newer == ts[|ts| - 2] && older == ts[|ts| - 1]
    ensures CompactTables(ts, name) == InFront(name, Live(older.content + newer.content), rest)
  {
    rest, newer, older := ts[..|ts| - 2], ts[|ts| - 2], ts[|ts| - 1];
    CompactShape(ts, name);
  }

  lemma {:induction false} InFrontLogged(rest: seq<Named>, newer: Named, older: Named, name: Key, rs: seq<Record>)
    requires TablesLogged(rest + [newer, older], rs)
    ensures TablesLogged(InFront(name, Live(older.content + newer.content), rest), rs)
  {
    var ts := rest + [newer, older];
    assert ts[|rest|] == newer && ts[|rest| + 1] == older;
    forall i, k | 0 <= i < |rest| && k in rest[i].content
      ensures Logged(rs, k)
    {
      assert rest[i] == ts[i];
    }
  }

  lemma {:induction false} InFrontDescends(rest: seq<Named>, newer: Named, older: Named, name: Key, content: Table)
    requires Descending(rest + [newer, older]) && NewestName(rest + [newer, older], name)
    ensures Descending(InFront(name, content, rest))
  {
    var ts := rest + [newer, older];
    assert forall i :: 0 <= i < |rest| ==> rest[i] == ts[i];
  }

  lemma CompactInv(s: Store, name: Key)
    requires Inv(s) && |s.tables| >= 4 && NewestName(s.tables, name)
    ensures Inv(Exec(s, DoCompact(name)))
  {
    var rest, newer, older := CompactParts(s.tables, name);
    InFrontLogged(rest, newer, older, name, s.log[..s.flushed]);
    InFrontDescends(rest, newer, older, name, Live(older.content + newer.content));
  }

  lemma StepInv(s: Store, step: Step)
    requires Inv(s) && Enabled(s, step)
    ensures Inv(Exec(s, step))
  {
    match step
    case DoWrite(r) => WriteInv(s, r);
    case DoFlush(name) => FlushInv(s, name);
    case DoCompact(name) => CompactInv(s, name);
    case DoCrash(cut) => CrashInv(s, cut);
  }

  lemma {:induction false} RunInv(states: seq<Store>, steps: seq<Step>, n: nat)
    requires IsRun(states, steps) && n < |states|
    ensures Inv(states[n])
    decreases n
  {
    if n > 0 {
      RunInv(states, steps, n - 1);
      StepInv(states[n - 1], steps[n - 1]);
    }
  }

  // ---- crash recovery ----

  lemma {:induction false} FindLogged(ts: seq<Named>, rs: seq<Record>, k: Key)
    requires TablesLogged(ts, rs) && Find(ts, k).Hit?
    ensures Logged(rs, k)
    decreases |ts|
  {
    if k !in ts[0].content {
      FindLogged(ts[1..], rs, k);
    }
  }

  /** The table that normalised records leave. */
  function NormalTable(t: Table): Table {
    map k | k in t :: Write(t[k].op, if t[k].value.Content() == [] then Nil else t[k].value)
  }

  lemma ApplyNormal(t: Table, r: Record)
    ensures Apply(NormalTable(t), Normal(r)) == NormalTable(Apply(t, r))
  {}

  lemma {:induction false} ReplayNormal(t: Table, rs: seq<Record>)
    ensures Replay(NormalTable(t), NormalAll(rs)) == NormalTable(Replay(t, rs))
    decreases |rs|
  {
    if rs != [] {
      assert NormalAll(rs)[1..] == NormalAll(rs[1..]);
      ApplyNormal(t, rs[0]);
      ReplayNormal(Apply(t, rs[0]), rs[1..]);
    }
  }

  /** The last write of the key is a put of an empty value. */
  ghost predicate EmptyPut(rs: seq<Record>, k: Key) {
    var t := Replay(map[], rs);
    k in t && t[k].op != OP_DELETE && t[k].value == Of([])
  }

  /** Reading the log back loses exactly the puts of empty values. */
  lemma NormalExact(rs: seq<Record>, k: Key)
    ensures View(Replay(map[], NormalAll(rs)), k) == View(Replay(map[], rs), k) <==> !EmptyPut(rs, k)
  {
    ReplayNormal(map[], rs);
    assert NormalTable(map[]) == map[];
  }

  /**
   Crash recovery, at any byte of the log behind the last flush, after any run of writes, flushes,
   compactions and earlier crashes: the log is read back, and with the replayed MemTable in front
   of whatever tables there are, every key reads as the last of its writes wholly on disk,
   unless that write is a put of an empty value, which reads as absent.
   */
  lemma CrashRecovery(crc: Checksum, states: seq<Store>, steps: seq<Step>, n: nat, cut: nat, k: Key)
    requires IsRun(states, steps) && n < |states| && Enabled(states[n], DoCrash(cut))
    ensures var s := states[n];
            var kept := Left(s.log, cut);
            var s' := Exec(s, DoCrash(cut));
            && cut <= |EncodeAll(crc, s.log)|
            && Read(crc, EncodeAll(crc, s.log)[..cut]) == Records(NormalAll(kept))
            && Reads(s'.mem, s'.tables, k) == View(Replay(map[], NormalAll(kept)), k)
            && (Reads(s'.mem, s'.tables, k) == View(Replay(map[], kept), k) <==> !EmptyPut(kept, k))
  {
    var s := states[n];
    RunInv(states, steps, n);
    EncodedSize(crc, s.log);
    TornTail(crc, s.log, cut);
    RecoveredReads(s, cut, k);
    NormalExact(Left(s.log, cut), k);
  }

  /** Whatever the tables hold, the replayed log shadows it. */
  lemma RecoveredReads(s: Store, cut: nat, k: Key)
    requires Inv(s) && TotalSize(s.log[..s.flushed]) <= cut
    ensures var s' := Exec(s, DoCrash(cut)); Reads(s'.mem, s'.tables, k) == View(s'.mem, k)
  {
    var kept := Left(s.log, cut);
    WholeCovers(s.log, s.flushed, cut);
    assert s.log[..s.flushed] <= kept;
    ReplayKeys(map[], kept, k);
    if k !in Replay(map[], NormalAll(kept)) && Find(s.tables, k).Hit? {
      FindLogged(s.tables, s.log[..s.flushed], k);
      LoggedMore(s.log[..s.flushed], kept, k);
      assert false;
    }
  }

  /**
   Were flushed records to be cut off as well, a key would read right exactly if it is in what is left of
   the log, or no table shows it.
   */
  lemma AnyCutExact(s: Store, cut: nat, k: Key)
    requires Inv(s)
    ensures var s' := Exec(s, DoCrash(cut));
            Reads(s'.mem, s'.tables, k) == View(s'.mem, k)
            <==> Logged(s'.log, k) || Seen(Find(s.tables, k)) == NotFound
  {
    ReplayKeys(map[], Left(s.log, cut), k);
  }

  // ---- reads refine a map ----

  ghost predicate NoNilPuts(mem: Table) {
    forall k :: k in mem && mem[k].op != OP_DELETE ==> mem[k].value.Of?
  }

  /** A put has a value, and if the run may crash that value is not empty. */
  predicate Solid(r: Record, crashes: bool) {
    r.op == OP_PUT ==> r.value.Of? && (crashes ==> r.value.bytes != [])
  }

  ghost predicate AllSolid(rs: seq<Record>, crashes: bool) {
    forall i :: 0 <= i < |rs| ==> Solid(rs[i], crashes)
  }

  /** No compaction, and crashes only if values are never empty. */
  predicate Plain(step: Step, crashes: bool) {
    match step
    case DoWrite(r) => Solid(r, crashes)
    case DoFlush(_) => true
    case DoCompact(_) => false
    case DoCrash(_) => crashes
  }

  ghost predicate ReadsAsLogged(s: Store) {
    forall k :: Reads(s.mem, s.tables, k) == View(Replay(map[], s.log), k)
  }

  ghost predicate Refines(s: Store, crashes: bool) {
    NoNilPuts(s.mem) && AllSolid(s.log, crashes) && ReadsAsLogged(s)
  }

  lemma {:induction false} ReplaySolid(t: Table, rs: seq<Record>)
    requires NoNilPuts(t) && AllSolid(rs, true)
    ensures NoNilPuts(Replay(t, rs))
    decreases |rs|
  {
    if rs != [] {
      ReplaySolid(Apply(t, rs[0]), rs[1..]);
    }
  }

  lemma SolidIsNormal(rs: seq<Record>)
    requires AllSolid(rs, true) && AllAccepted(rs)
    ensures NormalAll(rs) == rs
  {
    forall i | 0 <= i < |rs|
      ensures NormalAll(rs)[i] == rs[i]
    {
      assert Solid(rs[i], true) && Accepts(rs[i]);
    }
  }

  lemma WriteRefines(s: Store, r: Record, crashes: bool)
    requires Refines(s, crashes) && Accepts(r) && Solid(r, crashes)
    ensures Refines(Exec(s, DoWrite(r)), crashes)
  {
    ReplayAppend(map[], s.log, [r]);
    assert [r][1..] == [];
    var t := Replay(map[], s.log);
    assert Replay(t, [r]) == Apply(t, r);
    forall k
      ensures Reads(Apply(s.mem, r), s.tables, k) == View(Apply(t, r), k)
    {
      assert k != r.key ==> Reads(s.mem, s.tables, k) == View(t, k);
    }
  }

  lemma FlushRefines(s: Store, name: Key, crashes: bool)
    requires Refines(s, crashes)
    ensures Refines(Exec(s, DoFlush(name)), crashes)
  {
    forall k
      ensures Reads(map[], [Named(name, StoredTable(s.mem))] + s.tables, k) == Reads(s.mem, s.tables, k)
    {
      FlushExact(s.mem, s.tables, name, k);
    }
  }

  lemma CrashRefines(s: Store, cut: nat)
    requires Inv(s) && Refines(s, true) && TotalSize(s.log[..s.flushed]) <= cut
    ensures Refines(Exec(s, DoCrash(cut)), true)
  {
    var kept := Left(s.log, cut);
    assert AllSolid(kept, true) && AllAccepted(kept);
    SolidIsNormal(kept);
    ReplaySolid(map[], kept);
    forall k
      ensures Reads(Replay(map[], kept), s.tables, k) == View(Replay(map[], kept), k)
    {
      RecoveredReads(s, cut, k);
    }
  }

  /**
   Wherever flushes fall, every key reads as its last write, deletes included; and if values are
   never empty this holds through crashes, for the writes that are left of the log.
   */
  lemma ReadsRefineMap(states: seq<Store>, steps: seq<Step>, n: nat, crashes: bool, k: Key)
    requires IsRun(states, steps) && n < |states|
    requires forall i :: 0 <= i < n ==> Plain(steps[i], crashes)
    ensures Reads(states[n].mem, states[n].tables, k) == View(Replay(map[], states[n].log), k)
  {
    RunRefines(states, steps, n, crashes);
  }

  lemma {:induction false} RunRefines(states: seq<Store>, steps: seq<Step>, n: nat, crashes: bool)
    requires IsRun(states, steps) && n < |states|
    requires forall i :: 0 <= i < n ==> Plain(steps[i], crashes)
    ensures Refines(states[n], crashes)
    decreases n
  {
    if n > 0 {
      var s, step := states[n - 1], steps[n - 1];
      RunRefines(states, steps, n - 1, crashes);
      RunInv(states, steps, n - 1);
      assert Enabled(s, step) && Plain(step, crashes);
      match step
      case DoWrite(r) => WriteRefines(s, r, crashes);
      case DoFlush(name) => FlushRefines(s, name, crashes);
      case DoCrash(cut) => CrashRefines(s, cut);
    }
  }
}
