/**
 The replicated state machine: commands as bytes, their effect on the storage engine, and what
 replicas that apply the same log have in common.
 */
module StateMachines {
  import opened Bytes
  import opened Storage
  import opened RaftTypes
  import opened RaftCluster
  import RaftSafety
  import Wal
  import StoreRuns
  import StoreReads
  import Lsm
  import Engines
  import MemTables
  import SkipList

  // ---- commands ----

  /** A command has the layout of the body of a log record. */
  function Encode(op: byte, key: Key, value: seq<byte>): seq<byte> {
    Wal.Body(op, key, value)
  }

  datatype Command = TooShort | Truncated | Command(op: byte, key: Key, value: seq<byte>)

  function Decode(data: seq<byte>): Command {
    if |data| < 7 then TooShort
    else
      var keyLen := FromBytes(data[1..3]);
      var valueLen := FromBytes(data[3..7]);
      if |data| < 7 + keyLen + valueLen then Truncated
      else Command(data[0], data[7..7 + keyLen], data[7 + keyLen..7 + keyLen + valueLen])
  }

  /** Commands decode to what was encoded, exactly if key and value fit their length fields. */
  lemma {:induction false} DecodeExact(op: byte, key: Key, value: seq<byte>)
    ensures Decode(Encode(op, key, value)) == Command(op, key, value) <==> |key| < U16 && |value| < U32
  {
    var data := Encode(op, key, value);
    assert data[1..3] == ToBytes(|key|, 2) && data[3..7] == ToBytes(|value|, 4);
    if |key| < U16 && |value| < U32 {
      RoundTrip16(|key|);
      RoundTrip32(|value|);
      assert data[7..7 + |key|] == key;
      assert data[7 + |key|..7 + |key| + |value|] == value;
    } else {
      Words();
      FieldBound(data[1..3]);
      FieldBound(data[3..7]);
    }
  }

  /** The buffer of the state machine's encoder, filled in place. */
  method EncodeCommand(op: byte, key: Key, value: seq<byte>) returns (buf: array<byte>)
    ensures fresh(buf) && buf[..] == Encode(op, key, value)
  {
    buf := new byte[1 + 2 + 4 + |key| + |value|](_ => 0);
    buf[0] := op;
    assert buf[..1] == [op];
    Wal.PutAt(buf, 1, ToBytes(|key|, 2));
    Wal.PutAt(buf, 3, ToBytes(|value|, 4));
    Wal.PutAt(buf, 7, key);
    Wal.PutAt(buf, 7 + |key|, value);
    assert buf[..] == buf[..7 + |key| + |value|];
  }

  /** The server's encoder writes the lengths byte by byte. */
  method EncodeCommandByShifts(op: byte, key: Key, value: seq<byte>) returns (buf: array<byte>)
    ensures fresh(buf) && buf[..] == Encode(op, key, value)
  {
    buf := new byte[1 + 2 + 4 + |key| + |value|](_ => 0);
    buf[0] := op;
    buf[1] := |key| % 256;
    buf[2] := |key| / 0x100 % 256;
    buf[3] := |value| % 256;
    buf[4] := |value| / 0x100 % 256;
    buf[5] := |value| / 0x1_0000 % 256;
    buf[6] := |value| / 0x100_0000 % 256;
    LengthBytes(|key|);
    LengthBytes(|value|);
    assert buf[..7] == [op] + ToBytes(|key|, 2) + ToBytes(|value|, 4);
    Wal.PutAt(buf, 7, key);
    Wal.PutAt(buf, 7 + |key|, value);
    assert buf[..] == buf[..7 + |key| + |value|];
  }

  lemma {:induction false} Halves(n: nat)
    ensures n / 256 / 256 == n / 0x1_0000
  {
    var q, r := n / 0x1_0000, n % 0x1_0000;
    assert n == 0x1_0000 * q + r;
    assert n / 256 == 256 * q + r / 256;
    assert 0 <= r / 256 < 256;
  }

  lemma {:induction false} LengthBytes(n: nat)
    ensures ToBytes(n, 2) == [n % 256, n / 0x100 % 256]
    ensures ToBytes(n, 4) == [n % 256, n / 0x100 % 256, n / 0x1_0000 % 256, n / 0x100_0000 % 256]
  {
    ShiftStep(n, 0);
    ShiftStep(n, 1);
    ShiftStep(n, 2);
    Halves(n);
    ThreeQuarters(n);
  }

  lemma {:induction false} ThreeQuarters(n: nat)
    ensures n / 0x1_0000 / 256 == n / 0x100_0000
  {
    var q, r := n / 0x100_0000, n % 0x100_0000;
    assert n == 0x100_0000 * q + r;
    assert n / 0x1_0000 == 256 * q + r / 0x1_0000;
    assert 0 <= r / 0x1_0000 < 256;
  }

  // ---- applying ----

  datatype Effect = Rejected | Writes(record: Record)

  /** The write a command asks the engine for; a command the engine or the decoder refuses has none. */
  function EffectOf(data: seq<byte>): Effect {
    match Decode(data)
    case TooShort => Rejected
    case Truncated => Rejected
    case Command(op, key, value) => WriteOf(op, key, value)
  }

  function WriteOf(op: byte, key: Key, value: seq<byte>): Effect {
    if key == [] then Rejected
    else if op == OP_PUT then Writes(Record(OP_PUT, key, Of(value)))
    else if op == OP_DELETE then Writes(Record(OP_DELETE, key, Nil))
    else Rejected
  }

  /** The command puts or deletes this key. */
  predicate About(data: seq<byte>, k: Key) {
    var c := Decode(data);
    c.Command? && c.key == k != [] && (c.op == OP_PUT || c.op == OP_DELETE)
  }

  /** The command puts or deletes some key. */
  predicate Understood(data: seq<byte>) {
    Decode(data).Command? && About(data, Decode(data).key)
  }

  /** What a reader gets after such a command. */
  function Outcome(data: seq<byte>): Lookup
    requires Decode(data).Command?
  {
    if Decode(data).op == OP_DELETE then NotFound else Found(Decode(data).value)
  }

  /** Encoded puts and deletes of a key have their effect exactly if key and value fit and the key is not empty. */
  lemma {:induction false} EncodedOutcome(op: byte, k: Key, v: seq<byte>)
    requires |k| < U16 && |v| < U32
    ensures var data := Encode(op, k, v);
            && (About(data, k) <==> k != [] && (op == OP_PUT || op == OP_DELETE))
            && Decode(data).Command? && Outcome(data) == if op == OP_DELETE then NotFound else Found(v)
  {
    DecodeExact(op, k, v);
  }

  /** A delete is written as one, without a value. */
  lemma {:induction false} DeleteEffect(k: Key, v: seq<byte>)
    requires k != [] && |k| < U16 && |v| < U32
    ensures EffectOf(Encode(OP_DELETE, k, v)) == Writes(Record(OP_DELETE, k, Nil))
  {
    DecodeExact(OP_DELETE, k, v);
  }

  /** What a replica has: the last index it applied and the writes it made. */
  datatype Replica = Replica(lastApplied: nat, written: seq<Record>)

  function Handle(r: Replica, msg: ApplyMsg): Replica {
    if msg.index <= r.lastApplied then r
    else
      match EffectOf(msg.command)
      case Rejected => r
      case Writes(w) => Replica(msg.index, r.written + [w])
  }

  function HandleAll(r: Replica, ms: seq<ApplyMsg>): Replica {
    if ms == [] then r else Handle(HandleAll(r, ms[..|ms| - 1]), ms[|ms| - 1])
  }

  /** The writes of a sequence of commands, rejected ones skipped. */
  function Effects(ms: seq<ApplyMsg>): seq<Record> {
    if ms == [] then []
    else
      match EffectOf(ms[|ms| - 1].command)
      case Rejected => Effects(ms[..|ms| - 1])
      case Writes(w) => Effects(ms[..|ms| - 1]) + [w]
  }

  /** Delivered in order from index 1 on. */
  ghost predicate InOrder(ms: seq<ApplyMsg>) {
    forall k :: 0 <= k < |ms| ==> ms[k].index == k + 1
  }

  /** A fresh replica that gets the log in order has made exactly the writes of its commands. */
  lemma {:induction false} WritesOfLog(ms: seq<ApplyMsg>, before: seq<Record>)
    requires InOrder(ms)
    ensures HandleAll(Replica(0, before), ms).written == before + Effects(ms)
    ensures HandleAll(Replica(0, before), ms).lastApplied <= |ms|
    decreases |ms|
  {
    if ms != [] {
      WritesOfLog(ms[..|ms| - 1], before);
    }
  }

  /** The engine's state after a command: the write, and a flush if that filled the MemTable. */
  function AfterCommand(s: StoreRuns.Store, data: seq<byte>, full: bool, name: Key): StoreRuns.Store {
    match EffectOf(data)
    case Rejected => s
    case Writes(w) =>
      var t := StoreRuns.Exec(s, StoreRuns.DoWrite(w));
      if full then StoreRuns.Exec(t, StoreRuns.DoFlush(name)) else t
  }

  /** Whether the write of the command fills the MemTable. */
  function Fills(mem: seq<SkipList.MemEntry>, size: int, data: seq<byte>): bool {
    match EffectOf(data)
    case Rejected => false
    case Writes(w) => MemTables.Charge(mem, size, SkipList.MemEntry(w.key, w.value, w.op)) >= MemTables.MAX_SIZE
  }

  /** The replica as it runs: the engine it writes to and the last index it applied. */
  class StateMachine {
    const engine: Engines.Engine
    var lastApplied: nat

    ghost function View(): Replica
      reads this, engine
    {
      Replica(lastApplied, engine.log)
    }

    constructor (engine: Engines.Engine)
      ensures this.engine == engine && lastApplied == 0
    {
      this.engine := engine;
      lastApplied := 0;
    }

    /** A message already applied is ignored; a command that is refused does not count as applied. */
    method HandleApplyMsg(msg: ApplyMsg, name: Key)
      requires engine.Valid()
      modifies this, engine, engine.wal
      ensures engine.Valid() && View() == Handle(old(View()), msg)
      ensures lastApplied == if msg.index > old(lastApplied) && Understood(msg.command) then msg.index
                             else old(lastApplied)
      ensures engine.State() ==
        if msg.index <= old(lastApplied) then old(engine.State())
        else AfterCommand(old(engine.State()), msg.command,
                          Fills(old(engine.mem), old(engine.memSize), msg.command), name)
    {
      if msg.index <= lastApplied { return; }
      var ok := ApplyCommand(msg.command, name);
      if ok {
        lastApplied := msg.index;
      }
    }

    /** The command is taken apart and handed to the engine. */
    method ApplyCommand(data: seq<byte>, name: Key) returns (ok: bool)
      requires engine.Valid()
      modifies engine, engine.wal
      ensures engine.Valid() && (ok <==> EffectOf(data).Writes?) && (ok <==> Understood(data))
      ensures engine.State() ==
        AfterCommand(old(engine.State()), data, Fills(old(engine.mem), old(engine.memSize), data), name)
      ensures engine.log == if ok then old(engine.log) + [EffectOf(data).record] else old(engine.log)
    {
      if |data| < 7 { return false; }
      var op := data[0];
      var keyLen := FromBytes(data[1..3]);
      var valueLen := FromBytes(data[3..7]);
      if |data| < 7 + keyLen + valueLen { return false; }
      var key := data[7..7 + keyLen];
      var value := data[7 + keyLen..7 + keyLen + valueLen];
      KeyFits(data);
      assert EffectOf(data) == WriteOf(op, key, value);
      ok := ApplyWrite(op, key, value, name);
    }

    method ApplyWrite(op: byte, key: Key, value: seq<byte>, name: Key) returns (ok: bool)
      requires engine.Valid() && |key| <= Wal.MAX_KEY
      modifies engine, engine.wal
      ensures engine.Valid() && (ok <==> WriteOf(op, key, value).Writes?)
      ensures engine.log == engine.State().log
      ensures !ok ==> engine.State() == old(engine.State())
      ensures ok ==>
        var w := WriteOf(op, key, value).record;
        var t := StoreRuns.Exec(old(engine.State()), StoreRuns.DoWrite(w));
        engine.State() ==
          if MemTables.Charge(old(engine.mem), old(engine.memSize), SkipList.MemEntry(w.key, w.value, w.op))
             >= MemTables.MAX_SIZE
          then StoreRuns.Exec(t, StoreRuns.DoFlush(name)) else t
    {
      var full;
      if op == OP_PUT {
        ok, full := engine.Put(key, Of(value), name);
      } else if op == OP_DELETE {
        ok, full := engine.Delete(key, name);
      } else {
        ok := false;
      }
    }
  }

  lemma {:induction false} KeyFits(data: seq<byte>)
    requires |data| >= 7
    ensures FromBytes(data[1..3]) <= Wal.MAX_KEY && FromBytes(data[3..7]) < U32
  {
    Words();
    FieldBound(data[1..3]);
    FieldBound(data[3..7]);
  }

  // ---- replay after a restart ----

  lemma {:induction false} EffectsPrefix(ms: seq<ApplyMsg>, n: nat)
    requires n <= |ms|
    ensures Effects(ms[..n]) <= Effects(ms)
    decreases |ms|
  {
    if n < |ms| {
      EffectsPrefix(ms[..|ms| - 1], n);
      assert ms[..|ms| - 1][..n] == ms[..n];
    } else {
      assert ms[..n] == ms;
    }
  }

  /** The run of a replica's store, the state in which its last incarnation began, and the state it is in. */
  datatype Journal = Journal(states: seq<StoreRuns.Store>, steps: seq<StoreRuns.Step>, start: nat, now: nat)

  /**
   Since it began, this incarnation wrote the effects of `ms`, with flushes wherever they fell, and every
   compaction kept what is read of `k`; before, there was any run of the store.
   */
  ghost predicate Applied(j: Journal, ms: seq<ApplyMsg>, k: Key) {
    && StoreReads.Serving(j.states, j.steps, j.start, j.now, k)
    && j.states[j.now].log == j.states[j.start].log + HandleAll(Replica(0, []), ms).written
  }

  lemma {:induction false} ServeMore(j: Journal, step: StoreRuns.Step, k: Key) returns (j': Journal)
    requires StoreReads.Serving(j.states, j.steps, j.start, j.now, k) && j.now == |j.steps|
    requires StoreRuns.Enabled(j.states[j.now], step) && StoreReads.Harmless(j.states[j.now], step, k)
    ensures StoreReads.Serving(j'.states, j'.steps, j'.start, j'.now, k) && j'.now == |j'.steps|
    ensures j'.start == j.start && j'.states[j.start] == j.states[j.start]
    ensures j'.states[j'.now] == StoreRuns.Exec(j.states[j.now], step)
  {
    StoreReads.ExtendRun(j.states, j.steps, step);
    var states, steps := j.states + [StoreRuns.Exec(j.states[j.now], step)], j.steps + [step];
    j' := Journal(states, steps, j.start, j.now + 1);
    forall i | j.start <= i < j.now + 1
      ensures StoreReads.Harmless(states[i], steps[i], k)
    {
      assert i < j.now ==> states[i] == j.states[i] && steps[i] == j.steps[i];
    }
  }

  lemma {:induction false} EffectAccepted(data: seq<byte>)
    requires EffectOf(data).Writes?
    ensures var w := EffectOf(data).record; StoreRuns.Accepts(w) && StoreRuns.Solid(w, false)
  {
    KeyFits(data);
  }

  function Written(e: Effect): seq<Record> {
    if e.Writes? then [e.record] else []
  }

  lemma {:induction false} HandledMore(ms: seq<ApplyMsg>, m: ApplyMsg)
    requires InOrder(ms + [m])
    ensures HandleAll(Replica(0, []), ms).lastApplied < m.index
    ensures HandleAll(Replica(0, []), ms + [m]).written
         == HandleAll(Replica(0, []), ms).written + Written(EffectOf(m.command))
  {
    assert (ms + [m])[..|ms|] == ms && (ms + [m])[|ms|] == m;
    assert InOrder(ms);
    WritesOfLog(ms, []);
  }

  /** A command where the journal ends, with a flush behind it or without. */
  lemma {:induction false} ServeCommand(j: Journal, data: seq<byte>, k: Key, full: bool, name: Key)
    returns (j': Journal)
    requires StoreReads.Serving(j.states, j.steps, j.start, j.now, k) && j.now == |j.steps|
    requires full ==> StoreRuns.NewestName(j.states[j.now].tables, name)
    ensures StoreReads.Serving(j'.states, j'.steps, j'.start, j'.now, k) && j'.now == |j'.steps|
    ensures j'.start == j.start && j'.states[j.start] == j.states[j.start]
    ensures j'.states[j'.now] == AfterCommand(j.states[j.now], data, full, name)
    ensures j'.states[j'.now].log == j.states[j.now].log + Written(EffectOf(data))
  {
    j' := j;
    if EffectOf(data).Writes? {
      var w := EffectOf(data).record;
      EffectAccepted(data);
      j' := ServeMore(j, StoreRuns.DoWrite(w), k);
      if full {
        assert w.key in j'.states[j'.now].mem;
        j' := ServeMore(j', StoreRuns.DoFlush(name), k);
      }
    }
  }

  /**
   A replica that handles one more message: it is not ignored, and what it makes of the engine's state, with a
   flush or without, continues the journal, which then stands for one message more.
   */
  lemma {:induction false} OneMoreMessage(j: Journal, ms: seq<ApplyMsg>, m: ApplyMsg, k: Key, full: bool, name: Key)
    returns (j': Journal)
    requires InOrder(ms + [m]) && Applied(j, ms, k) && j.now == |j.steps|
    requires full ==> StoreRuns.NewestName(j.states[j.now].tables, name)
    ensures HandleAll(Replica(0, []), ms).lastApplied < m.index
    ensures Applied(j', ms + [m], k) && j'.now == |j'.steps|
    ensures j'.start == j.start && j'.states[j'.start] == j.states[j.start]
    ensures j'.states[j'.now] == AfterCommand(j.states[j.now], m.command, full, name)
  {
    HandledMore(ms, m);
    j' := ServeCommand(j, m.command, k, full, name);
    JournalGrows(j, j', ms, m);
  }

  lemma {:induction false} JournalGrows(j: Journal, j': Journal, ms: seq<ApplyMsg>, m: ApplyMsg)
    requires j.start < |j.states| && j.now < |j.states| && j'.start < |j'.states| && j'.now < |j'.states|
    requires j.states[j.now].log == j.states[j.start].log + HandleAll(Replica(0, []), ms).written
    requires HandleAll(Replica(0, []), ms + [m]).written
          == HandleAll(Replica(0, []), ms).written + Written(EffectOf(m.command))
    requires j'.states[j'.start] == j.states[j.start]
    requires j'.states[j'.now].log == j.states[j.now].log + Written(EffectOf(m.command))
    ensures j'.states[j'.now].log == j'.states[j'.start].log + HandleAll(Replica(0, []), ms + [m]).written
  {}

  /** What a reader of the replica gets. */
  function Answers(j: Journal, k: Key): Lookup
    requires j.now < |j.states|
  {
    Lsm.Reads(j.states[j.now].mem, j.states[j.now].tables, k)
  }

  /**
   Replay after a restart: a replica whose earlier incarnations wrote nothing but effects of the messages
   `ms`, and that gets them all again from index 1, answers a key as a single pass over `ms` would,
   whatever crashes, flushes and compactions there were before.
   */
  lemma {:induction false} ReplayAfterRestart(j: Journal, ms: seq<ApplyMsg>, k: Key)
    requires InOrder(ms) && Applied(j, ms, k)
    requires forall r :: r in j.states[j.start].log ==> r in Effects(ms)
    ensures Answers(j, k) == View(Replay(map[], Effects(ms)), k)
  {
    WritesOfLog(ms, []);
    assert [] + Effects(ms) == Effects(ms);
    var before := j.states[j.start].log;
    if StoreRuns.Logged(before, k) {
      var x :| 0 <= x < |before| && before[x].key == k;
      assert before[x] in Effects(ms);
    }
    StoreReads.WritingAgainHeals(j.states, j.steps, j.start, j.now, Effects(ms), k);
  }

  // ---- replicas ----

  /** These messages were handed over on node `i`, in order from index 1. */
  ghost predicate Delivered(c: Cluster, i: Id, ms: seq<ApplyMsg>) {
    InOrder(ms) && forall k :: 0 <= k < |ms| ==> Handover(i, ms[k]) in c.handovers
  }

  /** One index, one message, whichever of the two handovers was first. */
  lemma {:induction false} SameMessage(
    members: set<Id>, run: seq<Cluster>, steps: seq<Step>, a: nat, b: nat, h: Handover, g: Handover)
    requires NOBODY !in members && IsRun(members, run, steps) && a < |run| && b < |run|
    requires h in run[a].handovers && g in run[b].handovers && h.msg.index == g.msg.index
    ensures h.msg == g.msg
  {
    if a <= b {
      RaftSafety.StateMachineSafety(members, run, steps, a, b, h, g);
    } else {
      RaftSafety.StateMachineSafety(members, run, steps, b, a, g, h);
    }
  }

  /** Of the messages that any two nodes were handed in order from index 1, one sequence is a prefix of the other. */
  lemma {:induction false} SameMessages(
    members: set<Id>, run: seq<Cluster>, steps: seq<Step>, a: nat, b: nat, i: Id, j: Id, ms: seq<ApplyMsg>,
    ns: seq<ApplyMsg>)
    requires NOBODY !in members && IsRun(members, run, steps) && a < |run| && b < |run|
    requires Delivered(run[a], i, ms) && Delivered(run[b], j, ns) && |ms| <= |ns|
    ensures ms <= ns
  {
    forall k | 0 <= k < |ms|
      ensures ms[k] == ns[k]
    {
      assert Handover(i, ms[k]) in run[a].handovers && Handover(j, ns[k]) in run[b].handovers;
      SameMessage(members, run, steps, a, b, Handover(i, ms[k]), Handover(j, ns[k]));
    }
  }

  /** Every record stems from a message that an earlier incarnation of node `i` was handed, in order, up to `n`. */
  ghost predicate Earlier(c: Cluster, i: Id, n: nat, log: seq<Record>) {
    forall r :: r in log ==> exists p :: Delivered(c, i, p) && |p| <= n && r in Effects(p)
  }

  /** Earlier incarnations of a node wrote nothing but effects of what the present one was handed. */
  lemma {:induction false} EarlierIsPart(
    members: set<Id>, run: seq<Cluster>, steps: seq<Step>, a: nat, i: Id, ms: seq<ApplyMsg>, log: seq<Record>)
    requires NOBODY !in members && IsRun(members, run, steps) && a < |run|
    requires Delivered(run[a], i, ms) && Earlier(run[a], i, |ms|, log)
    ensures forall r :: r in log ==> r in Effects(ms)
  {
    forall r | r in log
      ensures r in Effects(ms)
    {
      var p :| Delivered(run[a], i, p) && |p| <= |ms| && r in Effects(p);
      EarlierRecord(members, run, steps, a, i, p, ms, r);
    }
  }

  lemma {:induction false} EarlierRecord(
    members: set<Id>, run: seq<Cluster>, steps: seq<Step>, a: nat, i: Id, p: seq<ApplyMsg>, ms: seq<ApplyMsg>,
    r: Record)
    requires NOBODY !in members && IsRun(members, run, steps) && a < |run|
    requires Delivered(run[a], i, p) && Delivered(run[a], i, ms) && |p| <= |ms| && r in Effects(p)
    ensures r in Effects(ms)
  {
    SameMessages(members, run, steps, a, a, i, i, p, ms);
    PrefixRecord(p, ms, r);
  }

  lemma {:induction false} PrefixRecord(p: seq<ApplyMsg>, ms: seq<ApplyMsg>, r: Record)
    requires p <= ms && r in Effects(p)
    ensures r in Effects(ms)
  {
    EffectsPrefix(ms, |p|);
    assert ms[..|p|] == p;
    var x :| 0 <= x < |Effects(p)| && Effects(p)[x] == r;
    assert Effects(ms)[x] == r;
  }

  /** A node's answers are the fold of the commands it was handed, rejected ones skipped. */
  lemma {:induction false} AnswersFold(
    members: set<Id>, run: seq<Cluster>, steps: seq<Step>, a: nat, i: Id, ms: seq<ApplyMsg>, j: Journal, k: Key)
    requires NOBODY !in members && IsRun(members, run, steps) && a < |run|
    requires Delivered(run[a], i, ms) && Applied(j, ms, k) && Earlier(run[a], i, |ms|, j.states[j.start].log)
    ensures Answers(j, k) == View(Replay(map[], Effects(ms)), k)
  {
    EarlierIsPart(members, run, steps, a, i, ms, j.states[j.start].log);
    ReplayAfterRestart(j, ms, k);
  }

  // ---- the last command decides ----

  /** Message `n` is the last about the key. */
  ghost predicate LastAbout(ms: seq<ApplyMsg>, k: Key, n: nat) {
    n < |ms| && About(ms[n].command, k) && forall x :: n < x < |ms| ==> !About(ms[x].command, k)
  }

  /** One more command: it decides what is read of its key and leaves other keys alone. */
  lemma {:induction false} CommandView(ms: seq<ApplyMsg>, k: Key)
    requires ms != []
    ensures var data := ms[|ms| - 1].command;
            View(Replay(map[], Effects(ms)), k) ==
            if About(data, k) then Outcome(data) else View(Replay(map[], Effects(ms[..|ms| - 1])), k)
  {
    var before, effect := Effects(ms[..|ms| - 1]), EffectOf(ms[|ms| - 1].command);
    if effect.Writes? {
      ReplayAppend(map[], before, [effect.record]);
      var t := Replay(map[], before);
      assert [effect.record][1..] == [];
      assert Replay(t, [effect.record]) == Apply(t, effect.record);
    }
  }

  lemma {:induction false} LastCommandView(ms: seq<ApplyMsg>, k: Key, n: nat)
    requires LastAbout(ms, k, n)
    ensures View(Replay(map[], Effects(ms)), k) == Outcome(ms[n].command)
    decreases |ms|
  {
    CommandView(ms, k);
    if n < |ms| - 1 {
      assert !About(ms[|ms| - 1].command, k);
      LastCommandView(ms[..|ms| - 1], k, n);
    }
  }

  lemma {:induction false} NoCommandView(ms: seq<ApplyMsg>, k: Key)
    requires forall x :: 0 <= x < |ms| ==> !About(ms[x].command, k)
    ensures View(Replay(map[], Effects(ms)), k) == NotFound
    decreases |ms|
  {
    if ms != [] {
      CommandView(ms, k);
      NoCommandView(ms[..|ms| - 1], k);
    }
  }

  /**
   What a replica answers is decided by the last command about the key that it was handed: absent after a
   delete, the value after a put; and absent if there was none.
   */
  lemma {:induction false} LastCommandAnswers(
    members: set<Id>, run: seq<Cluster>, steps: seq<Step>, a: nat, i: Id, ms: seq<ApplyMsg>, j: Journal, k: Key)
    requires NOBODY !in members && IsRun(members, run, steps) && a < |run|
    requires Delivered(run[a], i, ms) && Applied(j, ms, k) && Earlier(run[a], i, |ms|, j.states[j.start].log)
    ensures forall n: nat :: LastAbout(ms, k, n) ==> Answers(j, k) == Outcome(ms[n].command)
    ensures (forall x :: 0 <= x < |ms| ==> !About(ms[x].command, k)) ==> Answers(j, k) == NotFound
  {
    AnswersFold(members, run, steps, a, i, ms, j, k);
    forall n: nat | LastAbout(ms, k, n)
      ensures Answers(j, k) == Outcome(ms[n].command)
    {
      LastCommandView(ms, k, n);
    }
    if forall x :: 0 <= x < |ms| ==> !About(ms[x].command, k) {
      NoCommandView(ms, k);
    }
  }

  /**
   Replica determinism: two replicas, on any nodes and in any incarnations, that were handed the log in
   order up to the same index answer a key alike, whatever their flushes and whatever their earlier
   incarnations did, as long as each compaction since the present one began kept what is read of the key.
   */
  lemma {:induction false} SameAnswers(
    members: set<Id>, run: seq<Cluster>, steps: seq<Step>, a: nat, b: nat, i: Id, j: Id,
    ms: seq<ApplyMsg>, ns: seq<ApplyMsg>, ours: Journal, theirs: Journal, k: Key)
    requires NOBODY !in members && IsRun(members, run, steps) && a < |run| && b < |run| && |ms| == |ns|
    requires Delivered(run[a], i, ms) && Applied(ours, ms, k) && Earlier(run[a], i, |ms|, ours.states[ours.start].log)
    requires Delivered(run[b], j, ns) && Applied(theirs, ns, k)
             && Earlier(run[b], j, |ns|, theirs.states[theirs.start].log)
    ensures Answers(ours, k) == Answers(theirs, k)
  {
    SameMessages(members, run, steps, a, b, i, j, ms, ns);
    assert ms == ns;
    AnswersFold(members, run, steps, a, i, ms, ours, k);
    AnswersFold(members, run, steps, b, j, ns, theirs, k);
  }

  /**
   And that condition is exact: a compaction of a replica that answers like the others makes it answer
   differently exactly if it does not keep what is read of the key.
   */
  lemma {:induction false} CompactionDivergesExactly(
    members: set<Id>, run: seq<Cluster>, steps: seq<Step>, a: nat, b: nat, i: Id, j: Id,
    ms: seq<ApplyMsg>, ns: seq<ApplyMsg>, ours: Journal, theirs: Journal, k: Key)
    requires NOBODY !in members && IsRun(members, run, steps) && a < |run| && b < |run| && |ms| == |ns|
    requires Delivered(run[a], i, ms) && Applied(ours, ms, k) && Earlier(run[a], i, |ms|, ours.states[ours.start].log)
    requires Delivered(run[b], j, ns) && Applied(theirs, ns, k)
             && Earlier(run[b], j, |ns|, theirs.states[theirs.start].log)
    requires ours.now < |ours.steps| && ours.steps[ours.now].DoCompact?
    ensures |ours.states[ours.now].tables| >= 4
    ensures Answers(ours.(now := ours.now + 1), k) == Answers(theirs, k)
            <==> StoreReads.CompactKeeps(ours.states[ours.now], k)
  {
    SameAnswers(members, run, steps, a, b, i, j, ms, ns, ours, theirs, k);
    StoreReads.CompactExactInRuns(ours.states, ours.steps, ours.now, k);
  }

  /** Four commands that put a key, the last with another value, as messages. */
  lemma {:induction false} FourMessages(k: Key, v: seq<byte>, w: seq<byte>) returns (ms: seq<ApplyMsg>)
    requires k != [] && |k| <= Wal.MAX_KEY && |v| < U32 && |w| < U32
    ensures InOrder(ms)
    ensures var r := StoreReads.PutOf(k, v); Effects(ms) == [r, r, r, StoreReads.PutOf(k, w)]
  {
    var put, last := Encode(OP_PUT, k, v), Encode(OP_PUT, k, w);
    var r, s := StoreReads.PutOf(k, v), StoreReads.PutOf(k, w);
    PutEffect(k, v);
    PutEffect(k, w);
    ms := Commands([put, put, put, last], [r, r, r, s]);
  }

  lemma {:induction false} PutEffect(k: Key, v: seq<byte>)
    requires k != [] && |k| <= Wal.MAX_KEY && |v| < U32
    ensures EffectOf(Encode(OP_PUT, k, v)) == Writes(StoreReads.PutOf(k, v))
  {
    DecodeExact(OP_PUT, k, v);
  }

  /** Messages that carry these commands in order. */
  lemma {:induction false} Commands(cs: seq<seq<byte>>, rs: seq<Record>) returns (ms: seq<ApplyMsg>)
    requires |cs| == |rs| && forall i :: 0 <= i < |cs| ==> EffectOf(cs[i]) == Writes(rs[i])
    ensures InOrder(ms) && Effects(ms) == rs && |ms| == |cs|
    decreases |cs|
  {
    ms := [];
    if cs != [] {
      var n := |cs| - 1;
      ms := Commands(cs[..n], rs[..n]);
      var m := ApplyMsg(n + 1, cs[n]);
      EffectsSnoc(ms, m);
      ms := ms + [m];
      assert rs == rs[..n] + [rs[n]];
    }
  }

  /**
   Without that proviso it fails: two runs of a store, both from the same messages, one with a compaction at
   the end, that answer the key differently. With values that fill a MemTable the flushes are the engine's own.
   */
  lemma {:induction false} AnswersDiverge(k: Key, v: seq<byte>, w: seq<byte>)
    returns (ms: seq<ApplyMsg>, ours: Journal, theirs: Journal)
    requires k != [] && |k| <= Wal.MAX_KEY && |v| < U32 && |w| < U32 && v != w
    ensures InOrder(ms) && ours.start == theirs.start == 0
    ensures StoreRuns.IsRun(ours.states, ours.steps) && ours.now == |ours.steps|
    ensures StoreRuns.IsRun(theirs.states, theirs.steps) && theirs.now == |theirs.steps|
    ensures |v| >= MemTables.MAX_SIZE && |w| >= MemTables.MAX_SIZE ==>
              StoreReads.FlushesDue(ours.states, ours.steps) && StoreReads.FlushesDue(theirs.states, theirs.steps)
    ensures ours.states[ours.now].log == theirs.states[theirs.now].log == HandleAll(Replica(0, []), ms).written
    ensures Answers(ours, k) == Found(w) && Answers(theirs, k) == Found(v)
  {
    var states, steps := StoreReads.CompactionDiverges(k, v, w);
    ours := Journal(states[..9], steps[..8], 0, 8);
    theirs := Journal(states, steps, 0, 9);
    ms := FourMessages(k, v, w);
    WritesOfLog(ms, []);
  }

  lemma {:induction false} EffectsSnoc(ms: seq<ApplyMsg>, m: ApplyMsg)
    requires EffectOf(m.command).Writes?
    ensures Effects(ms + [m]) == Effects(ms) + [EffectOf(m.command).record]
  {
    assert (ms + [m])[..|ms|] == ms;
  }
}
