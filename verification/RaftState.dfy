/**
 The state file of a node: term, vote and log as bytes, and their way back.
 */
module RaftState {
  import opened Bytes
  import opened RaftTypes

  datatype Result<+T> = Ok(value: T) | Err

  function EncodeEntry(e: Entry): seq<byte> {
    ToBytes(e.index, 8) + ToBytes(e.term, 8) + ToBytes(|e.data|, 4) + e.data
  }

  function EncodeLog(log: seq<Entry>): seq<byte> {
    if log == [] then [] else EncodeEntry(log[0]) + EncodeLog(log[1..])
  }

  function EncodeHeader(term: nat, vote: Id, count: nat): seq<byte> {
    ToBytes(term, 8) + ToBytes(|vote|, 2) + vote + ToBytes(count, 4)
  }

  function EncodeState(d: Durable): seq<byte> {
    EncodeHeader(d.term, d.vote, |d.log|) + EncodeLog(d.log)
  }

  predicate FitsEntry(e: Entry) {
    e.index < U64 && e.term < U64 && |e.data| < U32
  }

  /** Every number of the state fits the width of its field. */
  predicate Fits(d: Durable) {
    && d.term < U64 && |d.vote| < U16 && |d.log| < U32
    && forall k :: 0 <= k < |d.log| ==> FitsEntry(d.log[k])
  }

  // ---- reading ----

  /** Exactly `n` bytes from `pos`, as a full read gives them. */
  function Take(file: seq<byte>, pos: nat, n: nat): Result<seq<byte>> {
    if pos + n <= |file| then Ok(file[pos..pos + n]) else Err
  }

  /** One entry and the position after it. */
  function ReadEntry(file: seq<byte>, pos: nat): Result<(Entry, nat)> {
    match Take(file, pos, 20)
    case Err => Err
    case Ok(head) =>
      var size := FromBytes(head[16..20]);
      match Take(file, pos + 20, size)
      case Err => Err
      case Ok(data) => Ok((Entry(FromBytes(head[..8]), FromBytes(head[8..16]), data), pos + 20 + size))
  }

  /** The entries read, and whether all `count` of them were there. */
  function ReadLog(file: seq<byte>, pos: nat, count: nat): (seq<Entry>, bool)
    decreases count
  {
    if count == 0 then ([], true)
    else
      match ReadEntry(file, pos)
      case Err => ([], false)
      case Ok((e, next)) =>
        var (rest, whole) := ReadLog(file, next, count - 1);
        ([e] + rest, whole)
  }

  /**
   What a starting node takes from its state file, and whether the file was whole.  A file
   that breaks off leaves the node with the fields read so far.
   */
  function LoadState(file: seq<byte>): (Durable, bool) {
    match Take(file, 0, 8)
    case Err => (Durable(0, NOBODY, [SENTINEL]), false)
    case Ok(t) =>
      var term := FromBytes(t);
      match Take(file, 8, 2)
      case Err => (Durable(term, NOBODY, [SENTINEL]), false)
      case Ok(l) =>
        var v := FromBytes(l);
        match Take(file, 10, v)
        case Err => (Durable(term, NOBODY, [SENTINEL]), false)
        case Ok(vote) =>
          match Take(file, 10 + v, 4)
          case Err => (Durable(term, vote, [SENTINEL]), false)
          case Ok(c) =>
            var count := FromBytes(c);
            if count == 0 then (Durable(term, vote, [SENTINEL]), true)
            else
              var (log, whole) := ReadLog(file, 14 + v, count);
              (Durable(term, vote, log), whole)
  }

  // ---- the way back ----

  lemma EntryParts(e: Entry)
    requires FitsEntry(e)
    ensures var s := EncodeEntry(e);
            && |s| == 20 + |e.data|
            && FromBytes(s[..8]) == e.index && FromBytes(s[8..16]) == e.term
            && FromBytes(s[16..20]) == |e.data| && s[20..] == e.data
  {
    var s := EncodeEntry(e);
    RoundTrip64(e.index);
    RoundTrip64(e.term);
    RoundTrip32(|e.data|);
    assert s[..8] == ToBytes(e.index, 8);
    assert s[8..16] == ToBytes(e.term, 8);
    assert s[16..20] == ToBytes(|e.data|, 4);
  }

  lemma ReadEntryBack(file: seq<byte>, pos: nat, e: Entry)
    requires FitsEntry(e) && pos + |EncodeEntry(e)| <= |file|
    requires file[pos..pos + |EncodeEntry(e)|] == EncodeEntry(e)
    ensures ReadEntry(file, pos) == Ok((e, pos + |EncodeEntry(e)|))
  {
    var s := EncodeEntry(e);
    EntryParts(e);
    var head := file[pos..pos + 20];
    assert head == s[..20];
    assert head[..8] == s[..8] && head[8..16] == s[8..16] && head[16..20] == s[16..20];
    assert file[pos + 20..pos + |s|] == s[20..];
  }

  lemma {:induction false} ReadLogBack(file: seq<byte>, pos: nat, log: seq<Entry>)
    requires forall k :: 0 <= k < |log| ==> FitsEntry(log[k])
    requires pos <= |file| && file[pos..] == EncodeLog(log)
    ensures ReadLog(file, pos, |log|) == (log, true)
    decreases |log|
  {
    if log != [] {
      var s := EncodeEntry(log[0]);
      assert file[pos..][..|s|] == s;
      assert file[pos..pos + |s|] == s;
      ReadEntryBack(file, pos, log[0]);
      assert file[pos + |s|..] == file[pos..][|s|..] == EncodeLog(log[1..]);
      ReadLogBack(file, pos + |s|, log[1..]);
      assert [log[0]] + log[1..] == log;
    }
  }

  lemma HeaderParts(term: nat, vote: Id, count: nat)
    requires term < U64 && |vote| < U16 && count < U32
    ensures var h := EncodeHeader(term, vote, count);
            var v := |vote|;
            && |h| == 14 + v
            && FromBytes(h[0..8]) == term
            && FromBytes(h[8..10]) == v
            && h[10..10 + v] == vote
            && FromBytes(h[10 + v..14 + v]) == count
  {
    var h := EncodeHeader(term, vote, count);
    var v := |vote|;
    RoundTrip64(term);
    RoundTrip16(v);
    RoundTrip32(count);
    assert h[0..8] == ToBytes(term, 8);
    assert h[8..10] == ToBytes(v, 2);
    assert h[10..10 + v] == vote;
    assert h[10 + v..14 + v] == ToBytes(count, 4);
  }

  /** Loading, once the header fields and the entries are known. */
  lemma LoadParsed(file: seq<byte>, d: Durable)
    requires var v := |d.vote|;
             && |file| >= 14 + v && d.log != []
             && FromBytes(file[0..8]) == d.term && FromBytes(file[8..10]) == v && file[10..10 + v] == d.vote
             && FromBytes(file[10 + v..14 + v]) == |d.log| && ReadLog(file, 14 + v, |d.log|) == (d.log, true)
    ensures LoadState(file) == (d, true)
  {}

  /** The header stands at the start of the file, the entries behind it. */
  lemma StateParts(d: Durable)
    ensures var file, h := EncodeState(d), EncodeHeader(d.term, d.vote, |d.log|);
            && |file| >= |h| == 14 + |d.vote| && file[..|h|] == h && file[|h|..] == EncodeLog(d.log)
  {}

  lemma HeaderIn(file: seq<byte>, h: seq<byte>, v: nat)
    requires |file| >= |h| == 14 + v && file[..|h|] == h
    ensures file[0..8] == h[0..8] && file[8..10] == h[8..10]
    ensures file[10..10 + v] == h[10..10 + v] && file[10 + v..14 + v] == h[10 + v..14 + v]
  {
    PartIn(file, h, 0, 8);
    PartIn(file, h, 8, 10);
    PartIn(file, h, 10, 10 + v);
    PartIn(file, h, 10 + v, 14 + v);
  }

  lemma PartIn(file: seq<byte>, h: seq<byte>, from: nat, to: nat)
    requires from <= to <= |h| <= |file| && file[..|h|] == h
    ensures file[from..to] == h[from..to]
  {
    assert file[..|h|][from..to] == file[from..to];
  }

  /** What a node writes is what it reads when it starts again. */
  lemma StateRoundTrip(d: Durable)
    requires Fits(d) && d.log != []
    ensures LoadState(EncodeState(d)) == (d, true)
  {
    var file := EncodeState(d);
    HeaderParts(d.term, d.vote, |d.log|);
    StateParts(d);
    HeaderIn(file, EncodeHeader(d.term, d.vote, |d.log|), |d.vote|);
    ReadLogBack(file, 14 + |d.vote|, d.log);
    LoadParsed(file, d);
  }

  lemma {:induction false} ReadLogFits(file: seq<byte>, pos: nat, count: nat)
    requires ReadLog(file, pos, count).1
    ensures |ReadLog(file, pos, count).0| == count
    ensures forall k :: 0 <= k < count ==> FitsEntry(ReadLog(file, pos, count).0[k])
    decreases count
  {
    if count > 0 {
      var (e, next) := ReadEntry(file, pos).value;
      var head := file[pos..pos + 20];
      Words();
      FieldBound(head[..8]);
      FieldBound(head[8..16]);
      FieldBound(head[16..20]);
      assert FitsEntry(e);
      ReadLogFits(file, next, count - 1);
    }
  }

  lemma LoadedFits(file: seq<byte>)
    requires LoadState(file).1
    ensures Fits(LoadState(file).0) && LoadState(file).0.log != []
  {
    Words();
    FieldBound(file[0..8]);
    FieldBound(file[8..10]);
    var v := FromBytes(file[8..10]);
    var c := file[10 + v..14 + v];
    FieldBound(c);
    if FromBytes(c) != 0 {
      ReadLogFits(file, 14 + v, FromBytes(c));
    }
  }

  /** The state file loses nothing exactly when every number fits its field and the log is not empty. */
  lemma StateRoundTripExactly(d: Durable)
    ensures LoadState(EncodeState(d)) == (d, true) <==> Fits(d) && d.log != []
  {
    if Fits(d) && d.log != [] {
      StateRoundTrip(d);
    } else if LoadState(EncodeState(d)) == (d, true) {
      LoadedFits(EncodeState(d));
    }
  }

  lemma {:induction false} EncodeLogAppend(log: seq<Entry>, e: Entry)
    ensures EncodeLog(log + [e]) == EncodeLog(log) + EncodeEntry(e)
    decreases |log|
  {
    if log == [] {
      assert (log + [e])[1..] == [];
    } else {
      assert (log + [e])[1..] == log[1..] + [e];
      EncodeLogAppend(log[1..], e);
    }
  }

  // ---- torn files ----

  /** An entry is read only if all its bytes are there. */
  lemma ReadEntryWhole(file: seq<byte>, pos: nat, cut: nat)
    requires cut <= |file| && ReadEntry(file, pos).Ok?
    ensures if ReadEntry(file, pos).value.1 <= cut then ReadEntry(file[..cut], pos) == ReadEntry(file, pos)
            else ReadEntry(file[..cut], pos) == Err
  {
    if pos + 20 <= cut {
      assert file[..cut][pos..pos + 20] == file[pos..pos + 20];
      var size := FromBytes(file[pos..pos + 20][16..20]);
      if pos + 20 + size <= cut {
        assert file[..cut][pos + 20..pos + 20 + size] == file[pos + 20..pos + 20 + size];
      }
    }
  }

  /** How many entries lie wholly within the first `room` bytes. */
  function WholeEntries(log: seq<Entry>, room: nat): (n: nat)
    ensures n <= |log|
  {
    if log == [] || 20 + |log[0].data| > room then 0
    else 1 + WholeEntries(log[1..], room - 20 - |log[0].data|)
  }

  /** The first entry of a log in a file that is cut. */
  lemma {:induction false} TornFirst(file: seq<byte>, pos: nat, log: seq<Entry>, cut: nat)
    requires log != [] && FitsEntry(log[0]) && pos <= cut < |file| && file[pos..] == EncodeLog(log)
    ensures var next := pos + 20 + |log[0].data|;
            && next <= |file| && file[next..] == EncodeLog(log[1..])
            && ReadEntry(file[..cut], pos) == if next <= cut then Ok((log[0], next)) else Err
  {
    var s := EncodeEntry(log[0]);
    EntryParts(log[0]);
    assert file[pos..][..|s|] == s;
    assert file[pos..pos + |s|] == s;
    ReadEntryBack(file, pos, log[0]);
    ReadEntryWhole(file, pos, cut);
    assert file[pos + |s|..] == file[pos..][|s|..] == EncodeLog(log[1..]);
  }

  lemma {:induction false} ReadLogTorn(file: seq<byte>, pos: nat, log: seq<Entry>, cut: nat)
    requires forall k :: 0 <= k < |log| ==> FitsEntry(log[k])
    requires pos <= cut < |file| && file[pos..] == EncodeLog(log)
    ensures ReadLog(file[..cut], pos, |log|) == (log[..WholeEntries(log, cut - pos)], false)
    decreases |log|
  {
    assert log != [] by {
      assert |file[pos..]| > 0;
    }
    TornFirst(file, pos, log, cut);
    var next := pos + 20 + |log[0].data|;
    if next <= cut {
      ReadLogTorn(file, next, log[1..], cut);
      var m := WholeEntries(log[1..], cut - next);
      assert [log[0]] + log[1..][..m] == log[..m + 1];
    }
  }

  /** What a file cut at byte `cut` leaves in memory: each field that is whole, and the entries that are. */
  function TornState(d: Durable, cut: nat): Durable {
    Durable(
      if cut >= 8 then d.term else 0,
      if cut >= 10 + |d.vote| then d.vote else NOBODY,
      if cut >= 14 + |d.vote| then d.log[..WholeEntries(d.log, cut - 14 - |d.vote|)] else [SENTINEL])
  }

  /** Loading notices that the header or an entry is not whole, and keeps what came before. */
  lemma {:induction false} LoadTorn(torn: seq<byte>, d: Durable)
    requires |torn| >= 8 ==> FromBytes(torn[0..8]) == d.term
    requires |torn| >= 10 ==> FromBytes(torn[8..10]) == |d.vote|
    requires |torn| >= 10 + |d.vote| ==> torn[10..10 + |d.vote|] == d.vote
    requires |torn| >= 14 + |d.vote| ==>
      && FromBytes(torn[10 + |d.vote|..14 + |d.vote|]) == |d.log| > 0
      && ReadLog(torn, 14 + |d.vote|, |d.log|)
         == (d.log[..WholeEntries(d.log, |torn| - 14 - |d.vote|)], false)
    ensures LoadState(torn) == (TornState(d, |torn|), false)
  {}

  /** A state file that misses its end is not taken for a whole one, and leaves the fields read so far. */
  lemma {:induction false} TornStateNoticed(d: Durable, cut: nat)
    requires Fits(d) && d.log != [] && cut < |EncodeState(d)|
    ensures LoadState(EncodeState(d)[..cut]) == (TornState(d, cut), false)
  {
    var file := EncodeState(d);
    HeaderParts(d.term, d.vote, |d.log|);
    StateParts(d);
    HeaderIn(file, EncodeHeader(d.term, d.vote, |d.log|), |d.vote|);
    TornFileNoticed(file, d, cut);
  }

  lemma {:induction false} TornFileNoticed(file: seq<byte>, d: Durable, cut: nat)
    requires var v := |d.vote|;
             && |file| >= 14 + v && FromBytes(file[0..8]) == d.term && FromBytes(file[8..10]) == v
             && file[10..10 + v] == d.vote && FromBytes(file[10 + v..14 + v]) == |d.log|
             && file[14 + v..] == EncodeLog(d.log) && d.log != [] && cut < |file|
    requires forall k :: 0 <= k < |d.log| ==> FitsEntry(d.log[k])
    ensures LoadState(file[..cut]) == (TornState(d, cut), false)
  {
    var torn, v := file[..cut], |d.vote|;
    if cut >= 8 {
      assert torn[0..8] == file[0..8];
    }
    if cut >= 10 {
      assert torn[8..10] == file[8..10];
    }
    if cut >= 10 + v {
      assert torn[10..10 + v] == file[10..10 + v];
    }
    if cut >= 14 + v {
      assert torn[10 + v..14 + v] == file[10 + v..14 + v];
      ReadLogTorn(file, 14 + v, d.log, cut);
    }
    LoadTorn(torn, d);
  }
}
