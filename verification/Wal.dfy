/**
 The write-ahead log: its record format, reading it back after a crash, and cutting it
 to the last whole record.

 The checksum is an arbitrary function of the record's body: nothing here depends on
 which corruptions it detects.
 */
module Wal {
  import opened Bytes
  import opened Storage

  type word32 = n: nat | n < 0x1_0000_0000
  type Checksum = seq<byte> -> word32

  const HEADER: nat := 11
  const MAX_KEY: nat := 65535
  /** The longest key that can be read back: the reader adds 7 to the key length in 16 bits. */
  const READABLE_KEY: nat := 65528

  function Body(op: byte, key: Key, value: seq<byte>): seq<byte> {
    [op] + ToBytes(|key|, 2) + ToBytes(|value|, 4) + key + value
  }

  function EncodeRecord(crc: Checksum, r: Record): seq<byte> {
    var body := Body(r.op, r.key, r.value.Content());
    ToBytes(crc(body), 4) + body
  }

  function EncodeAll(crc: Checksum, rs: seq<Record>): seq<byte> {
    if rs == [] then [] else EncodeRecord(crc, rs[0]) + EncodeAll(crc, rs[1..])
  }

  function RecordSize(r: Record): nat {
    HEADER + |r.key| + |r.value.Content()|
  }

  /** The lengths fit their fields. */
  predicate Fits(r: Record) {
    |r.key| <= MAX_KEY && |r.value.Content()| < U32
  }

  ghost predicate AllFit(rs: seq<Record>) {
    forall k :: 0 <= k < |rs| ==> Fits(rs[k])
  }

  /** A record as it is read back: an empty value becomes nil. */
  function Normal(r: Record): Record {
    r.(value := if r.value.Content() == [] then Nil else r.value)
  }

  function NormalAll(rs: seq<Record>): (ns: seq<Record>)
    ensures |ns| == |rs|
    ensures forall k :: 0 <= k < |rs| ==> ns[k] == Normal(rs[k])
  {
    if rs == [] then [] else [Normal(rs[0])] + NormalAll(rs[1..])
  }

  /** Reading ends with the records found, or aborts the program on a key it cannot slice. */
  datatype Outcome = Records(rs: seq<Record>) | Panic(before: seq<Record>)

  function Cons(r: Record, o: Outcome): Outcome {
    match o
    case Records(rs) => Records([r] + rs)
    case Panic(before) => Panic([r] + before)
  }

  /** One record at the start of `file`: nothing more to read, a record, or an abort. */
  datatype Item = Stop | Item(record: Record, size: nat) | Abort

  function ReadOne(crc: Checksum, file: seq<byte>): (item: Item)
    ensures item.Item? ==> HEADER <= item.size <= |file|
  {
    if |file| < HEADER then Stop
    else
      var op := file[4];
      var keyLen := FromBytes(file[5..7]);
      var valueLen := FromBytes(file[7..11]);
      if |file| < HEADER + keyLen + valueLen then Stop
      else
        var body := [op] + ToBytes(keyLen, 2) + ToBytes(valueLen, 4) + file[HEADER..HEADER + keyLen + valueLen];
        if crc(body) != FromBytes(file[0..4]) then Stop
        else
          var end := (7 + keyLen) % U16;
          if end < 7 then Abort
          else if end > |body| then Abort
          else
            Item(Record(op, body[7..end], if valueLen > 0 then Of(body[7 + keyLen..]) else Nil),
                 HEADER + keyLen + valueLen)
  }

  function Read(crc: Checksum, file: seq<byte>): Outcome
    decreases |file|
  {
    match ReadOne(crc, file)
    case Stop => Records([])
    case Abort => Panic([])
    case Item(r, size) => Cons(r, Read(crc, file[size..]))
  }

  // ---- reading one record back ----

  lemma RecordShape(crc: Checksum, r: Record)
    requires Fits(r)
    ensures var s := EncodeRecord(crc, r);
            var v := r.value.Content();
            var body := Body(r.op, r.key, v);
            && |s| == RecordSize(r)
            && FromBytes(s[0..4]) == crc(body) && s[4] == r.op
            && FromBytes(s[5..7]) == |r.key| && FromBytes(s[7..11]) == |v|
            && s[11..11 + |r.key|] == r.key && s[11 + |r.key|..] == v
            && [s[4]] + ToBytes(|r.key|, 2) + ToBytes(|v|, 4) + s[11..] == body
  {
    var s := EncodeRecord(crc, r);
    var v := r.value.Content();
    var body := Body(r.op, r.key, v);
    RoundTrip32(crc(body));
    RoundTrip16(|r.key|);
    RoundTrip32(|v|);
    assert s[0..4] == ToBytes(crc(body), 4);
    assert s[5..7] == ToBytes(|r.key|, 2);
    assert s[7..11] == ToBytes(|v|, 4);
    assert s[11..] == r.key + v;
    assert body == [s[4]] + ToBytes(|r.key|, 2) + ToBytes(|v|, 4) + (r.key + v);
  }

  /** Reading, once header and body are known. */
  lemma ReadParsed(crc: Checksum, file: seq<byte>, body: seq<byte>, key: Key, v: seq<byte>)
    requires |file| >= HEADER + |key| + |v| && |key| <= MAX_KEY
    requires FromBytes(file[5..7]) == |key| && FromBytes(file[7..11]) == |v| && FromBytes(file[0..4]) == crc(body)
    requires body == [file[4]] + ToBytes(|key|, 2) + ToBytes(|v|, 4) + file[HEADER..HEADER + |key| + |v|]
    requires body[7..7 + |key|] == key && body[7 + |key|..] == v
    ensures ReadOne(crc, file) ==
            if |key| > READABLE_KEY then Abort
            else Item(Record(file[4], key, if |v| > 0 then Of(v) else Nil), HEADER + |key| + |v|)
  {
    assert |body| == 7 + |key| + |v|;
    assert (7 + |key|) % U16 == if |key| <= READABLE_KEY then 7 + |key| else 7 + |key| - U16;
  }

  /** Header and body of a file that starts with a whole record. */
  lemma HeaderBack(crc: Checksum, r: Record, file: seq<byte>)
    requires Fits(r) && EncodeRecord(crc, r) <= file
    ensures var v := r.value.Content();
            var body := Body(r.op, r.key, v);
            && |file| >= RecordSize(r) && file[4] == r.op
            && FromBytes(file[0..4]) == crc(body) && FromBytes(file[5..7]) == |r.key| && FromBytes(file[7..11]) == |v|
            && body == [r.op] + ToBytes(|r.key|, 2) + ToBytes(|v|, 4) + file[HEADER..HEADER + |r.key| + |v|]
  {
    var s := EncodeRecord(crc, r);
    RecordShape(crc, r);
    assert file[0..4] == s[0..4] && file[5..7] == s[5..7] && file[7..11] == s[7..11];
    assert file[HEADER..RecordSize(r)] == s[11..];
  }

  lemma BodyParts(op: byte, key: Key, v: seq<byte>)
    ensures Body(op, key, v)[7..7 + |key|] == key && Body(op, key, v)[7 + |key|..] == v
  {}

  /** A whole record is read back, unless its key is too long to slice. */
  lemma ReadOneBack(crc: Checksum, r: Record, file: seq<byte>)
    requires Fits(r) && EncodeRecord(crc, r) <= file
    ensures ReadOne(crc, file) ==
            if |r.key| <= READABLE_KEY then Item(Normal(r), RecordSize(r)) else Abort
  {
    HeaderBack(crc, r, file);
    BodyParts(r.op, r.key, r.value.Content());
    ReadParsed(crc, file, Body(r.op, r.key, r.value.Content()), r.key, r.value.Content());
  }

  /** A record that misses its end ends the reading. */
  lemma ReadOneTorn(crc: Checksum, r: Record, file: seq<byte>)
    requires Fits(r) && file <= EncodeRecord(crc, r) && |file| < RecordSize(r)
    ensures ReadOne(crc, file) == Stop
  {
    var s := EncodeRecord(crc, r);
    RecordShape(crc, r);
    if |file| >= HEADER {
      assert file[5..7] == s[5..7] && file[7..11] == s[7..11];
    }
  }

  // ---- reading a cut file ----

  /** How many of the records lie wholly in the first `cut` bytes. */
  function WholeCount(rs: seq<Record>, cut: nat): (m: nat)
    ensures m <= |rs|
  {
    if rs == [] || cut < RecordSize(rs[0]) then 0 else 1 + WholeCount(rs[1..], cut - RecordSize(rs[0]))
  }

  /** Reading stops for good at the first key that is too long to slice. */
  function ReadableOnly(rs: seq<Record>): Outcome {
    if rs == [] then Records([])
    else if |rs[0].key| > READABLE_KEY then Panic([])
    else Cons(Normal(rs[0]), ReadableOnly(rs[1..]))
  }

  lemma ReadStep(crc: Checksum, r: Record, rest: seq<byte>)
    requires Fits(r)
    ensures Read(crc, EncodeRecord(crc, r) + rest) ==
            if |r.key| <= READABLE_KEY then Cons(Normal(r), Read(crc, rest)) else Panic([])
  {
    var file := EncodeRecord(crc, r) + rest;
    ReadOneBack(crc, r, file);
    RecordShape(crc, r);
    assert file[RecordSize(r)..] == rest;
  }

  /** The crash falls into the first record. */
  lemma CrashInside(crc: Checksum, r: Record, rest: seq<byte>, cut: nat)
    requires Fits(r) && cut < RecordSize(r)
    ensures cut <= |EncodeRecord(crc, r) + rest|
    ensures Read(crc, (EncodeRecord(crc, r) + rest)[..cut]) == Records([])
  {
    RecordShape(crc, r);
    assert (EncodeRecord(crc, r) + rest)[..cut] == EncodeRecord(crc, r)[..cut];
    ReadOneTorn(crc, r, EncodeRecord(crc, r)[..cut]);
  }

  /** The crash falls behind the first record. */
  lemma CrashBehind(crc: Checksum, r: Record, rest: seq<byte>, cut: nat)
    requires Fits(r) && RecordSize(r) <= cut <= |EncodeRecord(crc, r) + rest|
    ensures cut - RecordSize(r) <= |rest|
    ensures Read(crc, (EncodeRecord(crc, r) + rest)[..cut]) ==
            if |r.key| <= READABLE_KEY then Cons(Normal(r), Read(crc, rest[..cut - RecordSize(r)])) else Panic([])
  {
    RecordShape(crc, r);
    assert (EncodeRecord(crc, r) + rest)[..cut] == EncodeRecord(crc, r) + rest[..cut - RecordSize(r)];
    ReadStep(crc, r, rest[..cut - RecordSize(r)]);
  }

  /** A cut behind the first record leaves it and what the same cut leaves of the others. */
  lemma LeftBehindFirst(rs: seq<Record>, cut: nat)
    requires rs != [] && RecordSize(rs[0]) <= cut
    ensures var kept := rs[1..][..WholeCount(rs[1..], cut - RecordSize(rs[0]))];
            ReadableOnly(rs[..WholeCount(rs, cut)]) ==
            if |rs[0].key| <= READABLE_KEY then Cons(Normal(rs[0]), ReadableOnly(kept)) else Panic([])
  {
    var m := WholeCount(rs, cut);
    assert rs[..m][1..] == rs[1..][..m - 1];
  }

  /** After a crash anywhere, exactly the whole records are read, up to the first unreadable key. */
  lemma {:induction false} ReadAfterCrash(crc: Checksum, rs: seq<Record>, cut: nat)
    requires AllFit(rs) && cut <= |EncodeAll(crc, rs)|
    ensures Read(crc, EncodeAll(crc, rs)[..cut]) == ReadableOnly(rs[..WholeCount(rs, cut)])
    decreases |rs|
  {
    if rs != [] {
      if cut < RecordSize(rs[0]) {
        CrashInside(crc, rs[0], EncodeAll(crc, rs[1..]), cut);
      } else {
        CrashBehind(crc, rs[0], EncodeAll(crc, rs[1..]), cut);
        ReadAfterCrash(crc, rs[1..], cut - RecordSize(rs[0]));
        LeftBehindFirst(rs, cut);
      }
    }
  }

  ghost predicate Readable(rs: seq<Record>) {
    forall k :: 0 <= k < |rs| ==> |rs[k].key| <= READABLE_KEY
  }

  lemma {:induction false} ReadableExactly(rs: seq<Record>)
    ensures ReadableOnly(rs).Records? <==> Readable(rs)
    ensures Readable(rs) ==> ReadableOnly(rs) == Records(NormalAll(rs))
    decreases |rs|
  {
    if rs != [] {
      ReadableExactly(rs[1..]);
      assert forall k :: 0 <= k < |rs| - 1 ==> rs[1..][k] == rs[k + 1];
      if |rs[0].key| <= READABLE_KEY && Readable(rs[1..]) {
        assert forall k :: 0 <= k < |rs| ==> rs[k] == if k == 0 then rs[0] else rs[1..][k - 1];
      }
    }
  }

  /**
   Torn-tail recovery, exactly: reading a log cut at any byte gives the records wholly inside
   the cut if none of them has a key over 65528 bytes, and aborts otherwise.
   */
  lemma TornTail(crc: Checksum, rs: seq<Record>, cut: nat)
    requires AllFit(rs) && cut <= |EncodeAll(crc, rs)|
    ensures var kept := rs[..WholeCount(rs, cut)];
            && (Read(crc, EncodeAll(crc, rs)[..cut]).Records? <==> Readable(kept))
            && (Readable(kept) ==> Read(crc, EncodeAll(crc, rs)[..cut]) == Records(NormalAll(kept)))
  {
    ReadAfterCrash(crc, rs, cut);
    ReadableExactly(rs[..WholeCount(rs, cut)]);
  }

  /** A key that `Append` accepts and no reader survives. */
  lemma UnreadableKey(crc: Checksum, key: Key)
    requires |key| == 65529
    ensures Fits(Record(OP_DELETE, key, Nil))
    ensures Read(crc, EncodeAll(crc, [Record(OP_DELETE, key, Nil)])) == Panic([])
  {
    var r := Record(OP_DELETE, key, Nil);
    assert EncodeAll(crc, [r]) == EncodeRecord(crc, r) + [];
    ReadOneBack(crc, r, EncodeAll(crc, [r]));
  }

  // ---- what is read was written ----

  /** The file starts with a whole record, checksum included. */
  ghost predicate StartsWith(crc: Checksum, file: seq<byte>, r: Record) {
    Fits(r) && EncodeRecord(crc, r) <= file
  }

  /** A file whose header and checksum are in order starts with the record they describe. */
  lemma {:induction false} RecordFound(crc: Checksum, file: seq<byte>, key: Key, v: seq<byte>)
    requires |file| >= HEADER + |key| + |v| && |key| <= MAX_KEY && |v| < U32
    requires FromBytes(file[5..7]) == |key| && FromBytes(file[7..11]) == |v|
    requires file[HEADER..HEADER + |key| + |v|] == key + v
    requires FromBytes(file[0..4]) == crc(Body(file[4], key, v))
    ensures EncodeRecord(crc, Record(file[4], key, Of(v))) == file[..HEADER + |key| + |v|]
  {
    BytesBack(file[0..4]);
    BytesBack(file[5..7]);
    BytesBack(file[7..11]);
    var whole := file[..HEADER + |key| + |v|];
    assert whole == file[0..4] + [file[4]] + file[5..7] + file[7..11] + file[HEADER..HEADER + |key| + |v|];
    assert EncodeRecord(crc, Record(file[4], key, Of(v)))
        == ToBytes(crc(Body(file[4], key, v)), 4) + [file[4]] + ToBytes(|key|, 2) + ToBytes(|v|, 4) + (key + v);
  }

  /** Reading finds a record, or aborts, exactly if the file starts with one; other bytes end the reading. */
  lemma {:induction false} ReadOneSound(crc: Checksum, file: seq<byte>)
    ensures match ReadOne(crc, file)
            case Stop => forall r :: !StartsWith(crc, file, r)
            case Item(r, size) => StartsWith(crc, file, r) && size == RecordSize(r) && |r.key| <= READABLE_KEY
            case Abort => exists r :: StartsWith(crc, file, r) && |r.key| > READABLE_KEY
  {
    forall r | StartsWith(crc, file, r)
      ensures ReadOne(crc, file) != Stop
    {
      ReadOneBack(crc, r, file);
    }
    if ReadOne(crc, file) != Stop {
      var key, v := FoundParts(crc, file);
      var r := Record(file[4], key, Of(v));
      assert StartsWith(crc, file, r);
      ReadOneBack(crc, r, file);
      assert EncodeRecord(crc, Normal(r)) == EncodeRecord(crc, r);
    }
  }

  lemma {:induction false} FoundParts(crc: Checksum, file: seq<byte>) returns (key: Key, v: seq<byte>)
    requires ReadOne(crc, file) != Stop
    ensures |key| <= MAX_KEY && |v| < U32 && EncodeRecord(crc, Record(file[4], key, Of(v))) <= file
  {
    var k, l := FromBytes(file[5..7]), FromBytes(file[7..11]);
    Words();
    FieldBound(file[5..7]);
    FieldBound(file[7..11]);
    key, v := file[HEADER..HEADER + k], file[HEADER + k..HEADER + k + l];
    assert file[HEADER..HEADER + k + l] == key + v;
    assert Body(file[4], key, v) == [file[4]] + ToBytes(k, 2) + ToBytes(l, 4) + (key + v);
    RecordFound(crc, file, key, v);
  }

  /** The records read from any file, whole or not. */
  function RecordsOf(o: Outcome): seq<Record> {
    match o
    case Records(rs) => rs
    case Panic(before) => before
  }

  /**
   Whatever the file holds, it begins with exactly the records that are read, byte for byte and with matching
   checksums; behind them no record begins, or, if reading aborts, one whose key cannot be sliced.
   */
  lemma {:induction false} ReadSound(crc: Checksum, file: seq<byte>) returns (tail: seq<byte>)
    ensures file == EncodeAll(crc, RecordsOf(Read(crc, file))) + tail
    ensures if Read(crc, file).Records? then forall r :: !StartsWith(crc, tail, r)
            else exists r :: StartsWith(crc, tail, r) && |r.key| > READABLE_KEY
    decreases |file|
  {
    ReadOneSound(crc, file);
    tail := file;
    match ReadOne(crc, file)
    case Stop =>
    case Abort =>
    case Item(r, size) =>
      tail := ReadSound(crc, file[size..]);
      RecordsInFront(crc, file, r, RecordsOf(Read(crc, file[size..])), tail);
  }

  lemma {:induction false} RecordsInFront(crc: Checksum, file: seq<byte>, r: Record, rest: seq<Record>, tail: seq<byte>)
    requires StartsWith(crc, file, r) && RecordSize(r) <= |file| && file[RecordSize(r)..] == EncodeAll(crc, rest) + tail
    ensures file == EncodeAll(crc, [r] + rest) + tail
  {
    RecordShape(crc, r);
    assert ([r] + rest)[1..] == rest;
    Regroup(EncodeRecord(crc, r), EncodeAll(crc, rest), tail, file);
  }

  lemma Regroup(a: seq<byte>, b: seq<byte>, c: seq<byte>, file: seq<byte>)
    requires a <= file && file[|a|..] == b + c
    ensures file == a + b + c
  {}

  // ---- the valid size ----

  function TotalSize(rs: seq<Record>): nat {
    if rs == [] then 0 else RecordSize(rs[0]) + TotalSize(rs[1..])
  }

  lemma {:induction false} EncodedSize(crc: Checksum, rs: seq<Record>)
    ensures |EncodeAll(crc, rs)| == TotalSize(rs)
    decreases |rs|
  {
    if rs != [] {
      EncodedSize(crc, rs[1..]);
    }
  }

  lemma {:induction false} NormalSize(rs: seq<Record>)
    ensures TotalSize(NormalAll(rs)) == TotalSize(rs)
    decreases |rs|
  {
    if rs != [] {
      assert NormalAll(rs)[1..] == NormalAll(rs[1..]);
      NormalSize(rs[1..]);
    }
  }

  lemma {:induction false} EncodePrefix(crc: Checksum, rs: seq<Record>, m: nat)
    requires m <= |rs|
    ensures EncodeAll(crc, rs[..m]) <= EncodeAll(crc, rs)
    decreases m
  {
    if m > 0 {
      assert rs[..m][1..] == rs[1..][..m - 1];
      EncodePrefix(crc, rs[1..], m - 1);
    }
  }

  lemma {:induction false} EncodeConcat(crc: Checksum, rs: seq<Record>, ss: seq<Record>)
    ensures EncodeAll(crc, rs + ss) == EncodeAll(crc, rs) + EncodeAll(crc, ss)
    decreases |rs|
  {
    if rs == [] {
      assert rs + ss == ss;
    } else {
      assert (rs + ss)[1..] == rs[1..] + ss;
      EncodeConcat(crc, rs[1..], ss);
    }
  }

  lemma {:induction false} WholeFits(crc: Checksum, rs: seq<Record>, cut: nat)
    requires cut <= |EncodeAll(crc, rs)|
    ensures TotalSize(rs[..WholeCount(rs, cut)]) <= cut
    ensures WholeCount(rs, cut) < |rs| ==> cut < TotalSize(rs[..WholeCount(rs, cut) + 1])
    decreases |rs|
  {
    if rs != [] && cut >= RecordSize(rs[0]) {
      var m := WholeCount(rs, cut);
      assert rs[..m][1..] == rs[1..][..m - 1];
      if m < |rs| {
        assert rs[..m + 1][1..] == rs[1..][..m];
      }
      WholeFits(crc, rs[1..], cut - RecordSize(rs[0]));
    } else if rs != [] {
      assert rs[..1][1..] == [];
    }
  }

  /** The number of bytes taken by the records that are read. */
  function ValidSize(crc: Checksum, file: seq<byte>): nat {
    match Read(crc, file)
    case Records(rs) => TotalSize(rs)
    case Panic(_) => 0
  }

  lemma ValidSizeIs(crc: Checksum, file: seq<byte>, kept: seq<Record>)
    requires Read(crc, file) == Records(NormalAll(kept))
    ensures ValidSize(crc, file) == TotalSize(kept)
  {
    NormalSize(kept);
  }

  /** The bytes of the kept records stand at the start of the torn log. */
  lemma KeptBytes(crc: Checksum, rs: seq<Record>, cut: nat, m: nat)
    requires cut <= |EncodeAll(crc, rs)| && m <= |rs| && TotalSize(rs[..m]) <= cut
    ensures EncodeAll(crc, rs)[..cut][..TotalSize(rs[..m])] == EncodeAll(crc, rs[..m])
  {
    EncodedSize(crc, rs[..m]);
    EncodePrefix(crc, rs, m);
  }

  /** The valid size of a torn log is the boundary after its last whole record. */
  lemma ValidSizeIsBoundary(crc: Checksum, rs: seq<Record>, cut: nat)
    requires AllFit(rs) && cut <= |EncodeAll(crc, rs)| && Readable(rs[..WholeCount(rs, cut)])
    ensures var torn := EncodeAll(crc, rs)[..cut];
            var kept := rs[..WholeCount(rs, cut)];
            && ValidSize(crc, torn) == TotalSize(kept) <= cut
            && torn[..ValidSize(crc, torn)] == EncodeAll(crc, kept)
  {
    TornTail(crc, rs, cut);
    ValidSizeIs(crc, EncodeAll(crc, rs)[..cut], rs[..WholeCount(rs, cut)]);
    WholeFits(crc, rs, cut);
    KeptBytes(crc, rs, cut, WholeCount(rs, cut));
  }

  /** An undamaged log is read in full. */
  lemma ReadWhole(crc: Checksum, rs: seq<Record>)
    requires AllFit(rs) && Readable(rs)
    ensures Read(crc, EncodeAll(crc, rs)) == Records(NormalAll(rs))
  {
    AllWhole(crc, rs);
    TornTail(crc, rs, |EncodeAll(crc, rs)|);
    assert EncodeAll(crc, rs)[..|EncodeAll(crc, rs)|] == EncodeAll(crc, rs);
    assert rs[..|rs|] == rs;
  }

  /** Records appended after the cut to the valid size are read behind the kept ones. */
  lemma TruncateThenAppend(crc: Checksum, rs: seq<Record>, cut: nat, more: seq<Record>)
    requires AllFit(rs) && AllFit(more) && cut <= |EncodeAll(crc, rs)|
    requires Readable(rs[..WholeCount(rs, cut)]) && Readable(more)
    ensures var torn := EncodeAll(crc, rs)[..cut];
            && ValidSize(crc, torn) <= |torn|
            && Read(crc, torn[..ValidSize(crc, torn)] + EncodeAll(crc, more))
               == Records(NormalAll(rs[..WholeCount(rs, cut)] + more))
  {
    ValidSizeIsBoundary(crc, rs, cut);
    var kept := rs[..WholeCount(rs, cut)];
    EncodeConcat(crc, kept, more);
    assert AllFit(kept + more) && Readable(kept + more);
    ReadWhole(crc, kept + more);
  }

  lemma {:induction false} AllWhole(crc: Checksum, rs: seq<Record>)
    ensures WholeCount(rs, |EncodeAll(crc, rs)|) == |rs|
    decreases |rs|
  {
    if rs != [] {
      AllWhole(crc, rs[1..]);
    }
  }

  // ---- the program's loops ----

  function Prepend(rs: seq<Record>, o: Outcome): Outcome {
    match o
    case Records(more) => Records(rs + more)
    case Panic(before) => Panic(rs + before)
  }

  /** What was read before `pos`, and what is still to be read. */
  function Resumed(crc: Checksum, file: seq<byte>, pos: nat, rs: seq<Record>): Outcome
    requires pos <= |file|
  {
    Prepend(rs, Read(crc, file[pos..]))
  }

  lemma PrependOne(rs: seq<Record>, r: Record, o: Outcome)
    ensures Prepend(rs, Cons(r, o)) == Prepend(rs + [r], o)
  {
    match o
    case Records(more) => assert rs + ([r] + more) == rs + [r] + more;
    case Panic(before) => assert rs + ([r] + before) == rs + [r] + before;
  }

  lemma ResumedStart(crc: Checksum, file: seq<byte>)
    ensures Resumed(crc, file, 0, []) == Read(crc, file)
  {
    assert file[0..] == file;
  }

  lemma ResumedStep(crc: Checksum, file: seq<byte>, pos: nat, rs: seq<Record>, item: Item)
    requires pos <= |file| && item == ReadOne(crc, file[pos..])
    ensures item.Stop? ==> Resumed(crc, file, pos, rs) == Records(rs)
    ensures item.Abort? ==> Resumed(crc, file, pos, rs) == Panic(rs)
    ensures item.Item? ==> Resumed(crc, file, pos, rs) == Resumed(crc, file, pos + item.size, rs + [item.record])
  {
    if item.Item? {
      assert file[pos..][item.size..] == file[pos + item.size..];
      PrependOne(rs, item.record, Read(crc, file[pos + item.size..]));
    }
  }

  /** Header, body, checksum, slices, in the order the program takes them. */
  method ReadRecordAt(crc: Checksum, file: seq<byte>, pos: nat) returns (item: Item)
    requires pos <= |file|
    ensures item == ReadOne(crc, file[pos..])
  {
    var rest := file[pos..];
    if |rest| < HEADER { return Stop; }
    var header := rest[..HEADER];
    var stored := FromBytes(header[0..4]);
    var op := header[4];
    var keyLen := FromBytes(header[5..7]);
    var valueLen := FromBytes(header[7..11]);
    assert header[0..4] == rest[0..4] && header[5..7] == rest[5..7] && header[7..11] == rest[7..11];
    if |rest| < HEADER + keyLen + valueLen { return Stop; }
    var body := [op] + ToBytes(keyLen, 2) + ToBytes(valueLen, 4) + rest[HEADER..HEADER + keyLen + valueLen];
    if crc(body) != stored { return Stop; }
    var end := (7 + keyLen) % U16;
    if end < 7 || end > |body| { return Abort; }
    var key := body[7..end];
    var value := Nil;
    if valueLen > 0 {
      value := Of(body[7 + keyLen..]);
    }
    item := Item(Record(op, key, value), HEADER + keyLen + valueLen);
  }

  /** The record at `pos`, and how reading goes on from behind it. */
  method ReadNext(crc: Checksum, file: seq<byte>, pos: nat, ghost rs: seq<Record>) returns (item: Item)
    requires pos <= |file|
    ensures item.Stop? ==> Resumed(crc, file, pos, rs) == Records(rs)
    ensures item.Abort? ==> Resumed(crc, file, pos, rs) == Panic(rs)
    ensures item.Item? ==> 0 < item.size && pos + item.size <= |file|
    ensures item.Item? ==> Resumed(crc, file, pos, rs) == Resumed(crc, file, pos + item.size, rs + [item.record])
  {
    item := ReadRecordAt(crc, file, pos);
    ResumedStep(crc, file, pos, rs, item);
  }

  method ReadRecords(crc: Checksum, file: seq<byte>) returns (o: Outcome)
    ensures o == Read(crc, file)
  {
    var records := [];
    var pos: nat := 0;
    ghost var all := Read(crc, file);
    ResumedStart(crc, file);
    while true
      invariant pos <= |file|
      invariant Resumed(crc, file, pos, records) == all
      decreases |file| - pos
    {
      var item := ReadNext(crc, file, pos, records);
      match item
      case Stop => return Records(records);
      case Abort => return Panic(records);
      case Item(r, size) =>
        records := records + [r];
        pos := pos + size;
    }
  }

  /** The sizes of the first `count` records of the file, added up. */
  method ComputeValidSize(crc: Checksum, file: seq<byte>, count: nat) returns (total: nat)
    requires Read(crc, file).Records? && count == |Read(crc, file).rs|
    ensures total == ValidSize(crc, file)
  {
    if count == 0 { return 0; }
    var o := ReadRecords(crc, file);
    var records := o.rs;
    total := 0;
    var i := 0;
    while i < count && i < |records|
      invariant 0 <= i <= |records|
      invariant total + TotalSize(records[i..]) == TotalSize(records)
    {
      assert records[i..][1..] == records[i + 1..];
      total := total + (HEADER + |records[i].key| + |records[i].value.Content()|);
      i := i + 1;
    }
  }

  /** The open log file. */
  class Log {
    const crc: Checksum
    var file: seq<byte>

    constructor (crc: Checksum, content: seq<byte>)
      ensures this.crc == crc && file == content
    {
      this.crc := crc;
      file := content;
    }

    /** The record is added at the end of the file, unless its key is too long. */
    method Append(op: byte, key: Key, value: Slice) returns (ok: bool)
      modifies this
      ensures ok == (|key| <= MAX_KEY)
      ensures file == if ok then old(file) + EncodeRecord(crc, Record(op, key, value)) else old(file)
    {
      if |key| > MAX_KEY { return false; }
      var v := value.Content();
      var size := 7 + |key| + |v|;
      var body := new byte[size](_ => 0);
      body[0] := op;
      assert body[..1] == [op];
      PutAt(body, 1, ToBytes(|key|, 2));
      PutAt(body, 3, ToBytes(|v|, 4));
      PutAt(body, 7, key);
      PutAt(body, 7 + |key|, v);
      assert body[..] == body[..7 + |key| + |v|] == Body(op, key, v);
      file := file + (ToBytes(crc(body[..]), 4) + body[..]);
      ok := true;
    }
  }

  /** Copies `s` into the buffer from position `at` on. */
  method PutAt(buf: array<byte>, at: nat, s: seq<byte>)
    requires at + |s| <= buf.Length
    modifies buf
    ensures buf[..at + |s|] == old(buf[..at]) + s
    ensures buf[at + |s|..] == old(buf[at + |s|..])
  {
    var i := 0;
    while i < |s|
      invariant 0 <= i <= |s|
      invariant forall k :: 0 <= k < buf.Length ==> buf[k] == if at <= k < at + i then s[k - at] else old(buf[k])
    {
      buf[at + i] := s[i];
      i := i + 1;
    }
  }
}
