/**
 The sorted table file: records, a sparse index of every 16th key, a footer that says
 where the index is; opening it, looking a key up in it, reading it in full.
 */
module SSTable {
  import opened Bytes
  import opened Storage
  import opened SkipList

  const INTERVAL: nat := 16
  const FOOTER: nat := 16
  const HEADER: nat := 7
  const I64: nat := 0x8000_0000_0000_0000

  // ---- the format ----

  function EncodeEntry(e: MemEntry): seq<byte> {
    ToBytes(|e.key|, 2) + ToBytes(|e.value.Content()|, 4) + [e.op] + e.key + e.value.Content()
  }

  function EntrySize(e: MemEntry): nat {
    HEADER + |e.key| + |e.value.Content()|
  }

  function DataSize(es: seq<MemEntry>): nat {
    if es == [] then 0 else EntrySize(es[0]) + DataSize(es[1..])
  }

  function Chunks(es: seq<MemEntry>): (cs: seq<seq<byte>>)
    ensures |cs| == |es|
  {
    seq(|es|, i requires 0 <= i < |es| => EncodeEntry(es[i]))
  }

  function Flat(cs: seq<seq<byte>>): seq<byte> {
    if cs == [] then [] else cs[0] + Flat(cs[1..])
  }

  /** The records of the entries, one after the other. */
  function Data(es: seq<MemEntry>): seq<byte> {
    Flat(Chunks(es))
  }

  datatype IndexEntry = IndexEntry(key: Key, offset: nat)

  /** An index entry for every 16th record; `at` counts the records before. */
  function SparseIndex(es: seq<MemEntry>, at: nat, offset: nat): seq<IndexEntry>
    decreases |es|
  {
    if es == [] then []
    else (if at % INTERVAL == 0 then [IndexEntry(es[0].key, offset)] else [])
         + SparseIndex(es[1..], at + 1, offset + EntrySize(es[0]))
  }

  function EncodeIndexEntry(ie: IndexEntry): seq<byte> {
    ToBytes(|ie.key|, 2) + ie.key + ToBytes(ie.offset, 8)
  }

  function IndexBytes(ix: seq<IndexEntry>): seq<byte> {
    if ix == [] then [] else EncodeIndexEntry(ix[0]) + IndexBytes(ix[1..])
  }

  function Index(es: seq<MemEntry>): seq<IndexEntry> {
    SparseIndex(es, 0, 0)
  }

  /** What follows `size` bytes of records: the index and the footer. */
  function Ending(size: nat, index: seq<byte>): seq<byte> {
    index + (ToBytes(size, 8) + ToBytes(|index|, 8))
  }

  /** A file of records, index and footer. */
  function Assemble(data: seq<byte>, index: seq<byte>): seq<byte> {
    data + Ending(|data|, index)
  }

  function Tail(es: seq<MemEntry>): seq<byte> {
    Ending(|Data(es)|, IndexBytes(Index(es)))
  }

  function Image(es: seq<MemEntry>): seq<byte> {
    Assemble(Data(es), IndexBytes(Index(es)))
  }

  predicate Fits(e: MemEntry) {
    |e.key| < U16 && |e.value.Content()| < U32
  }

  ghost predicate AllFit(es: seq<MemEntry>) {
    forall i :: 0 <= i < |es| ==> Fits(es[i])
  }

  /** The lengths fit their fields, and offsets stay non-negative 64-bit numbers. */
  ghost predicate Writable(es: seq<MemEntry>) {
    AllFit(es) && |Image(es)| < I64
  }

  // ---- records in a byte string ----

  datatype Item = Stop | Item(entry: MemEntry, size: nat)

  /** The record at the start of `s`, if all of it is there. */
  function DecodeOne(s: seq<byte>): (item: Item)
    ensures item.Item? ==> 0 < item.size <= |s|
  {
    if |s| < HEADER then Stop
    else
      var keyLen := FromBytes(s[0..2]);
      var valueLen := FromBytes(s[2..6]);
      if |s| < HEADER + keyLen + valueLen then Stop
      else
        Item(MemEntry(s[HEADER..HEADER + keyLen], Of(s[HEADER + keyLen..HEADER + keyLen + valueLen]), s[6]),
             HEADER + keyLen + valueLen)
  }

  /** What finds a record at the start of a byte string. */
  type Decoder = d: seq<byte> -> Item | forall s :: d(s).Item? ==> 0 < d(s).size <= |s| witness s => Stop

  /** Records one after the other, until none is found. */
  function Gather(d: Decoder, s: seq<byte>): seq<MemEntry>
    decreases |s|
  {
    match d(s)
    case Stop => []
    case Item(e, size) => [e] + Gather(d, s[size..])
  }

  function DecodeAll(s: seq<byte>): seq<MemEntry> {
    Gather(DecodeOne, s)
  }

  /** An entry as a lookup gives it out: nil was written as an empty value. */
  function Stored(e: MemEntry): MemEntry {
    e.(value := Of(e.value.Content()))
  }

  function StoredAll(es: seq<MemEntry>): (ss: seq<MemEntry>)
    ensures |ss| == |es|
    ensures forall i :: 0 <= i < |es| ==> ss[i] == Stored(es[i])
  {
    if es == [] then [] else [Stored(es[0])] + StoredAll(es[1..])
  }

  lemma DecodeOneBack(e: MemEntry, rest: seq<byte>)
    requires Fits(e)
    ensures DecodeOne(EncodeEntry(e) + rest) == Item(Stored(e), |EncodeEntry(e)|)
  {
    var v := e.value.Content();
    var s := EncodeEntry(e) + rest;
    RoundTrip16(|e.key|);
    RoundTrip32(|v|);
    assert s[0..2] == ToBytes(|e.key|, 2);
    assert s[2..6] == ToBytes(|v|, 4);
    assert s[HEADER..HEADER + |e.key|] == e.key;
    assert s[HEADER + |e.key|..HEADER + |e.key| + |v|] == v;
  }

  /** Wherever these bytes stand, they read as this entry. */
  ghost predicate ReadsAs(d: Decoder, c: seq<byte>, e: MemEntry) {
    forall rest :: d(c + rest) == Item(e, |c|)
  }

  ghost predicate AllReadAs(d: Decoder, cs: seq<seq<byte>>, es: seq<MemEntry>) {
    && |cs| == |es|
    && forall i :: 0 <= i < |cs| ==> ReadsAs(d, cs[i], es[i])
  }

  lemma ChunksRead(es: seq<MemEntry>)
    requires AllFit(es)
    ensures AllReadAs(DecodeOne, Chunks(es), StoredAll(es))
  {
    forall i, rest | 0 <= i < |es|
      ensures DecodeOne(Chunks(es)[i] + rest) == Item(StoredAll(es)[i], |Chunks(es)[i]|)
    {
      DecodeOneBack(es[i], rest);
    }
  }

  lemma AllReadAsRest(d: Decoder, cs: seq<seq<byte>>, es: seq<MemEntry>)
    requires AllReadAs(d, cs, es) && cs != []
    ensures ReadsAs(d, cs[0], es[0]) && AllReadAs(d, cs[1..], es[1..])
  {}

  lemma GatherFirst(d: Decoder, c: seq<byte>, e: MemEntry, more: seq<byte>)
    requires ReadsAs(d, c, e)
    ensures Gather(d, c + more) == [e] + Gather(d, more)
  {
    assert (c + more)[|c|..] == more;
  }

  lemma GatherCons(
    d: Decoder, c: seq<byte>, e: MemEntry, flat: seq<byte>, es: seq<MemEntry>, rest: seq<byte>,
    after: seq<MemEntry>)
    requires ReadsAs(d, c, e) && Gather(d, flat + rest) == es + after
    ensures Gather(d, c + flat + rest) == [e] + es + after
  {
    GatherFirst(d, c, e, flat + rest);
    assert c + flat + rest == c + (flat + rest);
    assert [e] + es + after == [e] + (es + after);
  }

  lemma {:induction false} GatherFlat(d: Decoder, cs: seq<seq<byte>>, es: seq<MemEntry>, rest: seq<byte>)
    requires AllReadAs(d, cs, es)
    ensures Gather(d, Flat(cs) + rest) == es + Gather(d, rest)
    decreases |cs|
  {
    if cs == [] {
      assert Flat(cs) + rest == rest && es == [];
    } else {
      AllReadAsRest(d, cs, es);
      GatherFlat(d, cs[1..], es[1..], rest);
      GatherCons(d, cs[0], es[0], Flat(cs[1..]), es[1..], rest, Gather(d, rest));
      assert es == [es[0]] + es[1..];
    }
  }

  /** Records written in a row are read in a row, whatever follows them. */
  lemma DecodeData(es: seq<MemEntry>, rest: seq<byte>)
    requires AllFit(es)
    ensures DecodeAll(Data(es) + rest) == StoredAll(es) + DecodeAll(rest)
  {
    ChunksRead(es);
    GatherFlat(DecodeOne, Chunks(es), StoredAll(es), rest);
  }

  // ---- the search along records ----

  /** The first record whose key is not smaller decides. */
  function Walk(es: seq<MemEntry>, key: Key): Probe {
    if es == [] || Less(key, es[0].key) then Miss
    else if es[0].key == key then (if es[0].op == OP_DELETE then Hit(Nil) else Hit(es[0].value))
    else Walk(es[1..], key)
  }

  /** Smaller records in front make no difference. */
  lemma {:induction false} WalkSkips(es: seq<MemEntry>, n: nat, key: Key)
    requires n <= |es| && forall i :: 0 <= i < n ==> Less(es[i].key, key)
    ensures Walk(es, key) == Walk(es[n..], key)
    decreases n
  {
    if n > 0 {
      LessAsymmetric(es[0].key, key);
      WalkSkips(es[1..], n - 1, key);
      assert es[1..][n - 1..] == es[n..];
    } else {
      assert es[0..] == es;
    }
  }

  /** On sorted records that reach up to the key, the search is a lookup, whatever follows them. */
  lemma {:induction false} WalkFinds(es: seq<MemEntry>, rest: seq<MemEntry>, key: Key)
    requires Sorted(es) && (es == [] ==> rest == []) && (rest != [] ==> !Less(es[|es| - 1].key, key))
    ensures Walk(es + rest, key) == ProbeOf(ToTable(es), key)
    decreases |es|
  {
    if es == [] {
      assert es + rest == [];
    } else {
      TableKeys(es[1..]);
      LessIrreflexive(key);
      if Less(key, es[0].key) {
        KeyBelow(es, key);
      } else if es[0].key != key {
        LessTotal(es[0].key, key);
        assert (es + rest)[1..] == es[1..] + rest;
        WalkFinds(es[1..], rest, key);
      }
    }
  }

  lemma KeyBelow(es: seq<MemEntry>, key: Key)
    requires Sorted(es) && es != [] && Less(key, es[0].key)
    ensures key !in ToTable(es)
  {
    TableKeys(es);
    LessIrreflexive(key);
    forall i | 1 <= i < |es|
      ensures Less(key, es[i].key)
    {
      LessTransitive(key, es[0].key, es[i].key);
    }
  }

  lemma KeyAbove(es: seq<MemEntry>, key: Key)
    requires Sorted(es) && es != [] && Less(es[|es| - 1].key, key)
    ensures key !in ToTable(es) && forall i :: 0 <= i < |es| ==> Less(es[i].key, key)
  {
    TableKeys(es);
    LessIrreflexive(key);
    forall i | 0 <= i < |es| - 1
      ensures Less(es[i].key, key)
    {
      LessTransitive(es[i].key, es[|es| - 1].key, key);
    }
  }

  /** Some record has the key, and all records before it have smaller keys. */
  ghost predicate Exposed(es: seq<MemEntry>, key: Key) {
    exists i :: 0 <= i < |es| && es[i].key == key && forall j :: 0 <= j < i ==> Less(es[j].key, key)
  }

  lemma {:induction false} WalkHits(es: seq<MemEntry>, key: Key)
    ensures Walk(es, key).Hit? <==> Exposed(es, key)
    decreases |es|
  {
    LessIrreflexive(key);
    if es != [] {
      WalkHits(es[1..], key);
      LessTotal(es[0].key, key);
      if Less(es[0].key, key) {
        LessAsymmetric(es[0].key, key);
        if Walk(es[1..], key).Hit? {
          var i :| 0 <= i < |es[1..]| && es[1..][i].key == key && forall j :: 0 <= j < i ==> Less(es[1..][j].key, key);
          assert forall j :: 0 <= j < i + 1 ==> es[j] == if j == 0 then es[0] else es[1..][j - 1];
          assert es[i + 1].key == key;
        }
        if Exposed(es, key) {
          var i :| 0 <= i < |es| && es[i].key == key && forall j :: 0 <= j < i ==> Less(es[j].key, key);
          assert i > 0 && es[1..][i - 1].key == key;
          assert forall j :: 0 <= j < i - 1 ==> es[1..][j] == es[j + 1];
        }
      }
    }
  }

  // ---- the index ----

  lemma {:induction false} FlatSplit(cs: seq<seq<byte>>, n: nat)
    requires n <= |cs|
    ensures Flat(cs) == Flat(cs[..n]) + Flat(cs[n..])
    decreases n
  {
    if n == 0 {
      assert cs[..0] == [] && cs[0..] == cs;
    } else {
      FlatSplit(cs[1..], n - 1);
      assert cs[..n][1..] == cs[1..][..n - 1];
      assert cs[1..][n - 1..] == cs[n..];
    }
  }

  lemma DataSplit(es: seq<MemEntry>, n: nat)
    requires n <= |es|
    ensures Data(es) == Data(es[..n]) + Data(es[n..])
  {
    FlatSplit(Chunks(es), n);
    assert Chunks(es)[..n] == Chunks(es[..n]) && Chunks(es)[n..] == Chunks(es[n..]);
  }

  lemma {:induction false} DataLength(es: seq<MemEntry>)
    ensures |Data(es)| == DataSize(es)
    decreases |es|
  {
    if es != [] {
      DataLength(es[1..]);
      assert Chunks(es)[1..] == Chunks(es[1..]);
    }
  }

  /** How many index entries precede record number `at + n`, counting from record number `at`. */
  function Marks(at: nat, n: nat): nat {
    (at + n + INTERVAL - 1) / INTERVAL - (at + INTERVAL - 1) / INTERVAL
  }

  /** The index has an entry, with key and position, for every 16th record, and no other. */
  lemma {:induction false} IndexHas(es: seq<MemEntry>, at: nat, offset: nat, n: nat)
    requires n < |es| && (at + n) % INTERVAL == 0
    ensures Marks(at, n) < |SparseIndex(es, at, offset)|
    ensures SparseIndex(es, at, offset)[Marks(at, n)] == IndexEntry(es[n].key, offset + DataSize(es[..n]))
    decreases n
  {
    if n == 0 {
      assert es[..0] == [];
    } else {
      IndexHas(es[1..], at + 1, offset + EntrySize(es[0]), n - 1);
      assert es[..n][1..] == es[1..][..n - 1];
      MarksStep(at, n);
    }
  }

  lemma MarksStep(at: nat, n: nat)
    requires n > 0
    ensures Marks(at, n) == Marks(at + 1, n - 1) + if at % INTERVAL == 0 then 1 else 0
  {}

  lemma {:induction false} IndexLength(es: seq<MemEntry>, at: nat, offset: nat)
    ensures |SparseIndex(es, at, offset)| == Marks(at, |es|)
    decreases |es|
  {
    if es != [] {
      IndexLength(es[1..], at + 1, offset + EntrySize(es[0]));
      MarksStep(at, |es|);
    }
  }

  lemma IndexEntryIs(es: seq<MemEntry>, m: nat)
    requires m < |Index(es)|
    ensures m * INTERVAL < |es|
    ensures Index(es)[m] == IndexEntry(es[m * INTERVAL].key, DataSize(es[..m * INTERVAL]))
  {
    IndexLength(es, 0, 0);
    IndexHas(es, 0, 0, m * INTERVAL);
  }

  lemma IndexNonEmpty(es: seq<MemEntry>)
    requires es != []
    ensures |Index(es)| > 0
  {
    IndexLength(es, 0, 0);
  }

  function ParseIndex(s: seq<byte>): seq<IndexEntry>
    decreases |s|
  {
    if |s| < 2 then []
    else
      var keyLen := FromBytes(s[0..2]);
      if |s| < 2 + keyLen + 8 then []
      else
        [IndexEntry(s[2..2 + keyLen], FromBytes(s[2 + keyLen..2 + keyLen + 8]))] + ParseIndex(s[2 + keyLen + 8..])
  }

  ghost predicate IndexFits(ix: seq<IndexEntry>) {
    forall m :: 0 <= m < |ix| ==> |ix[m].key| < U16 && ix[m].offset < U64
  }

  lemma {:induction false} ParseBack(ix: seq<IndexEntry>)
    requires IndexFits(ix)
    ensures ParseIndex(IndexBytes(ix)) == ix
    decreases |ix|
  {
    if ix != [] {
      var ie := ix[0];
      var s := IndexBytes(ix);
      RoundTrip16(|ie.key|);
      RoundTrip64(ie.offset);
      assert s[0..2] == ToBytes(|ie.key|, 2);
      assert s[2..2 + |ie.key|] == ie.key;
      assert s[2 + |ie.key|..2 + |ie.key| + 8] == ToBytes(ie.offset, 8);
      assert s[2 + |ie.key| + 8..] == IndexBytes(ix[1..]);
      ParseBack(ix[1..]);
    }
  }

  // ---- opening ----

  datatype Opened = Reader(index: seq<IndexEntry>) | Refused | Panic

  /** A 64-bit word read as a signed number. */
  function Signed(n: nat): int {
    if n < I64 then n else n - U64
  }

  function Open(file: seq<byte>): Opened {
    if |file| < FOOTER then Refused
    else
      var footer := file[|file| - FOOTER..];
      var offset := Signed(FromBytes(footer[0..8]));
      var size := Signed(FromBytes(footer[8..16]));
      if size < 0 then Panic
      else if offset < 0 then Refused
      else if size > 0 && offset + size > |file| then Refused
      else Reader(ParseIndex(if size == 0 then [] else file[offset..offset + size]))
  }

  /** The footer of the file names this stretch, and these are its bytes. */
  ghost predicate FooterSays(file: seq<byte>, offset: nat, index: seq<byte>) {
    && FOOTER <= |file| && offset + |index| <= |file|
    && Signed(FromBytes(file[|file| - FOOTER..][0..8])) == offset
    && Signed(FromBytes(file[|file| - FOOTER..][8..16])) == |index|
    && file[offset..offset + |index|] == index
  }

  lemma FooterBack(data: seq<byte>, index: seq<byte>)
    requires |data| < I64 && |index| < I64
    ensures FooterSays(Assemble(data, index), |data|, index)
  {
    var footer := ToBytes(|data|, 8) + ToBytes(|index|, 8);
    var file := Assemble(data, index);
    assert file[|file| - FOOTER..] == footer;
    assert footer[0..8] == ToBytes(|data|, 8) && footer[8..16] == ToBytes(|index|, 8);
    RoundTrip64(|data|);
    RoundTrip64(|index|);
  }

  lemma OpenWhole(file: seq<byte>, offset: nat, index: seq<byte>)
    requires FooterSays(file, offset, index)
    ensures Open(file) == Reader(ParseIndex(index))
  {}

  lemma {:induction false} OpenAssembled(data: seq<byte>, index: seq<byte>)
    requires |data| < I64 && |index| < I64
    ensures Open(Assemble(data, index)) == Reader(ParseIndex(index))
  {
    FooterBack(data, index);
    OpenWhole(Assemble(data, index), |data|, index);
  }

  lemma IndexIsFit(es: seq<MemEntry>)
    requires AllFit(es) && |Data(es)| < I64
    ensures IndexFits(Index(es))
  {
    forall m | 0 <= m < |Index(es)|
      ensures |Index(es)[m].key| < U16 && Index(es)[m].offset < U64
    {
      IndexEntryIs(es, m);
      DataSplit(es, m * INTERVAL);
      DataLength(es[..m * INTERVAL]);
    }
  }

  /** Opening a written table gives the index it was written with. */
  lemma OpenBack(es: seq<MemEntry>)
    requires Writable(es)
    ensures Open(Image(es)) == Reader(Index(es))
  {
    OpenAssembled(Data(es), IndexBytes(Index(es)));
    IndexIsFit(es);
    ParseBack(Index(es));
  }

  // ---- lookup ----

  /** The halving search for the last index entry that is not above the key. */
  function Search(ix: seq<IndexEntry>, key: Key, lo: int, hi: int, start: nat): nat
    requires 0 <= lo && hi < |ix|
    decreases hi - lo + 1
  {
    if lo > hi then start
    else
      var mid := (lo + hi) / 2;
      if !Less(key, ix[mid].key) then Search(ix, key, mid + 1, hi, ix[mid].offset)
      else Search(ix, key, lo, mid - 1, start)
  }

  function Get(ix: seq<IndexEntry>, file: seq<byte>, key: Key): Probe {
    if ix == [] then Miss
    else
      var start := Search(ix, key, 0, |ix| - 1, ix[0].offset);
      if start <= |file| then Walk(DecodeAll(file[start..]), key) else Miss
  }

  /** The search ends at the first entry or at one not above the key. */
  lemma {:induction false} SearchLands(ix: seq<IndexEntry>, key: Key, lo: int, hi: int, s: nat)
    requires 0 <= lo && hi < |ix| && s < |ix| && (s == 0 || !Less(key, ix[s].key))
    ensures exists m ::
              && 0 <= m < |ix| && (m == 0 || !Less(key, ix[m].key))
              && Search(ix, key, lo, hi, ix[s].offset) == ix[m].offset
    decreases hi - lo + 1
  {
    if lo <= hi {
      var mid := (lo + hi) / 2;
      if !Less(key, ix[mid].key) {
        SearchLands(ix, key, mid + 1, hi, mid);
      } else {
        SearchLands(ix, key, lo, mid - 1, s);
      }
    } else {
      assert Search(ix, key, lo, hi, ix[s].offset) == ix[s].offset;
    }
  }

  /** What a scan finds behind the records: index and footer read as if they were records. */
  function Phantoms(es: seq<MemEntry>): seq<MemEntry> {
    DecodeAll(Tail(es))
  }

  lemma SearchFound(ix: seq<IndexEntry>, key: Key) returns (m: nat)
    requires ix != []
    ensures m < |ix| && (m == 0 || !Less(key, ix[m].key)) && Search(ix, key, 0, |ix| - 1, ix[0].offset) == ix[m].offset
  {
    SearchLands(ix, key, 0, |ix| - 1, 0);
    m :| 0 <= m < |ix| && (m == 0 || !Less(key, ix[m].key))
      && Search(ix, key, 0, |ix| - 1, ix[0].offset) == ix[m].offset;
  }

  /** Every index entry leads to its record, and from there the rest of the file is read. */
  ghost predicate Locates(ix: seq<IndexEntry>, file: seq<byte>, es: seq<MemEntry>, rest: seq<MemEntry>) {
    forall m :: 0 <= m < |ix| ==>
      && m * INTERVAL < |es| && ix[m].key == es[m * INTERVAL].key && ix[m].offset <= |file|
      && DecodeAll(file[ix[m].offset..]) == StoredAll(es[m * INTERVAL..]) + rest
  }

  lemma RecordsFrom(es: seq<MemEntry>, n: nat)
    requires n <= |es| && AllFit(es)
    ensures DataSize(es[..n]) <= |Image(es)|
    ensures DecodeAll(Image(es)[DataSize(es[..n])..]) == StoredAll(es[n..]) + Phantoms(es)
  {
    DataSplit(es, n);
    DataLength(es[..n]);
    Behind(Data(es[..n]), Data(es[n..]), Tail(es));
    DecodeData(es[n..], Tail(es));
  }

  lemma Behind(a: seq<byte>, b: seq<byte>, c: seq<byte>)
    ensures (a + b + c)[|a|..] == b + c
  {}

  lemma IndexLocates(es: seq<MemEntry>)
    requires AllFit(es)
    ensures Locates(Index(es), Image(es), es, Phantoms(es))
  {
    forall m | 0 <= m < |Index(es)|
      ensures m * INTERVAL < |es| && Index(es)[m].key == es[m * INTERVAL].key && Index(es)[m].offset <= |Image(es)|
      ensures DecodeAll(Image(es)[Index(es)[m].offset..]) == StoredAll(es[m * INTERVAL..]) + Phantoms(es)
    {
      IndexEntryIs(es, m);
      RecordsFrom(es, m * INTERVAL);
    }
  }

  /** Starting at a record not above the key, or at the first one, loses nothing. */
  lemma WalkFrom(es: seq<MemEntry>, rest: seq<MemEntry>, n: nat, key: Key)
    requires Sorted(es) && n < |es| && (n == 0 || !Less(key, es[n].key))
    ensures Walk(StoredAll(es[n..]) + rest, key) == Walk(StoredAll(es) + rest, key)
  {
    var all := StoredAll(es) + rest;
    assert all[n..] == StoredAll(es[n..]) + rest;
    forall i | 0 <= i < n
      ensures Less(all[i].key, key)
    {
      LessTotal(es[n].key, key);
      if es[n].key != key {
        LessTransitive(es[i].key, es[n].key, key);
      }
    }
    WalkSkips(all, n, key);
  }

  lemma LocatedGet(ix: seq<IndexEntry>, file: seq<byte>, es: seq<MemEntry>, rest: seq<MemEntry>, key: Key)
    requires ix != [] && Sorted(es) && Locates(ix, file, es, rest)
    ensures Get(ix, file, key) == Walk(StoredAll(es) + rest, key)
  {
    var m := SearchFound(ix, key);
    WalkFrom(es, rest, m * INTERVAL, key);
  }

  /** The lookup is a search along all records and the phantoms, wherever the index makes it start. */
  lemma GetWalks(es: seq<MemEntry>, key: Key)
    requires es != [] && Sorted(es) && AllFit(es)
    ensures Get(Index(es), Image(es), key) == Walk(StoredAll(es) + Phantoms(es), key)
  {
    IndexNonEmpty(es);
    IndexLocates(es);
    LocatedGet(Index(es), Image(es), es, Phantoms(es), key);
  }

  /** Looking up through index and bytes is a plain lookup for every key up to the last one. */
  lemma GetFinds(es: seq<MemEntry>, key: Key)
    requires es != [] && Sorted(es) && Writable(es) && !Less(es[|es| - 1].key, key)
    ensures Get(Index(es), Image(es), key) == ProbeOf(ToTable(StoredAll(es)), key)
  {
    GetWalks(es, key);
    WalkFinds(StoredAll(es), Phantoms(es), key);
  }

  /** Beyond the last key only phantoms are left to find. */
  lemma GetBeyond(es: seq<MemEntry>, key: Key)
    requires es != [] && Sorted(es) && Writable(es) && Less(es[|es| - 1].key, key)
    ensures Get(Index(es), Image(es), key) == Walk(Phantoms(es), key)
    ensures ProbeOf(ToTable(StoredAll(es)), key) == Miss
  {
    GetWalks(es, key);
    KeyAbove(StoredAll(es), key);
    WalkSkips(StoredAll(es) + Phantoms(es), |es|, key);
    assert (StoredAll(es) + Phantoms(es))[|es|..] == Phantoms(es);
  }

  /** Exactly the keys beyond the last one that a phantom carries are answered wrongly. */
  lemma GetExact(es: seq<MemEntry>, key: Key)
    requires es != [] && Sorted(es) && Writable(es)
    ensures Get(Index(es), Image(es), key) == ProbeOf(ToTable(StoredAll(es)), key)
            <==> !(Less(es[|es| - 1].key, key) && Exposed(Phantoms(es), key))
  {
    if Less(es[|es| - 1].key, key) {
      GetBeyond(es, key);
      WalkHits(Phantoms(es), key);
    } else {
      GetFinds(es, key);
    }
  }

  /** An exposed phantom is found, although no record has its key. */
  lemma PhantomAnswers(es: seq<MemEntry>, key: Key)
    requires es != [] && Sorted(es) && Writable(es) && Less(es[|es| - 1].key, key) && Exposed(Phantoms(es), key)
    ensures Get(Index(es), Image(es), key).Hit? && ProbeOf(ToTable(StoredAll(es)), key) == Miss
  {
    GetBeyond(es, key);
    WalkHits(Phantoms(es), key);
  }

  /** Were the scan to stop where the index begins, every key would be answered rightly. */
  lemma StoppingAtIndex(es: seq<MemEntry>, key: Key)
    requires Sorted(es) && AllFit(es)
    ensures Get(Index(es), Data(es), key) == ProbeOf(ToTable(StoredAll(es)), key)
  {
    if es != [] {
      IndexNonEmpty(es);
      DataLocates(es);
      LocatedGet(Index(es), Data(es), es, [], key);
      assert StoredAll(es) + [] == StoredAll(es);
      WalkFinds(StoredAll(es), [], key);
    }
  }

  /** The index leads into the records alone as well. */
  lemma DataLocates(es: seq<MemEntry>)
    requires AllFit(es)
    ensures Locates(Index(es), Data(es), es, [])
  {
    forall m | 0 <= m < |Index(es)|
      ensures m * INTERVAL < |es| && Index(es)[m].key == es[m * INTERVAL].key && Index(es)[m].offset <= |Data(es)|
      ensures DecodeAll(Data(es)[Index(es)[m].offset..]) == StoredAll(es[m * INTERVAL..]) + []
    {
      IndexEntryIs(es, m);
      RecordsBehind(es, m * INTERVAL);
    }
  }

  lemma RecordsBehind(es: seq<MemEntry>, n: nat)
    requires n <= |es| && AllFit(es)
    ensures DataSize(es[..n]) <= |Data(es)|
    ensures DecodeAll(Data(es)[DataSize(es[..n])..]) == StoredAll(es[n..]) + []
  {
    DataSplit(es, n);
    DataLength(es[..n]);
    Behind(Data(es[..n]), Data(es[n..]), []);
    assert Data(es[..n]) + Data(es[n..]) + [] == Data(es);
    assert Data(es[n..]) + [] == Data(es[n..]);
    DecodeData(es[n..], []);
    assert DecodeAll([]) == [];
  }

  /** A table of one key, and a key it does not hold that it answers with an empty value. */
  lemma PhantomFound(v: Slice)
    requires |v.Content()| < U32
    ensures var es := [MemEntry([0, 0, 0, 0, 1, 9], v, OP_PUT)];
            var key := [9, 0, 0, 0, 0, 0];
            && Sorted(es) && Writable(es) && key !in ToTable(es)
            && Get(Index(es), Image(es), key) == Hit(Of([]))
  {
    var key: Key := [9, 0, 0, 0, 0, 0];
    var es := [MemEntry([0, 0, 0, 0, 1, 9], v, OP_PUT)];
    assert es[1..] == [];
    assert SparseIndex(es, 0, 0) == [IndexEntry(es[0].key, 0)] + SparseIndex(es[1..], 1, EntrySize(es[0]));
    OneKeyTail(es);
    DataLength(es);
    assert Less(es[0].key, key);
    GetBeyond(es, key);
    assert Phantoms(es)[0] == MemEntry(key, Of([]), OP_PUT);
    LessIrreflexive(key);
    TableKeys(es);
  }

  /** How the tail of that table reads as a record. */
  lemma OneKeyTail(es: seq<MemEntry>)
    requires Index(es) == [IndexEntry([0, 0, 0, 0, 1, 9], 0)]
    ensures |Tail(es)| == 32
    ensures DecodeOne(Tail(es)) == Item(MemEntry([9, 0, 0, 0, 0, 0], Of([]), OP_PUT), 13)
  {
    var ix, tail := Index(es), Tail(es);
    assert ix[1..] == [];
    assert IndexBytes(ix) == EncodeIndexEntry(ix[0]) + IndexBytes(ix[1..]);
    assert tail[..16] == ToBytes(6, 2) + [0, 0, 0, 0, 1, 9] + ToBytes(0, 8);
    PhantomRecord(tail);
  }

  lemma PhantomRecord(s: seq<byte>)
    requires |s| >= 16 && s[..16] == ToBytes(6, 2) + [0, 0, 0, 0, 1, 9] + ToBytes(0, 8)
    ensures DecodeOne(s) == Item(MemEntry([9, 0, 0, 0, 0, 0], Of([]), OP_PUT), 13)
  {
    var t := s[..16];
    Zeros(8);
    Zeros(4);
    assert s[0..2] == t[0..2] == ToBytes(6, 2);
    RoundTrip16(6);
    assert s[2..6] == t[2..6] == ToBytes(0, 4);
    RoundTrip32(0);
    assert s[6] == t[6] == 1;
    assert s[7..13] == t[7..13] == [9, 0, 0, 0, 0, 0];
    assert s[13..13] == [];
  }

  lemma {:induction false} ShiftZero(i: nat)
    ensures Shift(0, i) == 0
    decreases i
  {
    if i > 0 {
      ShiftZero(i - 1);
    }
  }

  lemma Zeros(k: nat)
    ensures forall i :: 0 <= i < k ==> ToBytes(0, k)[i] == 0
  {
    forall i | 0 <= i < k
      ensures ToBytes(0, k)[i] == 0
    {
      ShiftZero(i);
    }
  }

  // ---- the program's loops ----

  lemma RecordNext(es: seq<MemEntry>, i: nat, file: seq<byte>)
    requires i < |es|
    ensures file + Data(es[i..]) == file + EncodeEntry(es[i]) + Data(es[i + 1..])
  {
    assert Chunks(es[i..])[1..] == Chunks(es[i + 1..]);
  }

  lemma MarkNext(es: seq<MemEntry>, i: nat, offset: nat, ix: seq<IndexEntry>)
    requires i < |es|
    ensures ix + SparseIndex(es[i..], i, offset)
         == (if i % INTERVAL == 0 then ix + [IndexEntry(es[i].key, offset)] else ix)
            + SparseIndex(es[i + 1..], i + 1, offset + EntrySize(es[i]))
  {
    assert es[i..][1..] == es[i + 1..];
  }

  /** The records, and on the way the index of every 16th of them. */
  method WriteRecords(entries: seq<MemEntry>) returns (file: seq<byte>, sparseIndex: seq<IndexEntry>)
    ensures file == Data(entries) && sparseIndex == Index(entries)
  {
    file, sparseIndex := [], [];
    var currentOffset := 0;
    var i := 0;
    while i < |entries|
      invariant 0 <= i <= |entries|
      invariant currentOffset == |file|
      invariant file + Data(entries[i..]) == Data(entries)
      invariant sparseIndex + SparseIndex(entries[i..], i, currentOffset) == Index(entries)
    {
      RecordNext(entries, i, file);
      MarkNext(entries, i, currentOffset, sparseIndex);
      if i % INTERVAL == 0 {
        sparseIndex := sparseIndex + [IndexEntry(entries[i].key, currentOffset)];
      }
      var record := EncodeEntry(entries[i]);
      file := file + record;
      currentOffset := currentOffset + |record|;
      i := i + 1;
    }
    assert entries[i..] == [];
  }

  method WriteIndex(sparseIndex: seq<IndexEntry>) returns (bytes: seq<byte>)
    ensures bytes == IndexBytes(sparseIndex)
  {
    bytes := [];
    var i := 0;
    while i < |sparseIndex|
      invariant 0 <= i <= |sparseIndex|
      invariant bytes + IndexBytes(sparseIndex[i..]) == IndexBytes(sparseIndex)
    {
      assert sparseIndex[i..][1..] == sparseIndex[i + 1..];
      bytes := bytes + EncodeIndexEntry(sparseIndex[i]);
      i := i + 1;
    }
    assert sparseIndex[i..] == [];
  }

  /** Nothing is written without entries; otherwise the file is the image of the entries. */
  method WriteTable(entries: seq<MemEntry>) returns (ok: bool, file: seq<byte>)
    ensures ok <==> entries != []
    ensures ok ==> file == Image(entries)
  {
    if |entries| == 0 { return false, []; }
    var data, sparseIndex := WriteRecords(entries);
    var index := WriteIndex(sparseIndex);
    file := data + (index + (ToBytes(|data|, 8) + ToBytes(|index|, 8)));
    ok := true;
  }

  /** What was parsed before `pos`, and what is still to be parsed. */
  function ParseResumed(data: seq<byte>, pos: nat, before: seq<IndexEntry>): seq<IndexEntry>
    requires pos <= |data|
  {
    before + ParseIndex(data[pos..])
  }

  lemma ParseNext(data: seq<byte>, pos: nat, keyLen: nat, before: seq<IndexEntry>)
    requires pos + 2 <= |data| && keyLen == FromBytes(data[pos..pos + 2]) && pos + 2 + keyLen + 8 <= |data|
    ensures var ie := IndexEntry(data[pos + 2..pos + 2 + keyLen],
                                 FromBytes(data[pos + 2 + keyLen..pos + 2 + keyLen + 8]));
            ParseResumed(data, pos + 2 + keyLen + 8, before + [ie]) == ParseResumed(data, pos, before)
  {
    var s := data[pos..];
    var end := pos + 2 + keyLen;
    assert s[0..2] == data[pos..pos + 2];
    assert s[2..2 + keyLen] == data[pos + 2..end];
    assert s[2 + keyLen..2 + keyLen + 8] == data[end..end + 8];
    assert s[2 + keyLen + 8..] == data[end + 8..];
    var ie, more := IndexEntry(data[pos + 2..end], FromBytes(data[end..end + 8])), ParseIndex(data[end + 8..]);
    assert ParseIndex(s) == [ie] + more;
    assert before + [ie] + more == before + ([ie] + more);
  }

  lemma ParseEnd(data: seq<byte>, pos: nat, before: seq<IndexEntry>)
    requires pos <= |data|
    requires pos + 2 > |data| || pos + 2 + FromBytes(data[pos..pos + 2]) + 8 > |data|
    ensures ParseResumed(data, pos, before) == before
  {
    if pos + 2 <= |data| {
      assert data[pos..][0..2] == data[pos..pos + 2];
    }
  }

  method ReadIndex(data: seq<byte>) returns (ix: seq<IndexEntry>)
    ensures ix == ParseIndex(data)
  {
    ix := [];
    var pos: nat := 0;
    assert data[0..] == data;
    while pos < |data|
      invariant pos <= |data|
      invariant ParseResumed(data, pos, ix) == ParseResumed(data, 0, [])
    {
      if pos + 2 > |data| { break; }
      var keyLen := FromBytes(data[pos..pos + 2]);
      if pos + 2 + keyLen + 8 > |data| { break; }
      var key := data[pos + 2..pos + 2 + keyLen];
      var offset := FromBytes(data[pos + 2 + keyLen..pos + 2 + keyLen + 8]);
      ParseNext(data, pos, keyLen, ix);
      ix := ix + [IndexEntry(key, offset)];
      pos := pos + 2 + keyLen + 8;
    }
    ParseEnd(data, pos, ix);
  }

  method OpenReader(file: seq<byte>) returns (r: Opened)
    ensures r == Open(file)
  {
    if |file| < FOOTER { return Refused; }
    var footer := file[|file| - FOOTER..];
    var indexOffset := Signed(FromBytes(footer[0..8]));
    var indexSize := Signed(FromBytes(footer[8..16]));
    if indexSize < 0 { return Panic; }
    if indexOffset < 0 { return Refused; }
    var indexData := [];
    if indexSize > 0 {
      if indexOffset + indexSize > |file| { return Refused; }
      indexData := file[indexOffset..indexOffset + indexSize];
    }
    var index := ReadIndex(indexData);
    r := Reader(index);
  }

  method FindStart(ix: seq<IndexEntry>, key: Key) returns (start: nat)
    requires ix != []
    ensures start == Search(ix, key, 0, |ix| - 1, ix[0].offset)
  {
    var lo, hi := 0, |ix| - 1;
    start := ix[0].offset;
    while lo <= hi
      invariant 0 <= lo && hi < |ix|
      invariant Search(ix, key, lo, hi, start) == Search(ix, key, 0, |ix| - 1, ix[0].offset)
      decreases hi - lo + 1
    {
      var mid := (lo + hi) / 2;
      if !Less(key, ix[mid].key) {
        start := ix[mid].offset;
        lo := mid + 1;
      } else {
        hi := mid - 1;
      }
    }
  }

  /** Record by record: header, key, comparison, value, as far as the bytes reach. */
  method ScanFrom(file: seq<byte>, start: nat, key: Key) returns (value: Slice, found: bool)
    requires start <= |file|
    ensures Walk(DecodeAll(file[start..]), key) == if found then Hit(value) else Miss
  {
    var pos := start;
    while true
      invariant start <= pos <= |file|
      invariant Walk(DecodeAll(file[pos..]), key) == Walk(DecodeAll(file[start..]), key)
      decreases |file| - pos
    {
      var rest := file[pos..];
      if |rest| < HEADER { return Nil, false; }
      var keyLen := FromBytes(rest[0..2]);
      var valueLen := FromBytes(rest[2..6]);
      var op := rest[6];
      if |rest| < HEADER + keyLen { return Nil, false; }
      var recordKey := rest[HEADER..HEADER + keyLen];
      if Less(key, recordKey) { return Nil, false; }
      if |rest| < HEADER + keyLen + valueLen { return Nil, false; }
      var recordValue := rest[HEADER + keyLen..HEADER + keyLen + valueLen];
      assert DecodeOne(rest) == Item(MemEntry(recordKey, Of(recordValue), op), HEADER + keyLen + valueLen);
      if recordKey == key {
        if op == OP_DELETE { return Nil, true; }
        return Of(recordValue), true;
      }
      assert rest[HEADER + keyLen + valueLen..] == file[pos + HEADER + keyLen + valueLen..];
      pos := pos + HEADER + keyLen + valueLen;
    }
  }

  /** A lookup in an opened table; a seek to a negative position fails. */
  method GetFrom(ix: seq<IndexEntry>, file: seq<byte>, key: Key) returns (value: Slice, found: bool, ok: bool)
    requires |file| < I64
    ensures Get(ix, file, key) == if found then Hit(value) else Miss
    ensures ok <==> ix == [] || Signed(Search(ix, key, 0, |ix| - 1, ix[0].offset)) >= 0
  {
    if |ix| == 0 { return Nil, false, true; }
    var start := FindStart(ix, key);
    if Signed(start) < 0 { return Nil, false, false; }
    ok := true;
    if start > |file| { return Nil, false, true; }
    value, found := ScanFrom(file, start, key);
  }

  // ---- reading a table in full ----

  /** An entry as a merge reads it: an empty value becomes nil. */
  function Reread(e: MemEntry): MemEntry {
    if e.value.Of? && |e.value.bytes| == 0 then MemEntry(e.key, Nil, e.op) else e
  }

  function RereadAll(es: seq<MemEntry>): (rs: seq<MemEntry>)
    ensures |rs| == |es|
    ensures forall i :: 0 <= i < |es| ==> rs[i] == Reread(es[i])
  {
    if es == [] then [] else [Reread(es[0])] + RereadAll(es[1..])
  }

  function RereadOne(s: seq<byte>): (item: Item)
    ensures item.Item? ==> 0 < item.size <= |s|
  {
    if |s| < HEADER then Stop
    else
      var keyLen := FromBytes(s[0..2]);
      var valueLen := FromBytes(s[2..6]);
      if |s| < HEADER + keyLen + valueLen then Stop
      else
        var value := if valueLen > 0 then Of(s[HEADER + keyLen..HEADER + keyLen + valueLen]) else Nil;
        Item(MemEntry(s[HEADER..HEADER + keyLen], value, s[6]), HEADER + keyLen + valueLen)
  }

  /** The two readers differ in what they make of an empty value. */
  lemma RereadIs(s: seq<byte>)
    ensures RereadOne(s) == match DecodeOne(s) case Stop => Stop case Item(e, size) => Item(Reread(e), size)
  {}

  const REREAD: Decoder := RereadOne

  /** Records from `pos` on, as long as they start before `limit`. */
  function GatherWithin(d: Decoder, file: seq<byte>, pos: nat, limit: int): seq<MemEntry>
    requires pos <= |file|
    decreases |file| - pos
  {
    if pos >= limit then []
    else
      match d(file[pos..])
      case Stop => []
      case Item(e, size) => [e] + GatherWithin(d, file, pos + size, limit)
  }

  function ReadUpTo(file: seq<byte>, limit: int): seq<MemEntry> {
    GatherWithin(REREAD, file, 0, limit)
  }

  /** Reading from the start of the file gave `records` and got to `pos`. */
  ghost predicate Reached(d: Decoder, file: seq<byte>, limit: int, pos: nat, records: seq<MemEntry>)
    decreases |records|
  {
    if records == [] then pos == 0
    else
      var n := |records| - 1;
      exists p: nat :: p < limit && p <= |file| && p <= pos && d(file[p..]) == Item(records[n], pos - p)
        && Reached(d, file, limit, p, records[..n])
  }

  lemma ReachedNext(d: Decoder, file: seq<byte>, limit: int, pos: nat, records: seq<MemEntry>, e: MemEntry, size: nat)
    requires Reached(d, file, limit, pos, records) && pos < limit && pos <= |file| && d(file[pos..]) == Item(e, size)
    ensures Reached(d, file, limit, pos + size, records + [e])
  {
    assert (records + [e])[..|records|] == records;
  }

  /** What was read before `pos`, and what is still to be read. */
  function Resumed(d: Decoder, file: seq<byte>, limit: int, pos: nat, before: seq<MemEntry>): Contents
    requires pos <= |file|
  {
    Contents(before + GatherWithin(d, file, pos, limit))
  }

  lemma ResumedNext(d: Decoder, file: seq<byte>, limit: int, pos: nat, before: seq<MemEntry>, e: MemEntry, size: nat)
    requires pos < limit && pos <= |file| && d(file[pos..]) == Item(e, size)
    ensures Resumed(d, file, limit, pos + size, before + [e]) == Resumed(d, file, limit, pos, before)
  {
    var more := GatherWithin(d, file, pos + size, limit);
    assert before + [e] + more == before + ([e] + more);
  }

  lemma ResumedEnd(d: Decoder, file: seq<byte>, limit: int, pos: nat, before: seq<MemEntry>)
    requires pos <= |file| && (pos >= limit || d(file[pos..]) == Stop)
    ensures Resumed(d, file, limit, pos, before) == Contents(before)
  {}

  lemma ReachedBefore(d: Decoder, file: seq<byte>, limit: int, pos: nat, records: seq<MemEntry>)
    returns (p: nat, size: nat, before: seq<MemEntry>, e: MemEntry)
    requires Reached(d, file, limit, pos, records) && records != []
    ensures records == before + [e] && Reached(d, file, limit, p, before)
    ensures p < limit && p <= |file| && pos == p + size && d(file[p..]) == Item(e, size)
  {
    var n := |records| - 1;
    before, e := records[..n], records[n];
    p :| p < limit && p <= |file| && p <= pos && d(file[p..]) == Item(records[n], pos - p)
      && Reached(d, file, limit, p, records[..n]);
    size := pos - p;
  }

  lemma {:induction false} ReachedThenRest(d: Decoder, file: seq<byte>, limit: int, pos: nat, records: seq<MemEntry>)
    requires Reached(d, file, limit, pos, records)
    ensures pos <= |file| && Resumed(d, file, limit, pos, records) == Resumed(d, file, limit, 0, [])
    decreases |records|
  {
    if records != [] {
      var p, size, before, e := ReachedBefore(d, file, limit, pos, records);
      ReachedThenRest(d, file, limit, p, before);
      ResumedNext(d, file, limit, p, before, e, size);
      assert Resumed(d, file, limit, p + size, before + [e]) == Resumed(d, file, limit, 0, []);
    }
  }

  lemma {:induction false} ReachedEnd(file: seq<byte>, limit: int, pos: nat, records: seq<MemEntry>)
    requires Reached(REREAD, file, limit, pos, records) && pos <= |file|
             && (pos >= limit || REREAD(file[pos..]) == Stop)
    ensures records == ReadUpTo(file, limit)
  {
    ReachedThenRest(REREAD, file, limit, pos, records);
    ResumedEnd(REREAD, file, limit, pos, records);
  }

  lemma {:induction false} GatherWithinFlat(
    d: Decoder, file: seq<byte>, pos: nat, limit: int, cs: seq<seq<byte>>, es: seq<MemEntry>, rest: seq<byte>)
    requires AllReadAs(d, cs, es) && pos <= |file| && file[pos..] == Flat(cs) + rest && limit == pos + |Flat(cs)|
    ensures GatherWithin(d, file, pos, limit) == es
    decreases |cs|
  {
    if cs != [] {
      AllReadAsRest(d, cs, es);
      var c, flat := cs[0], Flat(cs[1..]);
      GatherWithinFirst(d, file, pos, limit, c, es[0], flat, rest);
      GatherWithinFlat(d, file, pos + |c|, limit, cs[1..], es[1..], rest);
      assert es == [es[0]] + es[1..];
    }
  }

  lemma GatherWithinFirst(
    d: Decoder, file: seq<byte>, pos: nat, limit: int, c: seq<byte>, e: MemEntry, flat: seq<byte>,
    rest: seq<byte>)
    requires ReadsAs(d, c, e) && pos <= |file| && file[pos..] == c + flat + rest && limit == pos + |c + flat|
    ensures GatherWithin(d, file, pos, limit) == [e] + GatherWithin(d, file, pos + |c|, limit)
    ensures file[pos + |c|..] == flat + rest
  {
    assert file[pos..] == c + (flat + rest);
    assert d(c + (flat + rest)) == Item(e, |c|);
    assert file[pos + |c|..] == file[pos..][|c|..];
  }

  lemma ChunksReread(es: seq<MemEntry>)
    requires AllFit(es)
    ensures AllReadAs(REREAD, Chunks(es), RereadAll(es))
  {
    forall i, rest | 0 <= i < |es|
      ensures RereadOne(Chunks(es)[i] + rest) == Item(RereadAll(es)[i], |Chunks(es)[i]|)
    {
      DecodeOneBack(es[i], rest);
      RereadIs(Chunks(es)[i] + rest);
    }
  }

  datatype Contents = Contents(entries: seq<MemEntry>) | TooSmall

  function ReadTable(file: seq<byte>): Contents {
    if |file| < FOOTER then TooSmall
    else Contents(ReadUpTo(file, Signed(FromBytes(file[|file| - FOOTER..][0..8]))))
  }

  lemma ReadAssembled(data: seq<byte>, index: seq<byte>)
    requires |data| < I64 && |index| < I64
    ensures ReadTable(Assemble(data, index)) == Contents(ReadUpTo(Assemble(data, index), |data|))
  {
    FooterBack(data, index);
    ReadWhole(Assemble(data, index), |data|, index);
  }

  lemma ReadWhole(file: seq<byte>, offset: nat, index: seq<byte>)
    requires FooterSays(file, offset, index)
    ensures ReadTable(file) == Contents(ReadUpTo(file, offset))
  {}

  /** Reading a written table in full gives its entries, empty values as nil. */
  lemma {:induction false} ReadTableBack(es: seq<MemEntry>)
    requires Writable(es)
    ensures ReadTable(Image(es)) == Contents(RereadAll(es))
  {
    ReadAssembled(Data(es), IndexBytes(Index(es)));
    ChunksReread(es);
    assert Image(es)[0..] == Data(es) + Tail(es);
    GatherWithinFlat(REREAD, Image(es), 0, |Data(es)|, Chunks(es), RereadAll(es), Tail(es));
  }

  method ReadAllRecords(file: seq<byte>) returns (r: Contents)
    ensures r == ReadTable(file)
  {
    if |file| < FOOTER { return TooSmall; }
    var footer := file[|file| - FOOTER..];
    var records := ReadRecordsUpTo(file, Signed(Le64(footer[0..8])));
    r := Contents(records);
  }

  method ReadRecordsUpTo(file: seq<byte>, indexOffset: int) returns (records: seq<MemEntry>)
    ensures records == ReadUpTo(file, indexOffset)
  {
    records := [];
    var pos: nat := 0;
    while pos < indexOffset
      invariant pos <= |file| && Reached(REREAD, file, indexOffset, pos, records)
      decreases |file| - pos
    {
      var item := ReadRecordAt(file[pos..]);
      if item.Stop? { break; }
      ReachedNext(REREAD, file, indexOffset, pos, records, item.entry, item.size);
      records := records + [item.entry];
      pos := pos + item.size;
    }
    ReachedEnd(file, indexOffset, pos, records);
  }

  method ReadRecordAt(rest: seq<byte>) returns (item: Item)
    ensures item == REREAD(rest)
    ensures item.Item? ==> 0 < item.size <= |rest|
  {
    if |rest| < HEADER { return Stop; }
    var keyLen := Le16(rest[0..2]);
    var valueLen := Le32(rest[2..6]);
    var op := rest[6];
    if |rest| < HEADER + keyLen { return Stop; }
    var key := rest[HEADER..HEADER + keyLen];
    var value := Nil;
    if valueLen > 0 {
      if |rest| < HEADER + keyLen + valueLen { return Stop; }
      value := Of(rest[HEADER + keyLen..HEADER + keyLen + valueLen]);
    }
    item := Item(MemEntry(key, value, op), HEADER + keyLen + valueLen);
  }
}
