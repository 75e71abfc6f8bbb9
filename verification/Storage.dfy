/**
 What the parts of the storage engine share: slices that may be absent, the two kinds
 of write, and the map a log of writes stands for.
 */
module Storage {
  import opened Bytes

  type Key = seq<byte>

  /** A Go byte slice: nil and empty differ, although both have length 0. */
  datatype Slice = Nil | Of(bytes: seq<byte>) {
    function Content(): seq<byte> {
      if Nil? then [] else bytes
    }
  }

  const OP_PUT: byte := 1
  const OP_DELETE: byte := 2

  /** The latest write of a key: its kind and its value. */
  datatype Write = Write(op: byte, value: Slice)

  type Table = map<Key, Write>

  /** A write to be applied in order; other kinds than put and delete are skipped on replay. */
  datatype Record = Record(op: byte, key: Key, value: Slice)

  function Apply(t: Table, r: Record): Table {
    if r.op == OP_PUT then t[r.key := Write(OP_PUT, r.value)]
    else if r.op == OP_DELETE then t[r.key := Write(OP_DELETE, Nil)]
    else t
  }

  function Replay(t: Table, rs: seq<Record>): Table
    decreases |rs|
  {
    if rs == [] then t else Replay(Apply(t, rs[0]), rs[1..])
  }

  lemma {:induction false} ReplayAppend(t: Table, rs: seq<Record>, ss: seq<Record>)
    ensures Replay(t, rs + ss) == Replay(Replay(t, rs), ss)
    decreases |rs|
  {
    if rs == [] {
      assert rs + ss == ss;
    } else {
      assert (rs + ss)[1..] == rs[1..] + ss;
      ReplayAppend(Apply(t, rs[0]), rs[1..], ss);
    }
  }

  /** What a reader sees of a key. */
  datatype Lookup = NotFound | Found(bytes: seq<byte>)

  /** A delete, and a nil value, read as absent. */
  function Visible(w: Write): Lookup {
    if w.op == OP_DELETE || w.value.Nil? then NotFound else Found(w.value.bytes)
  }

  function View(t: Table, key: Key): Lookup {
    if key in t then Visible(t[key]) else NotFound
  }

  /** What one table answers: no word on the key, or a value that is nil for a delete. */
  datatype Probe = Miss | Hit(value: Slice)

  function ProbeOf(t: Table, key: Key): Probe {
    if key !in t then Miss else if t[key].op == OP_DELETE then Hit(Nil) else Hit(t[key].value)
  }

  function Seen(p: Probe): Lookup {
    if p.Miss? || p.value.Nil? then NotFound else Found(p.value.bytes)
  }
}
