/**
 The skip list of the MemTable: linked nodes with one forward pointer per level.

 The proof sees the list as one sequence of nodes, the head first, with strictly
 increasing keys; the pointer of a node at a level leads to the next node in that
 sequence that is tall enough.
 */
module SkipList {
  import opened Bytes
  import opened Storage

  const MAX_LEVEL: nat := 16

  /** An entry as the list gives it out. */
  datatype MemEntry = MemEntry(key: Key, value: Slice, op: byte)

  ghost predicate Sorted(es: seq<MemEntry>) {
    forall i, j :: 0 <= i < j < |es| ==> Less(es[i].key, es[j].key)
  }

  /** What a put means: replace the entry of the key, or insert it in order. */
  function PutSorted(es: seq<MemEntry>, e: MemEntry): seq<MemEntry> {
    if es == [] then [e]
    else if es[0].key == e.key then [e] + es[1..]
    else if Less(e.key, es[0].key) then [e] + es
    else [es[0]] + PutSorted(es[1..], e)
  }

  function ToTable(es: seq<MemEntry>): Table {
    if es == [] then map[] else ToTable(es[1..])[es[0].key := Write(es[0].op, es[0].value)]
  }

  /** The put of a key that is there, behind `p` smaller ones. */
  lemma {:induction false} PutReplacesAt(es: seq<MemEntry>, e: MemEntry, p: nat)
    requires p < |es| && es[p].key == e.key && forall i :: 0 <= i < p ==> Less(es[i].key, e.key)
    ensures PutSorted(es, e) == es[p := e]
    decreases p
  {
    if p > 0 {
      LessAsymmetric(es[0].key, e.key);
      PutReplacesAt(es[1..], e, p - 1);
    }
  }

  /** The put of a key that is not there, behind `p` smaller ones. */
  lemma {:induction false} PutInsertsAt(es: seq<MemEntry>, e: MemEntry, p: nat)
    requires p <= |es| && forall i :: 0 <= i < p ==> Less(es[i].key, e.key)
    requires p < |es| ==> Less(e.key, es[p].key)
    ensures PutSorted(es, e) == Spliced(es, p, e)
    decreases p
  {
    if p > 0 {
      LessAsymmetric(es[0].key, e.key);
      PutInsertsAt(es[1..], e, p - 1);
      assert [es[0]] + Spliced(es[1..], p - 1, e) == Spliced(es, p, e);
    } else if es != [] {
      LessAsymmetric(e.key, es[0].key);
    }
  }

  lemma {:induction false} PutKeepsSorted(es: seq<MemEntry>, e: MemEntry)
    requires Sorted(es)
    ensures Sorted(PutSorted(es, e))
    ensures forall x :: x in PutSorted(es, e) ==> x == e || x in es
    decreases |es|
  {
    if es != [] && es[0].key != e.key {
      if Less(e.key, es[0].key) {
        forall k | 0 < k < |es|
          ensures Less(e.key, es[k].key)
        {
          LessTransitive(e.key, es[0].key, es[k].key);
        }
      } else {
        LessTotal(es[0].key, e.key);
        PutKeepsSorted(es[1..], e);
        var rest := PutSorted(es[1..], e);
        forall k | 0 <= k < |rest|
          ensures Less(es[0].key, rest[k].key)
        {
          assert rest[k] in rest;
        }
      }
    }
  }

  lemma {:induction false} TableKeys(es: seq<MemEntry>)
    ensures forall k :: k in ToTable(es) <==> exists i :: 0 <= i < |es| && es[i].key == k
    decreases |es|
  {
    if es != [] {
      TableKeys(es[1..]);
      assert forall i :: 1 <= i < |es| ==> es[i] == es[1..][i - 1];
    }
  }

  /** A put is the update of a map. */
  lemma {:induction false} PutIsUpdate(es: seq<MemEntry>, e: MemEntry)
    requires Sorted(es)
    ensures ToTable(PutSorted(es, e)) == ToTable(es)[e.key := Write(e.op, e.value)]
    decreases |es|
  {
    if es == [] {
      assert [e][1..] == [];
    } else if es[0].key == e.key {
      assert ([e] + es[1..])[1..] == es[1..];
    } else if Less(e.key, es[0].key) {
      assert ([e] + es)[1..] == es;
    } else {
      PutIsUpdate(es[1..], e);
      assert ([es[0]] + PutSorted(es[1..], e))[1..] == PutSorted(es[1..], e);
    }
  }

  /** In a sorted list each entry is what the map says of its key, and there is one per key. */
  lemma {:induction false} SortedTable(es: seq<MemEntry>)
    requires Sorted(es)
    ensures |ToTable(es)| == |es|
    ensures forall i :: 0 <= i < |es| ==>
      es[i].key in ToTable(es) && ToTable(es)[es[i].key] == Write(es[i].op, es[i].value)
    decreases |es|
  {
    if es != [] {
      SortedTable(es[1..]);
      TableKeys(es[1..]);
      forall i | 1 <= i < |es|
        ensures es[i].key != es[0].key && es[i] == es[1..][i - 1]
      {
        LessAsymmetric(es[0].key, es[i].key);
      }
      assert es[0].key !in ToTable(es[1..]);
    }
  }

  // ---- heights ----

  /** The first position after `i` whose height exceeds `l`, or the end. */
  ghost function NextTall(hs: seq<nat>, i: nat, l: nat): (n: nat)
    requires i < |hs|
    ensures i < n <= |hs|
    ensures n < |hs| ==> hs[n] > l
    ensures forall j :: i < j < n ==> hs[j] <= l
    decreases |hs| - i
  {
    if i + 1 == |hs| then |hs|
    else if hs[i + 1] > l then i + 1
    else NextTall(hs, i + 1, l)
  }

  lemma NextTallIs(hs: seq<nat>, i: nat, l: nat, n: nat)
    requires i < n <= |hs| && (n < |hs| ==> hs[n] > l)
    requires forall j :: i < j < n ==> hs[j] <= l
    ensures NextTall(hs, i, l) == n
  {}

  ghost function Spliced<T>(s: seq<T>, at: nat, x: T): (r: seq<T>)
    requires at <= |s|
    ensures |r| == |s| + 1
  {
    seq(|s| + 1, k requires 0 <= k <= |s| => if k < at then s[k] else if k == at then x else s[k - 1])
  }

  /** Where the next tall node is after a node of height `h` was put in at `at`. */
  lemma NextTallSpliced(hs: seq<nat>, at: nat, h: nat, i: nat, l: nat)
    requires 1 <= at <= |hs| && i < |hs|
    ensures var hs' := Spliced<nat>(hs, at, h);
            var n := NextTall(hs, i, l);
            if i >= at then NextTall(hs', i + 1, l) == n + 1
            else if n < at then NextTall(hs', i, l) == n
            else if h > l then NextTall(hs', i, l) == at
            else NextTall(hs', i, l) == n + 1
  {
    var hs' := Spliced<nat>(hs, at, h);
    var n := NextTall(hs, i, l);
    if i >= at {
      NextTallIs(hs', i + 1, l, n + 1);
    } else if n < at {
      NextTallIs(hs', i, l, n);
    } else if h > l {
      NextTallIs(hs', i, l, at);
    } else {
      NextTallIs(hs', i, l, n + 1);
    }
  }

  /** The new node is followed at level `l` by what followed its predecessor there. */
  lemma NextTallOfNew(hs: seq<nat>, at: nat, h: nat, u: nat, l: nat)
    requires u < at <= |hs| && NextTall(hs, u, l) >= at
    ensures NextTall(Spliced<nat>(hs, at, h), at, l) == NextTall(hs, u, l) + 1
  {
    NextTallIs(Spliced<nat>(hs, at, h), at, l, NextTall(hs, u, l) + 1);
  }

  // ---- nodes ----

  class SkipNode {
    const key: Key
    var value: Slice
    var op: byte
    const forward: array<SkipNode?>

    constructor (key: Key, value: Slice, op: byte, height: nat)
      ensures this.key == key && this.value == value && this.op == op
      ensures fresh(forward) && forward.Length == height
      ensures forall l :: 0 <= l < height ==> forward[l] == null
    {
      this.key, this.value, this.op := key, value, op;
      forward := new SkipNode?[height](_ => null);
    }
  }

  ghost function Heights(spine: seq<SkipNode>): (hs: seq<nat>)
    ensures |hs| == |spine|
  {
    seq(|spine|, i requires 0 <= i < |spine| => spine[i].forward.Length)
  }

  ghost function NodeAt(spine: seq<SkipNode>, n: nat): SkipNode? {
    if n < |spine| then spine[n] else null
  }

  /** Distinct nodes with arrays of their own, heights within bounds, keys in order. */
  ghost predicate Shape(spine: seq<SkipNode>, level: nat) {
    && |spine| >= 1
    && 1 <= level <= MAX_LEVEL
    && spine[0].forward.Length == MAX_LEVEL
    && (forall i, j :: 0 <= i < j < |spine| ==> spine[i] != spine[j] && spine[i].forward != spine[j].forward)
    && (forall i :: 1 <= i < |spine| ==> 1 <= spine[i].forward.Length <= level)
    && (forall i, j :: 1 <= i < j < |spine| ==> Less(spine[i].key, spine[j].key))
  }

  /** The pointers of all nodes, as values. */
  type Links = seq<seq<SkipNode?>>

  ghost predicate Fit(spine: seq<SkipNode>, links: Links) {
    && |links| == |spine|
    && forall i :: 0 <= i < |spine| ==> |links[i]| == spine[i].forward.Length
  }

  /** The node that the pointer of node `i` at level `l` must lead to. */
  ghost function Target(spine: seq<SkipNode>, i: nat, l: nat): SkipNode?
    requires i < |spine|
  {
    NodeAt(spine, NextTall(Heights(spine), i, l))
  }

  /** All pointers of level `l` are right. */
  ghost predicate LevelOk(spine: seq<SkipNode>, links: Links, l: nat)
    requires Fit(spine, links)
  {
    forall i :: 0 <= i < |spine| && l < |links[i]| ==> links[i][l] == Target(spine, i, l)
  }

  ghost predicate Linked(spine: seq<SkipNode>, links: Links) {
    Fit(spine, links) && forall l: nat :: LevelOk(spine, links, l)
  }

  /** All nodes before `pos` have smaller keys and no node from `pos` on has. */
  ghost predicate Splits(spine: seq<SkipNode>, key: Key, pos: nat) {
    && 1 <= pos <= |spine|
    && (forall i :: 1 <= i < pos ==> Less(spine[i].key, key))
    && (forall i :: pos <= i < |spine| ==> !Less(spine[i].key, key))
  }

  lemma {:induction false} SplitExists(spine: seq<SkipNode>, level: nat, key: Key) returns (pos: nat)
    requires Shape(spine, level)
    ensures Splits(spine, key, pos)
  {
    pos := 1;
    while pos < |spine| && Less(spine[pos].key, key)
      invariant 1 <= pos <= |spine|
      invariant forall i :: 1 <= i < pos ==> Less(spine[i].key, key)
    {
      pos := pos + 1;
    }
    forall i | pos <= i < |spine|
      ensures !Less(spine[i].key, key)
    {
      if i > pos && Less(spine[i].key, key) {
        LessTransitive(spine[pos].key, spine[i].key, key);
      }
    }
  }

  // ---- splicing ----

  ghost function Moved(i: nat, at: nat): nat {
    if i >= at then i + 1 else i
  }

  /** `u` is the last node before `pos` that is tall enough for level `l`. */
  ghost predicate Precedes(spine: seq<SkipNode>, pos: nat, u: nat, l: nat) {
    u < pos <= |spine| && spine[u].forward.Length > l && NextTall(Heights(spine), u, l) >= pos
  }

  /** For each level below `n`, the node to splice behind. */
  ghost predicate AllPrecede(spine: seq<SkipNode>, pos: nat, us: seq<nat>, update: seq<SkipNode?>, n: nat) {
    && n <= |update| == |us|
    && forall l :: 0 <= l < n ==> Precedes(spine, pos, us[l], l) && update[l] == spine[us[l]]
  }

  /** Any other tall node before `at` has its next tall node before `at`. */
  lemma OnlyPredecessor(hs: seq<nat>, at: nat, u: nat, i: nat, l: nat)
    requires u < at <= |hs| && i < at && i != u && hs[u] > l && hs[i] > l && NextTall(hs, u, l) >= at
    ensures NextTall(hs, i, l) < at
  {}

  /** No node but the head reaches above the levels in use. */
  lemma HeadPrecedes(spine: seq<SkipNode>, level: nat, pos: nat, l: nat)
    requires Shape(spine, level) && 1 <= pos <= |spine| && level <= l < MAX_LEVEL
    ensures Precedes(spine, pos, 0, l)
  {
    NextTallIs(Heights(spine), 0, l, |spine|);
  }

  lemma SplicedNodes(spine: seq<SkipNode>, at: nat, node: SkipNode)
    requires at <= |spine|
    ensures var spine' := Spliced(spine, at, node);
            && Heights(spine') == Spliced<nat>(Heights(spine), at, node.forward.Length)
            && |spine'| == |spine| + 1 && spine'[at] == node
            && (forall n :: 0 <= n < |spine| ==> spine'[Moved(n, at)] == spine[n])
            && (forall n: nat :: NodeAt(spine', Moved(n, at)) == NodeAt(spine, n))
  {}

  /** After a new node was put in behind `u`, only the pointer of `u` leads elsewhere. */
  lemma TargetAfterSplice(spine: seq<SkipNode>, at: nat, node: SkipNode, u: nat, l: nat, i: nat)
    requires 1 <= at && Precedes(spine, at, u, l) && node.forward.Length > l
    requires i < |spine| && spine[i].forward.Length > l
    ensures Moved(i, at) < |Spliced(spine, at, node)|
    ensures Target(Spliced(spine, at, node), Moved(i, at), l) == if i == u then node else Target(spine, i, l)
  {
    var hs := Heights(spine);
    SplicedNodes(spine, at, node);
    NextTallSpliced(hs, at, node.forward.Length, i, l);
    if i < at && i != u {
      OnlyPredecessor(hs, at, u, i, l);
    }
    assert i != u ==>
      NextTall(Spliced<nat>(hs, at, node.forward.Length), Moved(i, at), l) == Moved(NextTall(hs, i, l), at);
  }

  /** At a level above the new node, all pointers stay. */
  lemma TargetAbove(spine: seq<SkipNode>, at: nat, node: SkipNode, l: nat, i: nat)
    requires 1 <= at <= |spine| && node.forward.Length <= l && i < |spine|
    ensures Moved(i, at) < |Spliced(spine, at, node)|
    ensures Target(Spliced(spine, at, node), Moved(i, at), l) == Target(spine, i, l)
  {
    var hs := Heights(spine);
    SplicedNodes(spine, at, node);
    NextTallSpliced(hs, at, node.forward.Length, i, l);
    assert NextTall(Spliced<nat>(hs, at, node.forward.Length), Moved(i, at), l) == Moved(NextTall(hs, i, l), at);
  }

  lemma TargetOfNew(spine: seq<SkipNode>, at: nat, node: SkipNode, u: nat, l: nat)
    requires Precedes(spine, at, u, l)
    ensures Target(Spliced(spine, at, node), at, l) == Target(spine, u, l)
  {
    SplicedNodes(spine, at, node);
    NextTallOfNew(Heights(spine), at, node.forward.Length, u, l);
    assert NextTall(Heights(spine), u, l) + 1 == Moved(NextTall(Heights(spine), u, l), at);
  }

  /** Checking the old nodes at their new positions and the new node is checking all. */
  lemma AllMoved(target: nat -> SkipNode?, links: Links, pos: nat, own: seq<SkipNode?>, l: nat)
    requires pos <= |links|
    requires l < |own| ==> own[l] == target(pos)
    requires forall i :: 0 <= i < |links| && l < |links[i]| ==> links[i][l] == target(Moved(i, pos))
    ensures var links' := Spliced(links, pos, own);
            forall i :: 0 <= i < |links'| && l < |links'[i]| ==> links'[i][l] == target(i)
  {
    var links' := Spliced(links, pos, own);
    forall i' | 0 <= i' < |links'| && l < |links'[i']|
      ensures links'[i'][l] == target(i')
    {
      if i' != pos {
        var i := if i' > pos then i' - 1 else i';
        assert links'[i'] == links[i] && Moved(i, pos) == i';
      }
    }
  }

  ghost function Targets(spine: seq<SkipNode>, l: nat): nat -> SkipNode? {
    (i: nat) => if i < |spine| then Target(spine, i, l) else null
  }

  lemma FitSpliced(spine: seq<SkipNode>, links: Links, pos: nat, node: SkipNode, own: seq<SkipNode?>)
    requires pos <= |spine| && Fit(spine, links) && |own| == node.forward.Length
    ensures Fit(Spliced(spine, pos, node), Spliced(links, pos, own))
  {}

  /** One level of the put: the new node behind `u`, and what followed `u` behind the new node. */
  lemma LevelSpliced(spine: seq<SkipNode>, links: Links, pos: nat, node: SkipNode, own: seq<SkipNode?>, u: nat, l: nat)
    requires 1 <= pos <= |spine| && Fit(spine, links) && |own| == node.forward.Length > l
    requires Precedes(spine, pos, u, l) && LevelOk(spine, links, l)
    ensures var links' := Spliced(links[u := links[u][l := node]], pos, own[l := links[u][l]]);
            Fit(Spliced(spine, pos, node), links') && LevelOk(Spliced(spine, pos, node), links', l)
  {
    TargetOfNew(spine, pos, node, u, l);
    var linksU := links[u := links[u][l := node]];
    forall i | 0 <= i < |spine| && l < |linksU[i]|
      ensures Moved(i, pos) < |Spliced(spine, pos, node)|
      ensures linksU[i][l] == Target(Spliced(spine, pos, node), Moved(i, pos), l)
    {
      TargetAfterSplice(spine, pos, node, u, l, i);
    }
    FitSpliced(spine, linksU, pos, node, own[l := links[u][l]]);
    AllMoved(Targets(Spliced(spine, pos, node), l), linksU, pos, own[l := links[u][l]], l);
  }

  /** Above the new node the levels are right with it as they were without it. */
  lemma LevelAbove(spine: seq<SkipNode>, links: Links, pos: nat, node: SkipNode, own: seq<SkipNode?>, l: nat)
    requires 1 <= pos <= |spine| && Fit(spine, links) && |own| == node.forward.Length <= l && LevelOk(spine, links, l)
    ensures Fit(Spliced(spine, pos, node), Spliced(links, pos, own))
    ensures LevelOk(Spliced(spine, pos, node), Spliced(links, pos, own), l)
  {
    forall i | 0 <= i < |spine| && l < |links[i]|
      ensures Moved(i, pos) < |Spliced(spine, pos, node)|
      ensures links[i][l] == Target(Spliced(spine, pos, node), Moved(i, pos), l)
    {
      TargetAbove(spine, pos, node, l, i);
    }
    FitSpliced(spine, links, pos, node, own);
    AllMoved(Targets(Spliced(spine, pos, node), l), links, pos, own, l);
  }

  /** The levels below `l` are right with the new node, the others without it. */
  ghost predicate HalfLinked(
    spine: seq<SkipNode>, links: Links, pos: nat, node: SkipNode, own: seq<SkipNode?>, l: nat) {
    && 1 <= pos <= |spine| && Fit(spine, links) && |own| == node.forward.Length
    && Fit(Spliced(spine, pos, node), Spliced(links, pos, own))
    && (forall k: nat :: k >= l ==> LevelOk(spine, links, k))
    && (forall k: nat :: k < l ==> LevelOk(Spliced(spine, pos, node), Spliced(links, pos, own), k))
  }

  lemma NoneSpliced(spine: seq<SkipNode>, links: Links, pos: nat, node: SkipNode, own: seq<SkipNode?>)
    requires 1 <= pos <= |spine| && Linked(spine, links) && |own| == node.forward.Length
    ensures HalfLinked(spine, links, pos, node, own, 0)
  {}

  lemma OneMoreSpliced(
    spine: seq<SkipNode>, links: Links, pos: nat, node: SkipNode, own: seq<SkipNode?>, u: nat, l: nat)
    requires HalfLinked(spine, links, pos, node, own, l) && l < |own| && Precedes(spine, pos, u, l)
    ensures HalfLinked(spine, links[u := links[u][l := node]], pos, node, own[l := links[u][l]], l + 1)
  {
    var links1, own1 := links[u := links[u][l := node]], own[l := links[u][l]];
    LevelSpliced(spine, links, pos, node, own, u, l);
    forall k: nat | k < l
      ensures LevelOk(Spliced(spine, pos, node), Spliced(links1, pos, own1), k)
    {
      LowerKept(Spliced(spine, pos, node), links, links1, pos, own, own1, k);
    }
    forall k: nat | k > l
      ensures LevelOk(spine, links1, k)
    {
      SameLevel(spine, links, links1, k);
    }
  }

  lemma LowerKept(
    spine': seq<SkipNode>, links: Links, links1: Links, pos: nat, own: seq<SkipNode?>, own1: seq<SkipNode?>,
    k: nat)
    requires |links| == |links1| && pos <= |links| && |own| == |own1|
    requires Fit(spine', Spliced(links, pos, own)) && Fit(spine', Spliced(links1, pos, own1))
    requires k < |own| ==> own1[k] == own[k]
    requires forall i :: 0 <= i < |links| ==>
      |links1[i]| == |links[i]| && (k < |links[i]| ==> links1[i][k] == links[i][k])
    requires LevelOk(spine', Spliced(links, pos, own), k)
    ensures LevelOk(spine', Spliced(links1, pos, own1), k)
  {
    SameLevel(spine', Spliced(links, pos, own), Spliced(links1, pos, own1), k);
  }

  lemma SameLevel(spine: seq<SkipNode>, links: Links, links1: Links, k: nat)
    requires Fit(spine, links) && Fit(spine, links1) && LevelOk(spine, links, k)
    requires forall i :: 0 <= i < |spine| && k < |links[i]| ==> links1[i][k] == links[i][k]
    ensures LevelOk(spine, links1, k)
  {}

  lemma AllSpliced(spine: seq<SkipNode>, links: Links, pos: nat, node: SkipNode, own: seq<SkipNode?>)
    requires HalfLinked(spine, links, pos, node, own, |own|)
    ensures Linked(Spliced(spine, pos, node), Spliced(links, pos, own))
  {
    forall k: nat | k >= |own|
      ensures LevelOk(Spliced(spine, pos, node), Spliced(links, pos, own), k)
    {
      LevelAbove(spine, links, pos, node, own, k);
    }
  }

  lemma ShapeSpliced(spine: seq<SkipNode>, level: nat, pos: nat, node: SkipNode)
    requires Shape(spine, level) && Splits(spine, node.key, pos) && 1 <= node.forward.Length <= level
    requires forall i :: 0 <= i < |spine| ==> spine[i] != node && spine[i].forward != node.forward
    requires forall i :: pos <= i < |spine| ==> Less(node.key, spine[i].key)
    ensures Shape(Spliced(spine, pos, node), level)
  {}

  /** Where the key is not, everything from the split on is larger. */
  lemma LargerFrom(spine: seq<SkipNode>, level: nat, key: Key, pos: nat)
    requires Shape(spine, level) && Splits(spine, key, pos)
    requires pos < |spine| ==> spine[pos].key != key
    ensures forall i :: pos <= i < |spine| ==> Less(key, spine[i].key)
  {
    if pos < |spine| {
      LessTotal(spine[pos].key, key);
      forall i | pos < i < |spine|
        ensures Less(key, spine[i].key)
      {
        LessTransitive(key, spine[pos].key, spine[i].key);
      }
    }
  }

  // ---- entries ----

  /** `es` lists the entries of keys like those of the nodes after the head. */
  ghost predicate KeysMatch(spine: seq<SkipNode>, es: seq<MemEntry>) {
    && |es| == |spine| - 1
    && forall i :: 0 <= i < |es| ==> es[i].key == spine[i + 1].key
  }

  /** The put of a key that is not there inserts at the split. */
  lemma PutInserts(spine: seq<SkipNode>, level: nat, es: seq<MemEntry>, e: MemEntry, pos: nat)
    requires Shape(spine, level) && KeysMatch(spine, es) && Splits(spine, e.key, pos)
    requires pos < |spine| ==> spine[pos].key != e.key
    ensures PutSorted(es, e) == Spliced(es, pos - 1, e)
  {
    LargerFrom(spine, level, e.key, pos);
    PutInsertsAt(es, e, pos - 1);
  }

  lemma PutReplaces(spine: seq<SkipNode>, es: seq<MemEntry>, e: MemEntry, pos: nat)
    requires KeysMatch(spine, es) && Splits(spine, e.key, pos) && pos < |spine| && spine[pos].key == e.key
    ensures PutSorted(es, e) == es[pos - 1 := e]
  {
    PutReplacesAt(es, e, pos - 1);
  }

  /** A key is held exactly if the node at its split has it. */
  lemma HeldAt(spine: seq<SkipNode>, level: nat, es: seq<MemEntry>, key: Key, pos: nat)
    requires Shape(spine, level) && KeysMatch(spine, es) && Splits(spine, key, pos)
    ensures key in ToTable(es) <==> pos < |spine| && spine[pos].key == key
    ensures pos < |spine| && spine[pos].key == key ==>
      ToTable(es)[key] == Write(es[pos - 1].op, es[pos - 1].value)
  {
    SortedTable(es);
    TableKeys(es);
    if pos < |spine| && spine[pos].key == key {
      assert es[pos - 1].key == key;
    } else {
      LargerFrom(spine, level, key, pos);
      forall i | 0 <= i < |es|
        ensures es[i].key != key
      {
        LessIrreflexive(key);
      }
    }
  }

  class List {
    const head: SkipNode
    var level: nat
    var length: nat
    ghost var spine: seq<SkipNode>
    ghost var repr: set<object>

    /** The nodes and their arrays belong to the list. */
    ghost predicate Owned()
      reads this
    {
      && this !in repr
      && forall i :: 0 <= i < |spine| ==> spine[i] in repr && spine[i].forward in repr
    }

    ghost function Pointers(): (links: Links)
      requires Owned()
      reads this, repr
      ensures Fit(spine, links)
      ensures forall i :: 0 <= i < |spine| ==> links[i] == spine[i].forward[..]
    {
      seq(|spine|, i requires 0 <= i < |spine| && Owned() reads this, repr => spine[i].forward[..])
    }

    ghost function Entries(): (es: seq<MemEntry>)
      requires Owned() && |spine| >= 1
      reads this, repr
      ensures KeysMatch(spine, es)
      ensures forall i :: 0 <= i < |es| ==> es[i] == MemEntry(spine[i + 1].key, spine[i + 1].value, spine[i + 1].op)
    {
      seq(|spine| - 1, i requires 0 <= i < |spine| - 1 && Owned() reads this, repr =>
        MemEntry(spine[i + 1].key, spine[i + 1].value, spine[i + 1].op))
    }

    ghost predicate Valid()
      reads this, repr
    {
      && Owned()
      && Shape(spine, level)
      && spine[0] == head
      && length == |spine| - 1
      && Linked(spine, Pointers())
    }

    constructor ()
      ensures Valid() && Entries() == []
      ensures fresh(repr)
    {
      head := new SkipNode([], Nil, 0, MAX_LEVEL);
      level := 1;
      length := 0;
      new;
      spine := [head];
      repr := {head, head.forward};
      assert Heights(spine) == [MAX_LEVEL];
    }

    /** Along one level, as far as the keys stay below `key`. */
    method Advance(from: SkipNode, i: nat, key: Key, ghost c0: nat, ghost pos: nat)
      returns (current: SkipNode, ghost c: nat)
      requires Valid() && Splits(spine, key, pos)
      requires c0 < pos && from == spine[c0] && from.forward.Length > i
      ensures Precedes(spine, pos, c, i) && current == spine[c] && current.forward[i] == Target(spine, c, i)
    {
      current, c := from, c0;
      assert LevelOk(spine, Pointers(), i);
      while current.forward[i] != null && Less(current.forward[i].key, key)
        invariant 0 <= c < pos && current == spine[c] && current.forward.Length > i
        invariant current.forward[i] == Target(spine, c, i)
        decreases |spine| - c
      {
        c := NextTall(Heights(spine), c, i);
        current := current.forward[i];
        assert Pointers()[c][i] == Target(spine, c, i);
      }
    }

    /** The last node before `key` at level 0, found from the top level down. */
    method Find(key: Key, ghost pos: nat) returns (node: SkipNode)
      requires Valid() && Splits(spine, key, pos)
      ensures node.forward.Length > 0 && node.forward[0] == NodeAt(spine, pos)
    {
      node := head;
      ghost var c := 0;
      var i := level;
      while i > 0
        invariant 0 <= i <= level
        invariant 0 <= c < pos && node == spine[c] && node.forward.Length >= i
        invariant i == 0 ==> Precedes(spine, pos, c, 0) && node.forward[0] == Target(spine, c, 0)
      {
        i := i - 1;
        node, c := Advance(node, i, key, c, pos);
      }
    }

    /** The last node before `key` at every level in use. */
    method FindPredecessors(key: Key, ghost pos: nat) returns (update: array<SkipNode?>, ghost us: seq<nat>)
      requires Valid() && Splits(spine, key, pos)
      ensures fresh(update) && update.Length == MAX_LEVEL
      ensures AllPrecede(spine, pos, us, update[..], level)
      ensures update[0].forward.Length > 0 && update[0].forward[0] == NodeAt(spine, pos)
    {
      update := new SkipNode?[MAX_LEVEL](_ => null);
      us := seq(MAX_LEVEL, _ => 0);
      var current := head;
      ghost var c := 0;
      var i := level;
      while i > 0
        invariant 0 <= i <= level && |us| == MAX_LEVEL && Pointers() == old(Pointers())
        invariant 0 <= c < pos && current == spine[c] && current.forward.Length >= i
        invariant forall l :: i <= l < level ==> Precedes(spine, pos, us[l], l) && update[l] == spine[us[l]]
        invariant i == 0 ==> us[0] == c && current.forward[0] == Target(spine, c, 0)
      {
        i := i - 1;
        current, c := Advance(current, i, key, c, pos);
        update[i] := current;
        assert Pointers() == old(Pointers());
        us := us[i := c];
      }
    }

    /** The new node takes over, level by level, the pointers of the nodes it goes behind. */
    method Splice(node: SkipNode, update: array<SkipNode?>, ghost us: seq<nat>, ghost pos: nat)
      requires Owned() && Shape(spine, level) && Linked(spine, Pointers()) && 1 <= pos <= |spine|
      requires node.forward !in repr && node !in repr && update !in repr && update != node.forward
      requires AllPrecede(spine, pos, us, update[..], node.forward.Length)
      modifies set i | 0 <= i < |spine| :: spine[i].forward, node.forward
      ensures Linked(Spliced(spine, pos, node), Spliced(Pointers(), pos, node.forward[..]))
    {
      NoneSpliced(spine, Pointers(), pos, node, node.forward[..]);
      var l := 0;
      while l < node.forward.Length
        invariant 0 <= l <= node.forward.Length
        invariant HalfLinked(spine, Pointers(), pos, node, node.forward[..], l)
        invariant update[..] == old(update[..])
      {
        ghost var links, own, u := Pointers(), node.forward[..], us[l];
        assert Precedes(spine, pos, u, l) && update[..][l] == spine[u];
        OneMoreSpliced(spine, links, pos, node, own, u, l);
        node.forward[l] := update[l].forward[l];
        update[l].forward[l] := node;
        assert node.forward[..] == own[l := links[u][l]];
        assert Pointers() == links[u := links[u][l := node]];
        l := l + 1;
      }
      AllSpliced(spine, Pointers(), pos, node, node.forward[..]);
    }

    /** A key the list does not hold gets a node of its own. */
    method Insert(
      key: Key, value: Slice, op: byte, height: nat, update: array<SkipNode?>, ghost us: seq<nat>,
      ghost pos: nat)
      requires Valid() && Splits(spine, key, pos) && (pos < |spine| ==> spine[pos].key != key)
      requires update !in repr && 1 <= height <= level && AllPrecede(spine, pos, us, update[..], height)
      modifies this`length, this`spine, this`repr, repr
      ensures Valid() && Entries() == Spliced(old(Entries()), pos - 1, MemEntry(key, value, op))
      ensures fresh(repr - old(repr))
    {
      LargerFrom(spine, level, key, pos);
      var node := new SkipNode(key, value, op, height);
      ShapeSpliced(spine, level, pos, node);
      assert Pointers() == old(Pointers()) && Entries() == old(Entries());
      Attach(node, update, us, pos);
    }

    method Attach(node: SkipNode, update: array<SkipNode?>, ghost us: seq<nat>, ghost pos: nat)
      requires Valid() && 1 <= pos <= |spine| && Shape(Spliced(spine, pos, node), level)
      requires node.forward !in repr && node !in repr && update !in repr && update != node.forward
      requires AllPrecede(spine, pos, us, update[..], node.forward.Length)
      modifies this`length, this`spine, this`repr, repr, node.forward
      ensures Valid() && Entries() == Spliced(old(Entries()), pos - 1, MemEntry(node.key, node.value, node.op))
      ensures repr == old(repr) + {node, node.forward}
    {
      Splice(node, update, us, pos);
      ghost var links := Spliced(Pointers(), pos, node.forward[..]);
      length := length + 1;
      assert Spliced(Pointers(), pos, node.forward[..]) == links;
      assert Entries() == old(Entries());
      Adopt(node, pos);
    }

    /** The spine takes in a node that is already linked. */
    ghost method Adopt(node: SkipNode, pos: nat)
      requires Owned() && 1 <= pos <= |spine|
      modifies this`spine, this`repr
      ensures spine == Spliced(old(spine), pos, node) && repr == old(repr) + {node, node.forward} && Owned()
      ensures Pointers() == Spliced(old(Pointers()), pos, node.forward[..])
      ensures Entries() == Spliced(old(Entries()), pos - 1, MemEntry(node.key, node.value, node.op))
    {
      spine := Spliced(spine, pos, node);
      repr := repr + {node, node.forward};
    }

    /** Levels not used so far start at the head. */
    method Raise(newLevel: nat, update: array<SkipNode?>, ghost us: seq<nat>, ghost pos: nat)
      returns (ghost us': seq<nat>)
      requires Valid() && newLevel <= MAX_LEVEL == update.Length && 1 <= pos <= |spine|
      requires update !in repr && AllPrecede(spine, pos, us, update[..], level)
      modifies this`level, update
      ensures Valid() && newLevel <= level && AllPrecede(spine, pos, us', update[..], level)
      ensures Entries() == old(Entries())
    {
      us' := us;
      if newLevel > level {
        var i := level;
        while i < newLevel
          modifies update
          invariant level <= i <= newLevel && AllPrecede(spine, pos, us', update[..], i)
          invariant Pointers() == old(Pointers()) && Entries() == old(Entries())
        {
          HeadPrecedes(spine, level, pos, i);
          update[i] := head;
          us' := us'[i := 0];
          i := i + 1;
        }
        level := newLevel;
        assert Pointers() == old(Pointers());
      }
    }

    method Put(key: Key, value: Slice, op: byte, newLevel: nat)
      requires Valid() && 1 <= newLevel <= MAX_LEVEL
      modifies this, repr
      ensures Valid() && Entries() == PutSorted(old(Entries()), MemEntry(key, value, op))
      ensures fresh(repr - old(repr))
    {
      ghost var e := MemEntry(key, value, op);
      ghost var pos := SplitExists(spine, level, key);
      var update, us := FindPredecessors(key, pos);
      assert Pointers() == old(Pointers()) && Entries() == old(Entries());
      var existing := update[0].forward[0];
      if existing != null && existing.key == key {
        PutReplaces(spine, Entries(), e, pos);
        Overwrite(existing, value, op, pos);
      } else {
        InsertAt(key, value, op, newLevel, update, us, pos);
      }
    }

    method InsertAt(
      key: Key, value: Slice, op: byte, newLevel: nat, update: array<SkipNode?>, ghost us: seq<nat>,
      ghost pos: nat)
      requires Valid() && Splits(spine, key, pos) && (pos < |spine| ==> spine[pos].key != key)
      requires update !in repr && update.Length == MAX_LEVEL && 1 <= newLevel <= MAX_LEVEL
      requires AllPrecede(spine, pos, us, update[..], level)
      modifies this, repr, update
      ensures Valid() && Entries() == PutSorted(old(Entries()), MemEntry(key, value, op))
      ensures fresh(repr - old(repr))
    {
      PutInserts(spine, level, Entries(), MemEntry(key, value, op), pos);
      ghost var us' := Raise(newLevel, update, us, pos);
      Insert(key, value, op, newLevel, update, us', pos);
    }

    method Overwrite(existing: SkipNode, value: Slice, op: byte, ghost pos: nat)
      requires Valid() && 1 <= pos < |spine| && existing == spine[pos]
      modifies existing
      ensures Valid() && Entries() == old(Entries())[pos - 1 := MemEntry(existing.key, value, op)]
    {
      existing.value := value;
      existing.op := op;
      assert Pointers() == old(Pointers());
    }

    method Get(key: Key) returns (node: SkipNode?)
      requires Valid()
      ensures node == null <==> key !in ToTable(Entries())
      ensures node != null ==> node in spine && node.key == key && ToTable(Entries())[key] == Write(node.op, node.value)
    {
      ghost var pos := SplitExists(spine, level, key);
      var last := Find(key, pos);
      HeldAt(spine, level, Entries(), key, pos);
      var candidate := last.forward[0];
      if candidate != null && candidate.key == key {
        node := candidate;
      } else {
        node := null;
      }
    }

    method Iterate() returns (entries: seq<MemEntry>)
      requires Valid()
      ensures entries == Entries()
    {
      BottomLinks();
      entries := Collect();
    }

    /** Along the bottom level. */
    method Collect() returns (entries: seq<MemEntry>)
      requires Owned() && |spine| >= 1 && spine[0] == head && BottomLinked()
      ensures entries == Entries()
    {
      ghost var es := Entries();
      entries := [];
      var current := head.forward[0];
      ghost var c := 1;
      while current != null
        invariant 1 <= c <= |spine| && current == NodeAt(spine, c)
        invariant entries == es[..c - 1]
        decreases |spine| - c
      {
        assert es[c - 1] == MemEntry(current.key, current.value, current.op);
        assert es[..c - 1] + [es[c - 1]] == es[..c];
        entries := entries + [MemEntry(current.key, current.value, current.op)];
        current := current.forward[0];
        c := c + 1;
      }
    }

    ghost predicate BottomLinked()
      requires Owned()
      reads this, repr
    {
      forall c :: 0 <= c < |spine| ==> spine[c].forward.Length > 0 && spine[c].forward[0] == NodeAt(spine, c + 1)
    }

    /** At the bottom level each node leads to the next. */
    lemma BottomLinks()
      requires Valid()
      ensures BottomLinked()
    {
      assert LevelOk(spine, Pointers(), 0);
      forall c | 0 <= c < |spine|
        ensures spine[c].forward.Length > 0 && spine[c].forward[0] == NodeAt(spine, c + 1)
      {
        assert Pointers()[c][0] == Target(spine, c, 0);
        NextTallIs(Heights(spine), c, 0, c + 1);
      }
    }
  }
}
