/**
 What the handlers of a node do, said of the fields alone: when a vote is granted and counted, what an
 append request leaves, what a leader learns from an answer, and which positions it commits.
 */
module RaftExact {
  import opened Bytes
  import opened RaftTypes
  import opened RaftHandlers

  function Max(a: nat, b: nat): nat {
    if a < b then b else a
  }

  function Min(a: nat, b: nat): nat {
    if a < b then a else b
  }

  // ---- votes ----

  /** A vote is given to the candidate of a term that is not over, once a term, and not to a shorter or older log. */
  ghost predicate GivesVote(n: NodeState, q: VoteRequest)
    requires n.log != []
  {
    var last := n.log[|n.log| - 1];
    && q.term >= n.currentTerm
    && (q.term > n.currentTerm || n.votedFor == NOBODY || n.votedFor == q.candidate)
    && (q.lastTerm > last.term || (q.lastTerm == last.term && q.lastIndex >= last.index))
  }

  lemma {:induction false} VoteExactly(n: NodeState, q: VoteRequest)
    requires n.log != []
    ensures var (n', a) := HandleVoteRequest(n, q);
            var vote := if a.granted then q.candidate else if q.term > n.currentTerm then NOBODY else n.votedFor;
            && (a.granted <==> GivesVote(n, q))
            && a.term == Max(n.currentTerm, q.term)
            && n' == n.(currentTerm := a.term, votedFor := vote,
                        role := if q.term > n.currentTerm then Follower else n.role,
                        disk := if a.granted || q.term > n.currentTerm then Durable(a.term, vote, n.log) else n.disk)
  {}

  /** An answer is counted while the node is a candidate in the term it asked for; a higher term ends that. */
  lemma {:induction false} VoteCountedExactly(n: NodeState, term: nat, peer: Id, a: VoteAnswer)
    ensures var n' := HandleVoteAnswer(n, term, peer, a);
            if a.term > n.currentTerm
            then n' == n.(currentTerm := a.term, role := Follower, votedFor := NOBODY,
                          disk := Durable(a.term, NOBODY, n.log))
            else n' == n.(votes := n'.votes) && n.votes <= n'.votes
                 && forall v :: v in n'.votes <==>
                      v in n.votes || (v == peer && a.granted && n.role == Candidate && n.currentTerm == term)
  {}

  // ---- the append loop ----

  /** The first `j` entries are in the log already, by term, from position `at` on. */
  ghost predicate Present(log: seq<Entry>, at: nat, entries: seq<Entry>, j: nat) {
    && j <= |entries| && at + j <= |log|
    && forall x :: 0 <= x < j ==> log[at + x].term == entries[x].term
  }

  /** The first entry that is not: from it on the log is replaced by the entries. */
  ghost predicate ReplacedFrom(log: seq<Entry>, at: nat, entries: seq<Entry>, j: nat, log': seq<Entry>) {
    && Present(log, at, entries, j)
    && (j < |entries| && at + j < |log| ==> log[at + j].term != entries[j].term)
    && log' == if j == |entries| then log else log[..at + j] + entries[j..]
  }

  lemma {:induction false} MergeAtEnd(log: seq<Entry>, entries: seq<Entry>)
    ensures Merge(log, |log|, entries) == log + entries
    decreases |entries|
  {
    if entries != [] {
      MergeAtEnd(log + [entries[0]], entries[1..]);
      assert log + [entries[0]] + entries[1..] == log + entries;
    }
  }

  /** The log keeps what it shares with the entries, and takes them from the first difference on. */
  lemma {:induction false} MergeExactly(log: seq<Entry>, at: nat, entries: seq<Entry>) returns (j: nat)
    requires at <= |log|
    ensures ReplacedFrom(log, at, entries, j, Merge(log, at, entries))
    decreases |entries|
  {
    j := 0;
    if entries != [] {
      if at < |log| && log[at].term == entries[0].term {
        j := MergeExactly(log, at + 1, entries[1..]);
        assert entries[1..][j..] == entries[j + 1..];
        assert forall x :: 1 <= x < j + 1 ==> entries[x] == entries[1..][x - 1];
        j := j + 1;
      } else {
        var cut := log[..at] + [entries[0]];
        MergeAtEnd(cut, entries[1..]);
        assert cut + entries[1..] == log[..at] + entries;
        assert at == |log| ==> log[..at] == log;
      }
    }
  }

  // ---- append requests ----

  /** The request is of a term that is not over, and the log has its previous entry. */
  ghost predicate Follows(n: NodeState, q: AppendRequest) {
    q.term >= n.currentTerm && q.prevIndex < |n.log| && n.log[q.prevIndex].term == q.prevTerm
  }

  /** What the request makes of the log. */
  ghost predicate LogAfter(n: NodeState, q: AppendRequest, log: seq<Entry>) {
    if Follows(n, q) then var at := q.prevIndex + 1; exists j :: ReplacedFrom(n.log, at, q.entries, j, log)
    else if q.term >= n.currentTerm && q.prevIndex < |n.log| then log == n.log[..q.prevIndex]
    else log == n.log
  }

  /** A higher term, or a leader of the own term in place of a candidacy, makes the node a follower without a vote. */
  ghost predicate Submits(n: NodeState, term: nat) {
    term > n.currentTerm || (term == n.currentTerm && n.role == Candidate)
  }

  /** The answer carries the term from before the request, which is the higher one if it refuses for the term. */
  lemma {:induction false} AppendAnsweredExactly(n: NodeState, q: AppendRequest)
    ensures var (n', a, _) := HandleAppend(n, q);
            && (a.success <==> Follows(n, q))
            && a == AppendAnswer(n.currentTerm, a.success, if a.success then LastIndex(n'.log) else 0)
            && n'.currentTerm == Max(n.currentTerm, q.term)
            && (if Submits(n, q.term) then n'.role == Follower && n'.votedFor == NOBODY
                else n'.role == n.role && n'.votedFor == n.votedFor)
            && n'.commitIndex == (if a.success && q.leaderCommit > n.commitIndex
                                  then Min(q.leaderCommit, LastIndex(n'.log)) else n.commitIndex)
  {}

  /** A gap leaves the log, a conflict at the previous entry cuts it there, otherwise the entries are merged. */
  lemma {:induction false} AppendedExactly(n: NodeState, q: AppendRequest)
    ensures LogAfter(n, q, HandleAppend(n, q).0.log)
  {
    var log := HandleAppend(n, q).0.log;
    if Follows(n, q) {
      assert log == Merge(n.log, q.prevIndex + 1, q.entries);
      var j := MergeExactly(n.log, q.prevIndex + 1, q.entries);
    }
  }

  // ---- handing over ----

  /** The messages of the entries behind `from` up to `to`. */
  function Messages(log: seq<Entry>, from: nat, to: nat): (ms: seq<ApplyMsg>)
    requires from <= to < |log|
  {
    seq(to - from, x requires 0 <= x < to - from => ApplyMsg(from + 1 + x, log[from + 1 + x].data))
  }

  lemma {:induction false} DrainExactly(log: seq<Entry>, from: nat, to: nat)
    requires WellIndexed(log) && from <= to < |log|
    ensures Drain(log, from, to) == Messages(log, from, to)
    decreases |log| - from
  {
    if from < to {
      DrainExactly(log, from + 1, to);
      assert Messages(log, from, to) == [ApplyMsg(from + 1, log[from + 1].data)] + Messages(log, from + 1, to);
    }
  }

  // ---- the leader's commit rule ----

  /** The node and the peers whose match index reaches `k` are a quorum. */
  ghost predicate AtQuorum(n: NodeState, peers: set<Id>, quorum: nat, k: nat) {
    1 + |set p | p in peers && p in n.matchIndex && n.matchIndex[p] >= k| >= quorum
  }

  /** A position of the own term that a quorum holds. */
  ghost predicate Countable(n: NodeState, peers: set<Id>, quorum: nat, k: nat) {
    k < |n.log| && n.log[k].term == n.currentTerm && AtQuorum(n, peers, quorum, k)
  }

  lemma HoldersCount(n: NodeState, peers: set<Id>, quorum: nat, k: nat)
    requires n.id !in peers
    ensures |Holders(n, peers, k)| >= quorum <==> AtQuorum(n, peers, quorum, k)
  {
    var matching := set p | p in peers && p in n.matchIndex && n.matchIndex[p] >= k;
    assert Holders(n, peers, k) == {n.id} + matching;
    assert |{n.id} + matching| == 1 + |matching|;
  }

  /** The search finds the highest such position above the commit index, if there is one. */
  lemma {:induction false} QuorumIndexExactly(n: NodeState, peers: set<Id>, quorum: nat, at: nat)
    requires n.id !in peers
    ensures var k := QuorumIndex(n, peers, quorum, at);
            && (k == n.commitIndex || (n.commitIndex < k <= at && Countable(n, peers, quorum, k)))
            && forall j :: n.commitIndex < j <= at && Countable(n, peers, quorum, j) ==> j <= k
    decreases at
  {
    if at > n.commitIndex {
      HoldersCount(n, peers, quorum, at);
      if !Countable(n, peers, quorum, at) {
        QuorumIndexExactly(n, peers, quorum, at - 1);
      }
    }
  }

  /** `k` is the highest countable position above the commit index, or the commit index if there is none. */
  ghost predicate HighestCountable(n: NodeState, peers: set<Id>, quorum: nat, k: nat) {
    && (k == n.commitIndex || (n.commitIndex < k && Countable(n, peers, quorum, k)))
    && forall j :: n.commitIndex < j && Countable(n, peers, quorum, j) ==> j <= k
  }

  /** The leader commits up to the highest countable position, and hands over exactly what is new up to it. */
  lemma {:induction false} AdvanceExactly(n: NodeState, peers: set<Id>, quorum: nat)
    requires WellIndexed(n.log) && n.lastApplied <= n.commitIndex < |n.log| && n.id !in peers
    ensures var (n', msgs) := AdvanceCommit(n, peers, quorum);
            var k := n'.commitIndex;
            && HighestCountable(n, peers, quorum, k) && k < |n.log|
            && if k > n.commitIndex
               then n' == n.(commitIndex := k, lastApplied := k) && msgs == Messages(n.log, n.lastApplied, k)
               else n' == n && msgs == []
  {
    QuorumIndexExactly(n, peers, quorum, LastIndex(n.log));
    var k := QuorumIndex(n, peers, quorum, LastIndex(n.log));
    if k > n.commitIndex {
      DrainExactly(n.log, n.lastApplied, k);
    }
  }

  // ---- answers to append requests ----

  /** The node with what a successful answer of `peer` shows: it has the log up to `last`. */
  function Matched(n: NodeState, peer: Id, last: nat): NodeState {
    n.(matchIndex := n.matchIndex[peer := last], nextIndex := n.nextIndex[peer := last + 1])
  }

  /**
   A higher term unseats the leader. In the term of the request, a success with entries records their last
   position and commits what it can; a refusal moves the next position one back, but not below 1.
   */
  lemma {:induction false} LearnsExactly(
    n: NodeState, peer: Id, q: AppendRequest, a: AppendAnswer, peers: set<Id>, quorum: nat)
    ensures var (n', msgs) := HandleAppendAnswer(n, peer, q, a, peers, quorum);
            if a.term > n.currentTerm
            then n' == n.(currentTerm := a.term, role := Follower, votedFor := NOBODY,
                          disk := Durable(a.term, NOBODY, n.log)) && msgs == []
            else if n.role != Leader || n.currentTerm != q.term then (n', msgs) == (n, [])
            else if a.success && q.entries != []
            then (n', msgs) == AdvanceCommit(Matched(n, peer, q.entries[|q.entries| - 1].index), peers, quorum)
            else if !a.success && peer in n.nextIndex && n.nextIndex[peer] > 1
            then n' == n.(nextIndex := n.nextIndex[peer := n.nextIndex[peer] - 1]) && msgs == []
            else (n', msgs) == (n, [])
  {}
}
