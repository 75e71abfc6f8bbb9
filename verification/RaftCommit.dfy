/**
 Commit safety: every commit index, in a node or in flight, covers a prefix of a log
 that a quorum acknowledged, and that prefix is never cut again.
 */
module RaftCommit {
  import opened Bytes
  import opened RaftTypes
  import opened RaftHandlers
  import opened RaftCluster
  import opened RaftElection
  import opened RaftLogs
  import opened RaftRetention

  ghost predicate SafeBy(c: Cluster, x: seq<Entry>, bound: nat, t: nat, k: nat) {
    t <= bound && Committed(c, t, k) && x <= Upto(c, t, k)
  }

  /** `x` is committed by a leader of term `bound` or earlier. */
  ghost predicate Safe(c: Cluster, x: seq<Entry>, bound: nat) {
    x <= [SENTINEL] || exists t: nat, k: nat :: SafeBy(c, x, bound, t, k)
  }

  ghost predicate NodeCommitOk(c: Cluster, n: NodeState) {
    n.lastApplied <= n.commitIndex < |n.log| && Safe(c, n.log[..n.commitIndex + 1], n.currentTerm)
  }

  ghost predicate AppendCommitOk(c: Cluster, a: Append) {
    var q := a.request;
    q.term in c.reigns && q.leaderCommit < |c.reigns[q.term].log| && Safe(c, Upto(c, q.term, q.leaderCommit), q.term)
  }

  /** While a node leads, each match index is 0 or something the peer acknowledged in this term. */
  ghost predicate MatchOk(c: Cluster, n: NodeState) {
    n.role == Leader ==>
      forall p :: p in Peers(c, n.id) && p in n.matchIndex ==>
        n.matchIndex[p] == 0 || Acked(c, p, n.currentTerm, n.matchIndex[p])
  }

  ghost predicate Backs(c: Cluster, msg: ApplyMsg, t: nat, k: nat) {
    && Committed(c, t, k)
    && 1 <= msg.index <= k
    && c.reigns[t].log[msg.index].data == msg.command
  }

  ghost predicate HandoverOk(c: Cluster, h: Handover) {
    exists t: nat, k: nat :: Backs(c, h.msg, t, k)
  }

  ghost predicate CommitInv(c: Cluster) {
    && (forall i :: i in c.nodes ==> NodeCommitOk(c, c.nodes[i]) && MatchOk(c, c.nodes[i]))
    && (forall a :: a in c.appends ==> AppendCommitOk(c, a))
    && (forall h :: h in c.handovers ==> HandoverOk(c, h))
  }

  // ---- consequences ----

  /** Leader completeness, for all entries and leaders at once. */
  ghost predicate Complete(c: Cluster) {
    && (forall u :: u in c.reigns ==> c.reigns[u].base <= c.reigns[u].log)
    && forall t: nat, k: nat, u: nat :: Committed(c, t, k) && u in c.reigns && t < u ==>
         Upto(c, t, k) <= c.reigns[u].base
  }

  lemma CompleteHolds(c: Cluster)
    requires Tenure(c)
    ensures Complete(c)
  {
    forall u | u in c.reigns
      ensures c.reigns[u].base <= c.reigns[u].log
    {
      assert ReignLogOk(c.reigns, u);
    }
    forall t: nat, k: nat, u: nat | Committed(c, t, k) && u in c.reigns && t < u
      ensures Upto(c, t, k) <= c.reigns[u].base
    {
      LeaderCompleteness(c, t, k, u);
    }
  }

  /** A committed prefix is in the log of every leader of its term or later. */
  lemma SafeInLeader(c: Cluster, x: seq<Entry>, bound: nat, u: nat)
    requires Complete(c)
    requires Safe(c, x, bound) && bound <= u && u in c.reigns && ReignLogOk(c.reigns, u)
    ensures x <= c.reigns[u].log
  {
    if !(x <= [SENTINEL]) {
      var t: nat, k: nat :| SafeBy(c, x, bound, t, k);
      assert t < u ==> Upto(c, t, k) <= c.reigns[u].base;
    }
  }

  /** Of two committed prefixes one extends the other. */
  lemma CommittedAgree(c: Cluster, t: nat, k: nat, u: nat, l: nat)
    requires Complete(c)
    requires Committed(c, t, k) && Committed(c, u, l)
    ensures Upto(c, t, k) <= Upto(c, u, l) || Upto(c, u, l) <= Upto(c, t, k)
  {
    if t < u {
      assert Upto(c, t, k) <= c.reigns[u].base;
    } else if u < t {
      assert Upto(c, u, l) <= c.reigns[t].base;
    }
  }

  lemma BackedAlike(c: Cluster, m1: ApplyMsg, m2: ApplyMsg)
    requires Complete(c)
    requires m1.index == m2.index
    requires exists t: nat, k: nat :: Backs(c, m1, t, k)
    requires exists t: nat, k: nat :: Backs(c, m2, t, k)
    ensures m1 == m2
  {
    var t: nat, k: nat :| Backs(c, m1, t, k);
    var u: nat, l: nat :| Backs(c, m2, u, l);
    CommittedAgree(c, t, k, u, l);
    assert Upto(c, t, k)[m1.index] == c.reigns[t].log[m1.index];
    assert Upto(c, u, l)[m1.index] == c.reigns[u].log[m1.index];
  }

  // ---- growth ----

  ghost predicate Extends(c: Cluster, c': Cluster) {
    c'.members == c.members && Grows(c.reigns, c'.reigns) && c.appendReplies <= c'.appendReplies
  }

  lemma AckedGrows(c: Cluster, c': Cluster, p: Id, t: nat, m: nat)
    requires Acked(c, p, t, m) && Extends(c, c')
    ensures Acked(c', p, t, m) && Upto(c', t, m) == Upto(c, t, m)
  {
    if p != c.reigns[t].leader {
      var r :| r in c.appendReplies && AckOf(r, p, t, m);
      assert r in c'.appendReplies;
    }
  }

  lemma CommittedGrows(c: Cluster, c': Cluster, t: nat, k: nat)
    requires Committed(c, t, k) && Extends(c, c')
    ensures Committed(c', t, k) && Upto(c', t, k) == Upto(c, t, k)
  {
    var q :| QuorumAcks(c, q, t, k);
    forall p | p in q
      ensures Acked(c', p, t, k)
    {
      AckedGrows(c, c', p, t, k);
    }
    assert QuorumAcks(c', q, t, k);
    assert Upto(c', t, k) == Upto(c, t, k);
    assert Upto(c, t, k)[k] == Upto(c', t, k)[k];
  }

  lemma SafeGrows(c: Cluster, c': Cluster, x: seq<Entry>, bound: nat, bound': nat)
    requires Safe(c, x, bound) && Extends(c, c') && bound <= bound'
    ensures Safe(c', x, bound')
  {
    if !(x <= [SENTINEL]) {
      var t: nat, k: nat :| SafeBy(c, x, bound, t, k);
      CommittedGrows(c, c', t, k);
      assert SafeBy(c', x, bound', t, k);
    }
  }

  lemma AppendCommitGrows(c: Cluster, c': Cluster, a: Append)
    requires AppendCommitOk(c, a) && Extends(c, c')
    ensures AppendCommitOk(c', a)
  {
    var q := a.request;
    assert Upto(c', q.term, q.leaderCommit) == Upto(c, q.term, q.leaderCommit);
    SafeGrows(c, c', Upto(c, q.term, q.leaderCommit), q.term, q.term);
  }

  lemma HandoverGrows(c: Cluster, c': Cluster, h: Handover)
    requires HandoverOk(c, h) && Extends(c, c')
    ensures HandoverOk(c', h)
  {
    var t: nat, k: nat :| Backs(c, h.msg, t, k);
    CommittedGrows(c, c', t, k);
    assert Upto(c, t, k)[h.msg.index] == Upto(c', t, k)[h.msg.index];
    assert Backs(c', h.msg, t, k);
  }

  lemma MatchGrows(c: Cluster, c': Cluster, n: NodeState)
    requires MatchOk(c, n) && Extends(c, c')
    ensures MatchOk(c', n)
  {
    if n.role == Leader {
      forall p | p in Peers(c', n.id) && p in n.matchIndex && n.matchIndex[p] != 0
        ensures Acked(c', p, n.currentTerm, n.matchIndex[p])
      {
        AckedGrows(c, c', p, n.currentTerm, n.matchIndex[p]);
      }
    }
  }

  // ---- handing over ----

  lemma {:induction false} DrainFrom(log: seq<Entry>, from: nat, to: nat, msg: ApplyMsg) returns (j: nat)
    requires msg in Drain(log, from, to) && WellIndexed(log)
    ensures from < j <= to && j < |log| && msg == ApplyMsg(j, log[j].data)
    decreases |log| - from
  {
    var head := ApplyMsg(log[from + 1].index, log[from + 1].data);
    var rest := Drain(log, from + 1, to);
    assert Drain(log, from, to) == [head] + rest;
    if msg == head {
      j := from + 1;
    } else {
      assert msg in rest;
      j := DrainFrom(log, from + 1, to, msg);
    }
  }

  /** Entries of a committed prefix may be handed over. */
  lemma HandedOk(c: Cluster, id: Id, log: seq<Entry>, from: nat, to: nat, bound: nat)
    requires WellIndexed(log) && to < |log| && Safe(c, log[..to + 1], bound)
    ensures forall h :: h in Handed(id, Drain(log, from, to)) ==> HandoverOk(c, h)
  {
    forall h | h in Handed(id, Drain(log, from, to))
      ensures HandoverOk(c, h)
    {
      var j := DrainFrom(log, from, to, h.msg);
      var x := log[..to + 1];
      assert x[j] == log[j];
      assert |x| >= 2;
      var t: nat, k: nat :| SafeBy(c, x, bound, t, k);
      assert Upto(c, t, k)[j] == x[j];
      assert Backs(c, h.msg, t, k);
    }
  }

  // ---- preservation ----

  lemma OneCommits(c: Cluster, c': Cluster, i: Id)
    requires CommitInv(c) && Extends(c, c') && i in c.nodes && c'.nodes.Keys == c.nodes.Keys
    requires forall j :: j in c.nodes && j != i ==> c'.nodes[j] == c.nodes[j]
    requires NodeCommitOk(c', c'.nodes[i]) && MatchOk(c', c'.nodes[i])
    requires forall a :: a in c'.appends ==> a in c.appends || AppendCommitOk(c', a)
    requires forall h :: h in c'.handovers ==> h in c.handovers || HandoverOk(c', h)
    ensures CommitInv(c')
  {
    forall j | j in c'.nodes
      ensures NodeCommitOk(c', c'.nodes[j]) && MatchOk(c', c'.nodes[j])
    {
      if j != i {
        var n := c.nodes[j];
        assert NodeCommitOk(c, n) && MatchOk(c, n);
        SafeGrows(c, c', n.log[..n.commitIndex + 1], n.currentTerm, n.currentTerm);
        MatchGrows(c, c', n);
      }
    }
    forall a | a in c'.appends
      ensures AppendCommitOk(c', a)
    {
      if a in c.appends {
        AppendCommitGrows(c, c', a);
      }
    }
    forall h | h in c'.handovers
      ensures HandoverOk(c', h)
    {
      if h in c.handovers {
        HandoverGrows(c, c', h);
      }
    }
  }

  /** Log, commit index and applied position stay; the node does not become leader. */
  ghost predicate CommitQuiet(n: NodeState, n': NodeState) {
    && n'.id == n.id && n'.log == n.log && n'.commitIndex == n.commitIndex && n'.lastApplied == n.lastApplied
    && n'.currentTerm >= n.currentTerm
    && (n'.role == Leader ==> n.role == Leader && n'.currentTerm == n.currentTerm && n'.matchIndex == n.matchIndex)
  }

  lemma QuietCommit(c: Cluster, c': Cluster, n': NodeState)
    requires CommitInv(c) && Extends(c, c') && n'.id in c.nodes && CommitQuiet(c.nodes[n'.id], n')
    requires c'.nodes == c.nodes[n'.id := n'] && c'.appends == c.appends && c'.handovers == c.handovers
    ensures CommitInv(c')
  {
    var n := c.nodes[n'.id];
    assert NodeCommitOk(c, n) && MatchOk(c, n);
    SafeGrows(c, c', n.log[..n.commitIndex + 1], n.currentTerm, n'.currentTerm);
    MatchGrows(c, c', n);
    OneCommits(c, c', n'.id);
  }

  lemma TimeoutCommit(c: Cluster, i: Id)
    requires NodesOk(c) && CommitInv(c) && CanTimeout(c, i)
    ensures CommitInv(AfterTimeout(c, i))
  {
    QuietCommit(c, AfterTimeout(c, i), StartElection(c.nodes[i]));
  }

  lemma VotingIsQuiet(n: NodeState, q: VoteRequest)
    ensures CommitQuiet(n, HandleVoteRequest(n, q).0)
  {}

  lemma VoteRequestCommit(c: Cluster, i: Id, q: VoteRequest)
    requires NodesOk(c) && CommitInv(c) && CanVote(c, i, q)
    ensures CommitInv(AfterVoteRequest(c, i, q))
  {
    VotingIsQuiet(c.nodes[i], q);
    QuietCommit(c, AfterVoteRequest(c, i, q), HandleVoteRequest(c.nodes[i], q).0);
  }

  lemma VoteReplyCommit(c: Cluster, r: VoteReply)
    requires NodesOk(c) && CommitInv(c) && CanCount(c, r)
    ensures CommitInv(AfterVoteReply(c, r))
  {
    var n := HandleVoteAnswer(c.nodes[r.request.candidate], r.request.term, r.voter, r.answer);
    QuietCommit(c, AfterVoteReply(c, r), n);
  }

  lemma SendCommit(c: Cluster, i: Id, to: Id)
    requires NodesOk(c) && CommitInv(c) && CanSend(c, i, to)
    requires NodeLogOk(c.reigns, c.members, c.nodes[i])
    ensures CommitInv(AfterSend(c, i, to))
  {
    var n := c.nodes[i];
    var c' := AfterSend(c, i, to);
    assert NodeCommitOk(c, n) && MatchOk(c, n);
    var q := BuildAppend(n, to);
    assert Upto(c, q.term, q.leaderCommit) == n.log[..n.commitIndex + 1];
    assert AppendCommitOk(c, Append(to, q));
    AppendCommitGrows(c, c', Append(to, q));
    SameEvidence(c, c', i);
    OneCommits(c, c', i);
  }

  lemma CrashCommit(c: Cluster, i: Id, d: Durable)
    requires NodesOk(c) && LogsInv(c) && CommitInv(c) && i in c.nodes && KeepsLog(c.nodes[i], d)
    ensures CommitInv(AfterReboot(c, i, d))
  {
    var c' := AfterReboot(c, i, d);
    assert NodeLogOk(c.reigns, c.members, c.nodes[i]);
    assert c'.nodes[i].log[..1] == [SENTINEL];
    OneCommits(c, c', i);
  }

  /** A new leader knows nothing of its peers yet. */
  lemma NothingMatches(c: Cluster, n: NodeState)
    ensures MatchOk(c, TakeOffice(n, Peers(c, n.id)))
  {}

  lemma WinnerCommits(c: Cluster, c': Cluster, n: NodeState, n': NodeState)
    requires NodeCommitOk(c, n) && Extends(c, c')
    requires n'.log == n.log && n'.commitIndex == n.commitIndex && n'.lastApplied == n.lastApplied
    requires n'.currentTerm == n.currentTerm
    ensures NodeCommitOk(c', n')
  {
    SafeGrows(c, c', n.log[..n.commitIndex + 1], n.currentTerm, n.currentTerm);
  }

  lemma WinCommit(c: Cluster, i: Id)
    requires NodesOk(c) && CommitInv(c) && CanWin(c, i) && c.nodes[i].currentTerm !in c.reigns
    ensures CommitInv(AfterWin(c, i))
  {
    var c' := AfterWin(c, i);
    var n := c.nodes[i];
    WinFrame(c, i);
    assert NodeCommitOk(c, n);
    WinnerCommits(c, c', n, c'.nodes[i]);
    NothingMatches(c', n);
    OneCommits(c, c', i);
  }

  lemma ProposerCommits(c: Cluster, c': Cluster, n: NodeState, n': NodeState)
    requires NodeCommitOk(c, n) && MatchOk(c, n) && Extends(c, c')
    requires n'.id == n.id && n'.commitIndex == n.commitIndex && n'.lastApplied == n.lastApplied
    requires n'.currentTerm == n.currentTerm && n'.role == n.role && n'.matchIndex == n.matchIndex
    requires n.log <= n'.log
    ensures NodeCommitOk(c', n') && MatchOk(c', n')
  {
    assert n'.log[..n.commitIndex + 1] == n.log[..n.commitIndex + 1];
    SafeGrows(c, c', n.log[..n.commitIndex + 1], n.currentTerm, n.currentTerm);
    MatchGrows(c, c', n);
  }

  lemma ProposalExtends(c: Cluster, i: Id, data: seq<byte>)
    requires NodesOk(c) && LogsInv(c) && Leads(c, i)
    ensures var c' := AfterProposal(c, i, data);
            && Extends(c, c') && c'.nodes == c.nodes[i := Propose(c.nodes[i], data)]
            && c'.appends == c.appends && c'.handovers == c.handovers
  {
    ProposalGrows(c, i, data);
  }

  lemma ProposalCommit(c: Cluster, i: Id, data: seq<byte>)
    requires NodesOk(c) && LogsInv(c) && CommitInv(c) && Leads(c, i)
    ensures CommitInv(AfterProposal(c, i, data))
  {
    ProposalExtends(c, i, data);
    assert NodeCommitOk(c, c.nodes[i]) && MatchOk(c, c.nodes[i]);
    ProposerCommits(c, AfterProposal(c, i, data), c.nodes[i], Propose(c.nodes[i], data));
    OneCommits(c, AfterProposal(c, i, data), i);
  }

  // ---- the leader's commit rule ----

  /** The position the rule picks is the old commit index or one that a quorum holds. */
  lemma {:induction false} QuorumIndexPicks(n: NodeState, peers: set<Id>, quorum: nat, at: nat)
    ensures var k := QuorumIndex(n, peers, quorum, at);
            k == n.commitIndex
            || (n.commitIndex < k < |n.log| && n.log[k].term == n.currentTerm && |Holders(n, peers, k)| >= quorum)
    decreases at
  {
    if at > n.commitIndex {
      QuorumIndexPicks(n, peers, quorum, at - 1);
    }
  }

  /** What the leader counts as held by a quorum was acknowledged by a quorum. */
  lemma HeldIsCommitted(c: Cluster, n: NodeState, k: nat)
    requires n.id in c.members && n.role == Leader && MatchOk(c, n)
    requires n.currentTerm in c.reigns && c.reigns[n.currentTerm].leader == n.id
    requires c.reigns[n.currentTerm].log == n.log
    requires 1 <= k < |n.log| && n.log[k].term == n.currentTerm
    requires |Holders(n, Peers(c, n.id), k)| >= Quorum(c.members)
    ensures Committed(c, n.currentTerm, k)
  {
    var q := Holders(n, Peers(c, n.id), k);
    forall p | p in q
      ensures Acked(c, p, n.currentTerm, k)
    {
      if p != n.id {
        assert Acked(c, p, n.currentTerm, n.matchIndex[p]);
      }
    }
    assert QuorumAcks(c, q, n.currentTerm, k);
  }

  lemma AdvanceOk(c: Cluster, n: NodeState)
    requires n.id in c.members && n.role == Leader && MatchOk(c, n) && NodeCommitOk(c, n)
    requires n.currentTerm in c.reigns && c.reigns[n.currentTerm].leader == n.id
    requires c.reigns[n.currentTerm].log == n.log && WellIndexed(n.log)
    ensures OutcomeOk(c, n.id, AdvanceCommit(n, Peers(c, n.id), Quorum(c.members)))
  {
    var peers, quorum := Peers(c, n.id), Quorum(c.members);
    var k := QuorumIndex(n, peers, quorum, LastIndex(n.log));
    QuorumIndexPicks(n, peers, quorum, LastIndex(n.log));
    if k > n.commitIndex {
      HeldIsCommitted(c, n, k);
      assert SafeBy(c, n.log[..k + 1], n.currentTerm, n.currentTerm, k);
      HandedOk(c, n.id, n.log, n.lastApplied, k, n.currentTerm);
    }
  }

  /** A successful answer raises the match index to what the peer acknowledged. */
  lemma RecordMatch(c: Cluster, r: AppendReply, n: NodeState)
    requires AppendOk(c.reigns, c.members, r.append) && n.currentTerm in c.reigns && ReignLogOk(c.reigns, n.currentTerm)
    requires r in c.appendReplies && r.answer.success && MatchOk(c, n)
    requires n.role == Leader && n.currentTerm == r.append.request.term && r.append.request.entries != []
    ensures var last := LastIndex(r.append.request.entries);
            MatchOk(c, n.(matchIndex := n.matchIndex[r.append.to := last],
                          nextIndex := n.nextIndex[r.append.to := last + 1]))
  {
    LastSent(c.reigns, c.members, r.append);
    var last := LastIndex(r.append.request.entries);
    assert AckOf(r, r.append.to, n.currentTerm, last);
    assert Acked(c, r.append.to, n.currentTerm, last);
  }

  /** The node and what it hands over are in order. */
  ghost predicate OutcomeOk(c: Cluster, i: Id, outcome: (NodeState, seq<ApplyMsg>)) {
    && NodeCommitOk(c, outcome.0) && MatchOk(c, outcome.0)
    && forall h :: h in Handed(i, outcome.1) ==> HandoverOk(c, h)
  }

  lemma QuietOutcome(c: Cluster, n: NodeState, n': NodeState)
    requires NodeCommitOk(c, n) && MatchOk(c, n)
    requires n'.log == n.log && n'.commitIndex == n.commitIndex && n'.lastApplied == n.lastApplied && n'.id == n.id
    requires n'.currentTerm >= n.currentTerm && (n'.role == Leader ==> n' == n.(nextIndex := n'.nextIndex))
    ensures OutcomeOk(c, n.id, (n', []))
  {
    SafeGrows(c, c, n.log[..n.commitIndex + 1], n.currentTerm, n'.currentTerm);
  }

  lemma AppendAnswerCommit(c: Cluster, r: AppendReply, n: NodeState)
    requires AppendOk(c.reigns, c.members, r.append) && r in c.appendReplies && n.id in c.members
    requires n.role == Leader ==> n.currentTerm in c.reigns && ReignLogOk(c.reigns, n.currentTerm)
    requires NodeLogOk(c.reigns, c.members, n) && LeaderOk(c, n) && NodeCommitOk(c, n) && MatchOk(c, n)
    ensures OutcomeOk(c, n.id, HandleAppendAnswer(
              n, r.append.to, r.append.request, r.answer, Peers(c, n.id), Quorum(c.members)))
  {
    var q := r.append.request;
    var outcome := HandleAppendAnswer(n, r.append.to, q, r.answer, Peers(c, n.id), Quorum(c.members));
    if && r.answer.term <= n.currentTerm && n.role == Leader && n.currentTerm == q.term
       && r.answer.success && q.entries != [] {
      RecordMatch(c, r, n);
      var last := LastIndex(q.entries);
      AdvanceOk(c, n.(matchIndex := n.matchIndex[r.append.to := last],
                      nextIndex := n.nextIndex[r.append.to := last + 1]));
    } else {
      QuietOutcome(c, n, outcome.0);
    }
  }

  lemma AppendReplyCommit(c: Cluster, r: AppendReply)
    requires NodesOk(c) && LogsInv(c) && CommitInv(c) && CanLearn(c, r)
    requires LeaderOk(c, c.nodes[r.append.request.leader])
    ensures CommitInv(AfterAppendReply(c, r))
  {
    var i := r.append.request.leader;
    var n := c.nodes[i];
    var c' := AfterAppendReply(c, r);
    assert NodeLogOk(c.reigns, c.members, n) && NodeCommitOk(c, n) && MatchOk(c, n);
    assert AppendOk(c.reigns, c.members, r.append);
    assert n.role == Leader ==> n.currentTerm in c.reigns && ReignLogOk(c.reigns, n.currentTerm);
    AppendAnswerCommit(c, r, n);
    AppendReplyFrame(c, r);
    OutcomeCommits(c, c', i, HandleAppendAnswer(
      n, r.append.to, r.append.request, r.answer, Peers(c, i), Quorum(c.members)).1);
  }

  lemma AppendReplyFrame(c: Cluster, r: AppendReply)
    requires NodesOk(c) && CanLearn(c, r)
    ensures var c' := AfterAppendReply(c, r);
            var i := r.append.request.leader;
            var (n, msgs) := HandleAppendAnswer(
              c.nodes[i], r.append.to, r.append.request, r.answer, Peers(c, i), Quorum(c.members));
            && c'.members == c.members && c'.reigns == c.reigns && c'.appendReplies == c.appendReplies
            && c'.appends == c.appends && c'.handovers == c.handovers + Handed(i, msgs)
            && c'.nodes == c.nodes[i := n] && n.id == i
  {}

  /** Safety is judged by reigns and acknowledgements only. */
  lemma SameEvidence(c: Cluster, c': Cluster, i: Id)
    requires Extends(c, c') && i in c'.nodes
    ensures NodeCommitOk(c, c'.nodes[i]) ==> NodeCommitOk(c', c'.nodes[i])
    ensures MatchOk(c, c'.nodes[i]) ==> MatchOk(c', c'.nodes[i])
    ensures forall h :: HandoverOk(c, h) ==> HandoverOk(c', h)
  {
    var n := c'.nodes[i];
    if NodeCommitOk(c, n) {
      SafeGrows(c, c', n.log[..n.commitIndex + 1], n.currentTerm, n.currentTerm);
    }
    if MatchOk(c, n) {
      MatchGrows(c, c', n);
    }
    forall h | HandoverOk(c, h)
      ensures HandoverOk(c', h)
    {
      HandoverGrows(c, c', h);
    }
  }

  // ---- the follower's commit rule ----

  /** A request cuts nothing at or below the commit index. */
  lemma CommittedStays(c: Cluster, a: Append, n: NodeState)
    requires Complete(c) && AppendOk(c.reigns, c.members, a)
    requires ReignLogOk(c.reigns, a.request.term) && Founded(n.log, c.reigns) && NodeCommitOk(c, n)
    requires a.request.term >= n.currentTerm
    ensures n.log[..n.commitIndex + 1] <= AppendedLog(n.log, a.request)
  {
    SafeInLeader(c, n.log[..n.commitIndex + 1], n.currentTerm, a.request.term);
    SharedSurvives(c.reigns, c.members, a, n.log, n.log[..n.commitIndex + 1]);
  }

  /** An accepted request makes the leader's commit index safe for the follower. */
  lemma LeaderCommitHolds(c: Cluster, a: Append, log: seq<Entry>)
    requires AppendOk(c.reigns, c.members, a) && AppendCommitOk(c, a)
    requires ReignLogOk(c.reigns, a.request.term) && Founded(log, c.reigns) && Accepts(log, a.request)
    ensures var log' := AppendedLog(log, a.request);
            var k := a.request.leaderCommit;
            && WellIndexed(log') && k < |log'| && k <= LastIndex(log')
            && Safe(c, log'[..k + 1], a.request.term)
            && log'[..k + 1] <= Vouched(c.reigns, a.request)
  {
    var q := a.request;
    AppendEffect(c.reigns, c.members, a, log);
    assert AppendedLog(log, q)[..q.leaderCommit + 1] == Upto(c, q.term, q.leaderCommit);
  }

  /** The commit index of a follower after a request it did not find too old. */
  ghost predicate Followed(n: NodeState, q: AppendRequest, n': NodeState, msgs: seq<ApplyMsg>) {
    var log' := AppendedLog(n.log, q);
    && n'.log == log' && n'.currentTerm == q.term
    && if Accepts(n.log, q) && q.leaderCommit > n.commitIndex then
         var k := if q.leaderCommit < LastIndex(log') then q.leaderCommit else LastIndex(log');
         && n'.commitIndex == k && n'.lastApplied == (if n.lastApplied < k then k else n.lastApplied)
         && msgs == (if n.lastApplied < k then Drain(log', n.lastApplied, k) else [])
       else
         n'.commitIndex == n.commitIndex && n'.lastApplied == n.lastApplied && msgs == []
  }

  lemma HandleAppendFollows(n: NodeState, q: AppendRequest)
    requires q.term >= n.currentTerm && n.lastApplied <= n.commitIndex
    ensures var (n', _, msgs) := HandleAppend(n, q); Followed(n, q, n', msgs)
  {
    HandleAppendLog(n, q);
  }

  lemma FollowerRaises(c: Cluster, a: Append, n: NodeState, n': NodeState, msgs: seq<ApplyMsg>)
    requires AppendOk(c.reigns, c.members, a) && AppendCommitOk(c, a)
    requires ReignLogOk(c.reigns, a.request.term) && Founded(n.log, c.reigns) && n.lastApplied <= n.commitIndex
    requires Followed(n, a.request, n', msgs)
    requires Accepts(n.log, a.request) && a.request.leaderCommit > n.commitIndex
    ensures NodeCommitOk(c, n') && n'.commitIndex == a.request.leaderCommit
    ensures n'.log[..n'.commitIndex + 1] <= Vouched(c.reigns, a.request)
    ensures forall h :: h in Handed(a.to, msgs) ==> HandoverOk(c, h)
  {
    LeaderCommitHolds(c, a, n.log);
    assert n'.commitIndex == a.request.leaderCommit;
    HandedOk(c, a.to, n'.log, n.lastApplied, a.request.leaderCommit, a.request.term);
  }

  lemma FollowerKeeps(c: Cluster, n: NodeState, n': NodeState)
    requires NodeCommitOk(c, n) && n'.currentTerm >= n.currentTerm && n.log[..n.commitIndex + 1] <= n'.log
    requires n'.commitIndex == n.commitIndex && n'.lastApplied == n.lastApplied
    ensures NodeCommitOk(c, n')
  {
    assert n'.log[..n.commitIndex + 1] == n.log[..n.commitIndex + 1];
    SafeGrows(c, c, n.log[..n.commitIndex + 1], n.currentTerm, n'.currentTerm);
  }

  lemma FollowerCommits(c: Cluster, a: Append, n: NodeState, n': NodeState, msgs: seq<ApplyMsg>)
    requires AppendOk(c.reigns, c.members, a) && AppendCommitOk(c, a)
    requires ReignLogOk(c.reigns, a.request.term) && Founded(n.log, c.reigns) && NodeCommitOk(c, n)
    requires n.log[..n.commitIndex + 1] <= AppendedLog(n.log, a.request)
    requires a.request.term >= n.currentTerm && Followed(n, a.request, n', msgs)
    ensures NodeCommitOk(c, n') && n'.commitIndex >= n.commitIndex
    ensures n'.commitIndex > n.commitIndex ==>
              && n'.commitIndex == a.request.leaderCommit
              && n'.log[..n'.commitIndex + 1] <= Vouched(c.reigns, a.request)
    ensures forall h :: h in Handed(a.to, msgs) ==> HandoverOk(c, h)
  {
    if Accepts(n.log, a.request) && a.request.leaderCommit > n.commitIndex {
      FollowerRaises(c, a, n, n', msgs);
    } else {
      FollowerKeeps(c, n, n');
    }
  }

  /** A request never cuts at or below the commit index, and never raises it past what it vouches for. */
  lemma FollowerCommitRule(c: Cluster, a: Append, n: NodeState)
    requires Complete(c) && AppendOk(c.reigns, c.members, a) && AppendCommitOk(c, a)
    requires ReignLogOk(c.reigns, a.request.term) && Founded(n.log, c.reigns) && NodeCommitOk(c, n)
    requires a.request.term >= n.currentTerm
    ensures var (n', _, msgs) := HandleAppend(n, a.request);
            && NodeCommitOk(c, n')
            && n'.commitIndex >= n.commitIndex
            && n.log[..n.commitIndex + 1] <= n'.log
            && (n'.commitIndex > n.commitIndex ==>
                && n'.commitIndex == a.request.leaderCommit
                && n'.log[..n'.commitIndex + 1] <= Vouched(c.reigns, a.request))
            && forall h :: h in Handed(a.to, msgs) ==> HandoverOk(c, h)
  {
    CommittedStays(c, a, n);
    HandleAppendFollows(n, a.request);
    var (n', _, msgs) := HandleAppend(n, a.request);
    FollowerCommits(c, a, n, n', msgs);
  }

  lemma ReceiverOutcome(c: Cluster, a: Append)
    requires Complete(c) && a.to in c.nodes && AppendOk(c.reigns, c.members, a) && AppendCommitOk(c, a)
    requires ReignLogOk(c.reigns, a.request.term) && c.nodes[a.to].id == a.to
    requires NodeLogOk(c.reigns, c.members, c.nodes[a.to]) && LeaderOk(c, c.nodes[a.to])
    requires NodeCommitOk(c, c.nodes[a.to]) && MatchOk(c, c.nodes[a.to])
    ensures var (n', _, msgs) := HandleAppend(c.nodes[a.to], a.request); OutcomeOk(c, a.to, (n', msgs))
  {
    if a.request.term >= c.nodes[a.to].currentTerm {
      FollowerCommitRule(c, a, c.nodes[a.to]);
      HandleAppendNode(c, a);
    }
  }

  /** One node ends well, and everything else stays. */
  lemma OutcomeCommits(c: Cluster, c': Cluster, i: Id, msgs: seq<ApplyMsg>)
    requires CommitInv(c) && Extends(c, c') && i in c.nodes && c'.nodes.Keys == c.nodes.Keys
    requires forall j :: j in c.nodes && j != i ==> c'.nodes[j] == c.nodes[j]
    requires c'.appends == c.appends && c'.handovers == c.handovers + Handed(i, msgs)
    requires OutcomeOk(c, i, (c'.nodes[i], msgs))
    ensures CommitInv(c')
  {
    SameEvidence(c, c', i);
    OneCommits(c, c', i);
  }

  lemma ReceiveAppendCommit(c: Cluster, a: Append)
    requires NodesOk(c) && Complete(c) && LogsInv(c) && CommitInv(c) && CanAppend(c, a)
    requires LeaderOk(c, c.nodes[a.to])
    ensures CommitInv(AfterAppend(c, a))
  {
    assert AppendOk(c.reigns, c.members, a) && AppendCommitOk(c, a);
    assert NodeLogOk(c.reigns, c.members, c.nodes[a.to]) && NodeCommitOk(c, c.nodes[a.to]) && MatchOk(c, c.nodes[a.to]);
    ReceiverOutcome(c, a);
    ReceiveAppendFrame(c, a);
    OutcomeCommits(c, AfterAppend(c, a), a.to, HandleAppend(c.nodes[a.to], a.request).2);
  }
}
