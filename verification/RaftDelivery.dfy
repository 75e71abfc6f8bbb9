/**
 Nothing is held back: in every state of every run each node has handed over all it has committed, and a
 leader has committed all that the answers it has counted allow.
 */
module RaftDelivery {
  import opened Bytes
  import opened RaftTypes
  import opened RaftHandlers
  import opened RaftExact
  import opened RaftCluster
  import opened RaftElection
  import opened RaftLogs
  import opened RaftRetention
  import opened RaftCommit
  import opened RaftSafety

  /** The node has applied what it has committed, and each of these entries is on its apply channel. */
  ghost predicate Delivered(c: Cluster, n: NodeState) {
    && n.lastApplied == n.commitIndex < |n.log|
    && forall k :: 1 <= k <= n.commitIndex ==> Handover(n.id, ApplyMsg(k, n.log[k].data)) in c.handovers
  }

  /** Some peer is known to hold position `k`. */
  ghost predicate Known(n: NodeState, peers: set<Id>, k: nat) {
    exists p :: p in peers && p in n.matchIndex && n.matchIndex[p] >= k
  }

  /** A leader has committed every position of its term that a quorum, with some peer in it, is known to hold. */
  ghost predicate CaughtUp(n: NodeState, peers: set<Id>, quorum: nat) {
    n.role == Leader ==>
      forall k :: n.commitIndex < k && Known(n, peers, k) ==> !Countable(n, peers, quorum, k)
  }

  ghost predicate Serves(c: Cluster, n: NodeState) {
    Delivered(c, n) && CaughtUp(n, Peers(c, n.id), Quorum(c.members))
  }

  ghost predicate Prompt(c: Cluster) {
    forall i :: i in c.nodes ==> Serves(c, c.nodes[i])
  }

  // ---- what a handler hands over ----

  /** The node keeps what it committed, and `msgs` has the entries it committed in addition. */
  ghost predicate Continues(n: NodeState, n': NodeState, msgs: seq<ApplyMsg>) {
    && n'.id == n.id && n.commitIndex < |n.log| && n.log[..n.commitIndex + 1] <= n'.log
    && n'.lastApplied == n'.commitIndex && n.commitIndex <= n'.commitIndex < |n'.log|
    && forall k :: n.commitIndex < k <= n'.commitIndex ==> ApplyMsg(k, n'.log[k].data) in msgs
  }

  lemma {:induction false} StillDelivered(c: Cluster, c': Cluster, n: NodeState, n': NodeState, msgs: seq<ApplyMsg>)
    requires Delivered(c, n) && Continues(n, n', msgs)
    requires c.handovers <= c'.handovers && Handed(n.id, msgs) <= c'.handovers
    ensures Delivered(c', n')
  {
    forall k | 1 <= k <= n'.commitIndex
      ensures Handover(n'.id, ApplyMsg(k, n'.log[k].data)) in c'.handovers
    {
      if k <= n.commitIndex {
        assert n'.log[k] == n.log[..n.commitIndex + 1][k] == n.log[k];
      } else {
        assert Handover(n.id, ApplyMsg(k, n'.log[k].data)) in Handed(n.id, msgs);
      }
    }
  }

  lemma {:induction false} MessagesHave(log: seq<Entry>, from: nat, to: nat)
    requires from <= to < |log|
    ensures forall k :: from < k <= to ==> ApplyMsg(k, log[k].data) in Messages(log, from, to)
  {
    forall k | from < k <= to
      ensures ApplyMsg(k, log[k].data) in Messages(log, from, to)
    {
      assert Messages(log, from, to)[k - from - 1] == ApplyMsg(k, log[k].data);
    }
  }

  /** A follower commits up to the leader's commit index or its own last entry, and hands that over. */
  lemma {:induction false} FollowsCommit(n: NodeState, leaderCommit: nat)
    requires WellIndexed(n.log) && n.lastApplied == n.commitIndex < |n.log|
    ensures var (n', msgs) := FollowCommit(n, leaderCommit);
            && n' == n.(commitIndex := n'.commitIndex, lastApplied := n'.commitIndex) && Continues(n, n', msgs)
            && n'.commitIndex == Max(n.commitIndex, Min(leaderCommit, |n.log| - 1))
  {
    var (n', msgs) := FollowCommit(n, leaderCommit);
    if leaderCommit > n.commitIndex {
      DrainExactly(n.log, n.lastApplied, n'.commitIndex);
      MessagesHave(n.log, n.lastApplied, n'.commitIndex);
    }
  }

  lemma {:induction false} AppendInTermContinues(n: NodeState, q: AppendRequest)
    requires WellIndexed(n.log) && Numbered(q) && n.lastApplied == n.commitIndex < |n.log|
    requires n.log[..n.commitIndex + 1] <= AppendedLog(n.log, q)
    ensures var (n', success, msgs) := AppendInTerm(n, q);
            && Continues(n, n', msgs)
            && (success ==> n'.commitIndex == Max(n.commitIndex, Min(q.leaderCommit, |n'.log| - 1)))
  {
    if q.prevIndex < |n.log| && n.log[q.prevIndex].term == q.prevTerm {
      MergeNumbered(n.log, q.prevIndex + 1, q.entries);
      FollowsCommit(Persist(n.(log := Merge(n.log, q.prevIndex + 1, q.entries))), q.leaderCommit);
    }
  }

  lemma {:induction false} AppendContinues(n: NodeState, q: AppendRequest)
    requires WellIndexed(n.log) && Numbered(q) && n.lastApplied == n.commitIndex < |n.log|
    requires q.term >= n.currentTerm && n.log[..n.commitIndex + 1] <= AppendedLog(n.log, q)
    ensures var (n', a, msgs) := HandleAppend(n, q);
            && Continues(n, n', msgs)
            && (a.success ==> n'.commitIndex == Max(n.commitIndex, Min(q.leaderCommit, |n'.log| - 1)))
  {
    AppendInTermContinues(if q.term > n.currentTerm || n.role == Candidate then StepDown(n, q.term) else n, q);
  }

  // ---- one node changes ----

  lemma {:induction false} OneServes(c: Cluster, c': Cluster, i: Id)
    requires Prompt(c) && NodesOk(c) && c'.members == c.members && c'.nodes.Keys == c.nodes.Keys
    requires forall j :: j in c.nodes && j != i ==> c'.nodes[j] == c.nodes[j]
    requires c.handovers <= c'.handovers && i in c.nodes && Serves(c', c'.nodes[i])
    ensures Prompt(c')
  {
    forall j | j in c'.nodes
      ensures Serves(c', c'.nodes[j])
    {
      assert j != i ==> Serves(c, c.nodes[j]);
    }
  }

  lemma {:induction false} QuietServes(c: Cluster, c': Cluster, n': NodeState)
    requires Prompt(c) && NodesOk(c) && n'.id in c.nodes && CommitQuiet(c.nodes[n'.id], n')
    requires c'.members == c.members && c'.nodes == c.nodes[n'.id := n'] && c'.handovers == c.handovers
    ensures Prompt(c')
  {
    assert Serves(c, c.nodes[n'.id]);
    assert CaughtUp(n', Peers(c', n'.id), Quorum(c'.members)) by {
      if n'.role == Leader {
        SameCount(c.nodes[n'.id], n', Peers(c', n'.id), Quorum(c'.members));
      }
    }
    OneServes(c, c', n'.id);
  }

  lemma {:induction false} SameCount(n: NodeState, n': NodeState, peers: set<Id>, quorum: nat)
    requires CaughtUp(n, peers, quorum) && n.role == Leader
    requires n'.log == n.log && n'.commitIndex == n.commitIndex && n'.matchIndex == n.matchIndex
    requires n'.currentTerm == n.currentTerm
    ensures CaughtUp(n', peers, quorum)
  {
    forall k | n'.commitIndex < k && Known(n', peers, k)
      ensures !Countable(n', peers, quorum, k)
    {
      assert Known(n, peers, k);
      assert Countable(n', peers, quorum, k) ==> Countable(n, peers, quorum, k);
    }
  }

  /** A node that goes on and is caught up keeps the cluster prompt. */
  lemma {:induction false} NodeServes(c: Cluster, c': Cluster, n': NodeState, msgs: seq<ApplyMsg>)
    requires Prompt(c) && NodesOk(c) && n'.id in c.nodes && Continues(c.nodes[n'.id], n', msgs)
    requires CaughtUp(n', Peers(c, n'.id), Quorum(c.members))
    requires c'.members == c.members && c'.nodes == c.nodes[n'.id := n']
    requires c'.handovers == c.handovers + Handed(n'.id, msgs)
    ensures Prompt(c')
  {
    assert Serves(c, c.nodes[n'.id]);
    StillDelivered(c, c', c.nodes[n'.id], n', msgs);
    OneServes(c, c', n'.id);
  }

  lemma {:induction false} WinNodes(c: Cluster, i: Id)
    requires NodesOk(c) && CanWin(c, i)
    ensures var c' := AfterWin(c, i);
            && c'.nodes == c.nodes[i := TakeOffice(c.nodes[i], Peers(c, i))] && c'.members == c.members
            && c'.handovers == c.handovers + Handed(i, [])
  {
    assert Handed(i, []) == {};
  }

  lemma {:induction false} WinServes(c: Cluster, i: Id)
    requires Prompt(c) && NodesOk(c) && CanWin(c, i)
    ensures Prompt(AfterWin(c, i))
  {
    var n := c.nodes[i];
    assert Serves(c, n);
    WinNodes(c, i);
    NewLeaderCaughtUp(n, Peers(c, i), Quorum(c.members));
    NodeServes(c, AfterWin(c, i), TakeOffice(n, Peers(c, i)), []);
  }

  lemma {:induction false} NewLeaderCaughtUp(n: NodeState, peers: set<Id>, quorum: nat)
    ensures CaughtUp(TakeOffice(n, peers), peers, quorum)
  {
    var n' := TakeOffice(n, peers);
    forall k | n'.commitIndex < k
      ensures !Known(n', peers, k)
    {
      assert forall p :: p in peers ==> n'.matchIndex[p] == 0;
    }
  }

  /** No match index of a leader reaches beyond its log. */
  lemma {:induction false} MatchWithin(c: Cluster, n: NodeState)
    requires MatchOk(c, n) && NodeLogOk(c.reigns, c.members, n) && n.role == Leader
    ensures forall p :: p in Peers(c, n.id) && p in n.matchIndex ==> n.matchIndex[p] < |n.log|
  {}

  lemma {:induction false} ProposedCount(n: NodeState, n': NodeState, peers: set<Id>, quorum: nat)
    requires CaughtUp(n, peers, quorum) && n.role == Leader && n.log <= n'.log
    requires n'.commitIndex == n.commitIndex && n'.matchIndex == n.matchIndex && n'.currentTerm == n.currentTerm
    requires forall p :: p in peers && p in n.matchIndex ==> n.matchIndex[p] < |n.log|
    ensures CaughtUp(n', peers, quorum)
  {
    forall k | n'.commitIndex < k && Known(n', peers, k)
      ensures !Countable(n', peers, quorum, k)
    {
      assert Known(n, peers, k);
      assert k < |n.log| && n'.log[k] == n.log[k];
      assert Countable(n', peers, quorum, k) ==> Countable(n, peers, quorum, k);
    }
  }

  lemma {:induction false} ProposerGoesOn(n: NodeState, data: seq<byte>, peers: set<Id>, quorum: nat)
    requires CaughtUp(n, peers, quorum) && n.role == Leader && n.lastApplied == n.commitIndex < |n.log|
    requires forall p :: p in peers && p in n.matchIndex ==> n.matchIndex[p] < |n.log|
    ensures var n' := Propose(n, data); Continues(n, n', []) && CaughtUp(n', peers, quorum)
  {
    ProposedCount(n, Propose(n, data), peers, quorum);
  }

  lemma {:induction false} ProposalServes(c: Cluster, i: Id, data: seq<byte>)
    requires Prompt(c) && NodesOk(c) && LogsInv(c) && CommitInv(c) && Leads(c, i)
    ensures Prompt(AfterProposal(c, i, data))
  {
    var n := c.nodes[i];
    assert Serves(c, n) && MatchOk(c, n) && NodeLogOk(c.reigns, c.members, n);
    MatchWithin(c, n);
    ProposerGoesOn(n, data, Peers(c, i), Quorum(c.members));
    ProposalExtends(c, i, data);
    assert Handed(i, []) == {};
    NodeServes(c, AfterProposal(c, i, data), Propose(n, data), []);
  }

  lemma {:induction false} ReceiveServes(c: Cluster, a: Append)
    requires Prompt(c) && NodesOk(c) && LogsInv(c) && CommitInv(c) && Complete(c) && CanAppend(c, a)
    requires LeaderOk(c, c.nodes[a.to])
    ensures Prompt(AfterAppend(c, a))
  {
    var n, c' := c.nodes[a.to], AfterAppend(c, a);
    var (n', answer, msgs) := HandleAppend(n, a.request);
    ReceiveAppendFrame(c, a);
    assert Serves(c, n);
    if a.request.term >= n.currentTerm {
      ReceiverContinues(c, a);
      StillDelivered(c, c', n, n', msgs);
    }
    OneServes(c, c', a.to);
  }

  /** The receiver of a request keeps what it committed and hands over what it commits in addition. */
  lemma {:induction false} ReceiverContinues(c: Cluster, a: Append)
    requires NodesOk(c) && LogsInv(c) && CommitInv(c) && Complete(c) && CanAppend(c, a)
    requires LeaderOk(c, c.nodes[a.to]) && c.nodes[a.to].lastApplied == c.nodes[a.to].commitIndex
    requires a.request.term >= c.nodes[a.to].currentTerm
    ensures var n := c.nodes[a.to];
            var (n', answer, msgs) := HandleAppend(n, a.request);
            && Continues(n, n', msgs) && n'.role == Follower
            && (answer.success ==> n'.commitIndex == Max(n.commitIndex, Min(a.request.leaderCommit, |n'.log| - 1)))
  {
    var n := c.nodes[a.to];
    assert AppendOk(c.reigns, c.members, a) && ReignLogOk(c.reigns, a.request.term);
    assert NodeLogOk(c.reigns, c.members, n) && NodeCommitOk(c, n);
    ContinuesAt(c, a, n);
  }

  lemma {:induction false} ContinuesAt(c: Cluster, a: Append, n: NodeState)
    requires AppendOk(c.reigns, c.members, a) && ReignLogOk(c.reigns, a.request.term) && Complete(c)
    requires Founded(n.log, c.reigns) && NodeCommitOk(c, n) && LeaderOk(c, n) && n.id == a.to
    requires n.lastApplied == n.commitIndex && a.request.term >= n.currentTerm
    ensures var (n', answer, msgs) := HandleAppend(n, a.request);
            && Continues(n, n', msgs) && n'.role == Follower
            && (answer.success ==> n'.commitIndex == Max(n.commitIndex, Min(a.request.leaderCommit, |n'.log| - 1)))
  {
    NumberedBy(c.reigns, c.members, a);
    CommittedStays(c, a, n);
    AppendContinues(n, a.request);
    HandleAppendRole(n, a.request);
  }

  /** What a leader commits on an answer it hands over, and it is caught up then. */
  lemma {:induction false} AdvanceContinues(n: NodeState, peers: set<Id>, quorum: nat)
    requires WellIndexed(n.log) && n.lastApplied == n.commitIndex < |n.log| && n.id !in peers
    ensures var (n', msgs) := AdvanceCommit(n, peers, quorum);
            Continues(n, n', msgs) && CaughtUp(n', peers, quorum)
  {
    AdvanceExactly(n, peers, quorum);
    var (n', msgs) := AdvanceCommit(n, peers, quorum);
    MessagesHave(n.log, n.lastApplied, n'.commitIndex);
    forall k | n'.commitIndex < k
      ensures !Countable(n', peers, quorum, k)
    {
      assert Countable(n', peers, quorum, k) ==> Countable(n, peers, quorum, k);
    }
  }

  lemma {:induction false} LearnContinues(
    n: NodeState, peer: Id, q: AppendRequest, a: AppendAnswer, peers: set<Id>, quorum: nat)
    requires WellIndexed(n.log) && n.lastApplied == n.commitIndex < |n.log| && n.id !in peers
    requires CaughtUp(n, peers, quorum)
    ensures var (n', msgs) := HandleAppendAnswer(n, peer, q, a, peers, quorum);
            Continues(n, n', msgs) && CaughtUp(n', peers, quorum)
  {
    var n' := HandleAppendAnswer(n, peer, q, a, peers, quorum).0;
    LearnsExactly(n, peer, q, a, peers, quorum);
    if a.term <= n.currentTerm && n.role == Leader && n.currentTerm == q.term {
      if a.success && q.entries != [] {
        AdvanceContinues(Matched(n, peer, q.entries[|q.entries| - 1].index), peers, quorum);
      } else {
        SameCount(n, n', peers, quorum);
      }
    }
  }

  lemma {:induction false} LearnServes(c: Cluster, r: AppendReply)
    requires Prompt(c) && NodesOk(c) && LogsInv(c) && CanLearn(c, r)
    ensures Prompt(AfterAppendReply(c, r))
  {
    var i := r.append.request.leader;
    var n := c.nodes[i];
    assert Serves(c, n) && NodeLogOk(c.reigns, c.members, n);
    LearnContinues(n, r.append.to, r.append.request, r.answer, Peers(c, i), Quorum(c.members));
    AppendReplyFrame(c, r);
    var (n', msgs) := HandleAppendAnswer(
      n, r.append.to, r.append.request, r.answer, Peers(c, i), Quorum(c.members));
    NodeServes(c, AfterAppendReply(c, r), n', msgs);
  }

  lemma {:induction false} CrashServes(c: Cluster, i: Id, d: Durable)
    requires Prompt(c) && NodesOk(c) && i in c.nodes && d.log != []
    ensures Prompt(AfterReboot(c, i, d))
  {
    OneServes(c, AfterReboot(c, i, d), i);
  }

  lemma {:induction false} QuietStepServes(c: Cluster, step: Step)
    requires Prompt(c) && NodesOk(c) && Enabled(c, step)
    requires step.Timeout? || step.ReceiveVoteRequest? || step.ReceiveVoteReply?
    ensures Prompt(Exec(c, step))
  {
    match step
    case Timeout(i) => QuietServes(c, AfterTimeout(c, i), StartElection(c.nodes[i]));
    case ReceiveVoteRequest(i, q) =>
      VotingIsQuiet(c.nodes[i], q);
      QuietServes(c, AfterVoteRequest(c, i, q), HandleVoteRequest(c.nodes[i], q).0);
    case ReceiveVoteReply(r) =>
      var n := HandleVoteAnswer(c.nodes[r.request.candidate], r.request.term, r.voter, r.answer);
      QuietServes(c, AfterVoteReply(c, r), n);
  }

  lemma {:induction false} OtherStepServes(c: Cluster, step: Step)
    requires Prompt(c) && NodesOk(c) && LogsInv(c) && AllSynced(c) && Enabled(c, step)
    requires step.WinElection? || step.SendAppend? || step.CrashAndRestart? || step.CrashInHandler?
    ensures Prompt(Exec(c, step))
  {
    match step
    case WinElection(i) => WinServes(c, i);
    case SendAppend(i, to) =>
      assert Serves(c, c.nodes[i]);
      OneServes(c, AfterSend(c, i, to), i);
    case CrashAndRestart(i) =>
      assert Synced(c.nodes[i]) && NodeLogOk(c.reigns, c.members, c.nodes[i]);
      CrashServes(c, i, c.nodes[i].disk);
    case CrashInHandler(i, term) =>
      assert NodeLogOk(c.reigns, c.members, c.nodes[i]);
      CrashServes(c, i, StepDown(c.nodes[i], term).disk);
  }

  lemma {:induction false} StepServes(c: Cluster, step: Step)
    requires Prompt(c) && Inv(c) && Enabled(c, step)
    ensures Prompt(Exec(c, step))
  {
    if step.ClientProposal? || step.ReceiveAppend? || step.ReceiveAppendReply? {
      TenureHolds(c);
      CompleteHolds(c);
      ReplicationServes(c, step);
    } else if step.Timeout? || step.ReceiveVoteRequest? || step.ReceiveVoteReply? {
      QuietStepServes(c, step);
    } else {
      OtherStepServes(c, step);
    }
  }

  lemma {:induction false} ReplicationServes(c: Cluster, step: Step)
    requires Prompt(c) && NodesOk(c) && LogsInv(c) && CommitInv(c) && Complete(c) && Enabled(c, step)
    requires forall i :: i in c.nodes ==> LeaderOk(c, c.nodes[i])
    requires step.ClientProposal? || step.ReceiveAppend? || step.ReceiveAppendReply?
    ensures Prompt(Exec(c, step))
  {
    match step
    case ClientProposal(i, data) => ProposalServes(c, i, data);
    case ReceiveAppend(a) => ReceiveServes(c, a);
    case ReceiveAppendReply(r) => LearnServes(c, r);
  }

  // ---- runs ----

  lemma {:induction false} NextServes(members: set<Id>, run: seq<Cluster>, steps: seq<Step>, k: nat)
    requires NOBODY !in members && IsRun(members, run, steps) && k < |steps| && Prompt(run[k])
    ensures Prompt(run[k + 1])
  {
    RunInv(members, run, steps, k);
    StepServes(run[k], steps[k]);
  }

  lemma {:induction false} InitServes(members: set<Id>)
    ensures Prompt(Init(members))
  {
    var c := Init(members);
    forall i | i in c.nodes
      ensures Serves(c, c.nodes[i])
    {
      assert c.nodes[i] == Boot(i, BLANK);
    }
  }

  lemma {:induction false} RunServes(members: set<Id>, run: seq<Cluster>, steps: seq<Step>, a: nat)
    requires NOBODY !in members && IsRun(members, run, steps) && a < |run|
    ensures Prompt(run[a])
    decreases a
  {
    if a == 0 {
      InitServes(members);
    } else {
      RunServes(members, run, steps, a - 1);
      NextServes(members, run, steps, a - 1);
    }
  }

  /** In every run each node has handed over every entry it has committed. */
  lemma {:induction false} CommittedIsDelivered(
    members: set<Id>, run: seq<Cluster>, steps: seq<Step>, a: nat, i: Id, k: nat)
    requires NOBODY !in members && IsRun(members, run, steps) && a < |run| && i in run[a].nodes
    requires 1 <= k <= run[a].nodes[i].commitIndex
    ensures k < |run[a].nodes[i].log|
    ensures Handover(i, ApplyMsg(k, run[a].nodes[i].log[k].data)) in run[a].handovers
  {
    RunServes(members, run, steps, a);
    RunInv(members, run, steps, a);
    assert Serves(run[a], run[a].nodes[i]);
  }

  /**
   In every run a leader has committed each position of its term that a quorum is known to hold. (A node without
   peers never leads: the count of votes begins with the first granting peer.)
   */
  lemma {:induction false} HeldIsCommittedInRuns(
    members: set<Id>, run: seq<Cluster>, steps: seq<Step>, a: nat, i: Id, k: nat)
    requires NOBODY !in members && IsRun(members, run, steps) && a < |run| && Leads(run[a], i) && |members| >= 2
    requires k < |run[a].nodes[i].log| && run[a].nodes[i].log[k].term == run[a].nodes[i].currentTerm
    requires var n := run[a].nodes[i];
             |{i} + set p | p in members - {i} && p in n.matchIndex && n.matchIndex[p] >= k| >= Quorum(members)
    ensures k <= run[a].nodes[i].commitIndex
  {
    var n := run[a].nodes[i];
    RunServes(members, run, steps, a);
    MembersInRuns(members, run, steps, a);
    assert Serves(run[a], n);
    HeldByPeers(n, i, members, k);
  }

  lemma {:induction false} HeldByPeers(n: NodeState, i: Id, members: set<Id>, k: nat)
    requires CaughtUp(n, members - {i}, Quorum(members)) && n.role == Leader && |members| >= 2
    requires k < |n.log| && n.log[k].term == n.currentTerm
    requires |{i} + set p | p in members - {i} && p in n.matchIndex && n.matchIndex[p] >= k| >= Quorum(members)
    ensures k <= n.commitIndex
  {
    var matching := set p | p in members - {i} && p in n.matchIndex && n.matchIndex[p] >= k;
    assert |{i} + matching| == 1 + |matching|;
    assert matching != {};
    var p :| p in matching;
    assert Known(n, members - {i}, k);
  }

  /** The request has the leader's commit index, and the whole rest of its log behind the previous entry. */
  ghost predicate Carries(n: NodeState, peer: Id, q: AppendRequest) {
    && q.term == n.currentTerm && q.leader == n.id && q.leaderCommit == n.commitIndex
    && q.prevIndex < |n.log| && q.prevTerm == n.log[q.prevIndex].term
    && n.log == n.log[..q.prevIndex + 1] + q.entries
    && q.prevIndex + 1 == if peer in n.nextIndex && n.nextIndex[peer] > 0 then n.nextIndex[peer] else 1
  }

  lemma {:induction false} RequestOf(n: NodeState, peer: Id)
    requires n.log != [] && (peer in n.nextIndex ==> n.nextIndex[peer] <= |n.log|)
    ensures Carries(n, peer, BuildAppend(n, peer))
  {}

  lemma {:induction false} NextInRuns(members: set<Id>, run: seq<Cluster>, steps: seq<Step>, a: nat, i: Id, p: Id)
    requires NOBODY !in members && IsRun(members, run, steps) && a < |run| && CanSend(run[a], i, p)
    ensures var n := run[a].nodes[i]; n.id == i && n.log != [] && (p in n.nextIndex ==> n.nextIndex[p] <= |n.log|)
  {
    RunInv(members, run, steps, a);
    assert NodeLogOk(run[a].reigns, run[a].members, run[a].nodes[i]);
  }

  /** What a leader sends in a run: that request, and nothing else changes. */
  lemma {:induction false} RequestCarries(members: set<Id>, run: seq<Cluster>, steps: seq<Step>, a: nat)
    returns (q: AppendRequest)
    requires NOBODY !in members && IsRun(members, run, steps) && a < |steps| && steps[a].SendAppend?
    ensures Leads(run[a], steps[a].id) && Carries(run[a].nodes[steps[a].id], steps[a].to, q)
    ensures run[a + 1] == run[a].(appends := run[a].appends + {Append(steps[a].to, q)})
  {
    assert Enabled(run[a], steps[a]) && run[a + 1] == Exec(run[a], steps[a]);
    NextInRuns(members, run, steps, a, steps[a].id, steps[a].to);
    q := BuildAppend(run[a].nodes[steps[a].id], steps[a].to);
    RequestOf(run[a].nodes[steps[a].id], steps[a].to);
  }

  lemma {:induction false} MembersInRuns(members: set<Id>, run: seq<Cluster>, steps: seq<Step>, a: nat)
    requires NOBODY !in members && IsRun(members, run, steps) && a < |run|
    ensures run[a].members == members && NodesOk(run[a])
  {
    RunGrows(members, run, steps, 0, a);
    RunInv(members, run, steps, a);
  }
}
