/**
 The safety of the cluster over whole runs: lost, repeated and reordered messages,
 crashes and restarts included.
 */
module RaftSafety {
  import opened Bytes
  import opened RaftTypes
  import opened RaftHandlers
  import opened RaftCluster
  import opened RaftElection
  import opened RaftLogs
  import opened RaftRetention
  import opened RaftCommit
  import RaftState

  ghost predicate AllSynced(c: Cluster) {
    forall i :: i in c.nodes ==> Synced(c.nodes[i])
  }

  ghost predicate Inv(c: Cluster) {
    && ElectionInv(c)
    && LogsInv(c)
    && RetentionInv(c)
    && CommitInv(c)
    && AllSynced(c)
  }

  lemma InitInv(members: set<Id>)
    requires NOBODY !in members
    ensures Inv(Init(members))
  {
    var c := Init(members);
    InitElection(members);
    assert forall p, t: nat, m: nat :: !Acked(c, p, t, m);
    assert [SENTINEL][..1] == [SENTINEL];
  }

  // ---- every step keeps the invariant ----

  lemma VoteSynced(n: NodeState, q: VoteRequest)
    requires Synced(n)
    ensures Synced(HandleVoteRequest(n, q).0)
  {}

  lemma AppendSynced(n: NodeState, q: AppendRequest)
    requires Synced(n)
    ensures Synced(HandleAppend(n, q).0)
  {}

  lemma AppendAnswerSynced(n: NodeState, peer: Id, q: AppendRequest, a: AppendAnswer, peers: set<Id>, quorum: nat)
    requires Synced(n)
    ensures Synced(HandleAppendAnswer(n, peer, q, a, peers, quorum).0)
  {}

  /** At every lock release the state file holds the current term, vote and log. */
  lemma SyncedStep(c: Cluster, step: Step)
    requires NodesOk(c) && AllSynced(c) && Enabled(c, step)
    ensures AllSynced(Exec(c, step))
  {
    match step
    case ReceiveVoteRequest(i, q) => VoteSynced(c.nodes[i], q);
    case ReceiveAppend(a) => AppendSynced(c.nodes[a.to], a.request);
    case ReceiveAppendReply(r) =>
      var i := r.append.request.leader;
      AppendAnswerSynced(c.nodes[i], r.append.to, r.append.request, r.answer, Peers(c, i), Quorum(c.members));
    case _ => OtherSyncedStep(c, step);
  }

  lemma OtherSyncedStep(c: Cluster, step: Step)
    requires NodesOk(c) && AllSynced(c) && Enabled(c, step)
    requires !step.ReceiveVoteRequest? && !step.ReceiveAppend? && !step.ReceiveAppendReply?
    ensures AllSynced(Exec(c, step))
  {}

  lemma Sent(c: Cluster)
    requires LogsInv(c)
    ensures SentByReign(c)
  {
    forall a | a in c.appends
      ensures a.request.term in c.reigns
    {
      assert AppendOk(c.reigns, c.members, a);
    }
  }

  lemma LogsStep(c: Cluster, step: Step)
    requires ElectionInv(c) && LogsInv(c) && AllSynced(c) && Enabled(c, step)
    requires forall i :: i in c.nodes ==> c.nodes[i].commitIndex < |c.nodes[i].log|
    ensures LogsInv(Exec(c, step))
  {
    if step.WinElection? || step.ClientProposal? || step.SendAppend? || step.ReceiveAppend? {
      EntriesStep(c, step);
    } else {
      IdleLogsStep(c, step);
    }
  }

  /** The steps that extend a log, or send or store entries. */
  lemma EntriesStep(c: Cluster, step: Step)
    requires ElectionInv(c) && LogsInv(c) && Enabled(c, step)
    requires forall i :: i in c.nodes ==> c.nodes[i].commitIndex < |c.nodes[i].log|
    requires step.WinElection? || step.ClientProposal? || step.SendAppend? || step.ReceiveAppend?
    ensures LogsInv(Exec(c, step))
  {
    match step
    case WinElection(i) => WinLogsStep(c, i);
    case ClientProposal(i, data) => ProposalLogs(c, i, data);
    case SendAppend(i, to) => SendLogs(c, i, to);
    case ReceiveAppend(a) => ReceiveAppendLogs(c, a);
  }

  lemma WinLogsStep(c: Cluster, i: Id)
    requires ElectionInv(c) && LogsInv(c) && CanWin(c, i)
    ensures LogsInv(AfterWin(c, i))
  {
    NewReign(c, i);
    assert CandidateOk(c, c.nodes[i]);
    WinEffect(c, i);
    WinLogs(c, AfterWin(c, i), i);
  }

  /** The steps that neither extend a log nor send or store entries. */
  lemma IdleLogsStep(c: Cluster, step: Step)
    requires NodesOk(c) && LogsInv(c) && AllSynced(c) && Enabled(c, step)
    requires !step.WinElection? && !step.ClientProposal? && !step.SendAppend? && !step.ReceiveAppend?
    ensures LogsInv(Exec(c, step))
  {
    match step
    case Timeout(i) => TimeoutLogs(c, i);
    case ReceiveVoteRequest(i, q) => VoteRequestLogs(c, i, q);
    case ReceiveVoteReply(r) => VoteReplyLogs(c, r);
    case ReceiveAppendReply(r) => AppendReplyLogs(c, r);
    case CrashAndRestart(i) => CrashLogs(c, i, c.nodes[i].disk);
    case CrashInHandler(i, term) => CrashLogs(c, i, StepDown(c.nodes[i], term).disk);
  }

  lemma RetentionStep(c: Cluster, step: Step)
    requires ElectionInv(c) && LogsInv(c) && RetentionInv(c) && AllSynced(c) && Enabled(c, step)
    ensures RetentionInv(Exec(c, step))
  {
    if step.ReceiveVoteRequest? || step.WinElection? || step.ClientProposal? || step.ReceiveAppend? {
      BindingRetentionStep(c, step);
    } else {
      IdleRetentionStep(c, step);
    }
  }

  /** The steps that cast or count votes, or acknowledge entries. */
  lemma BindingRetentionStep(c: Cluster, step: Step)
    requires ElectionInv(c) && LogsInv(c) && RetentionInv(c) && Enabled(c, step)
    requires step.ReceiveVoteRequest? || step.WinElection? || step.ClientProposal? || step.ReceiveAppend?
    ensures RetentionInv(Exec(c, step))
  {
    match step
    case ReceiveVoteRequest(i, q) => VoteRequestRetention(c, i, q);
    case WinElection(i) => WinRetentionStep(c, i);
    case ClientProposal(i, data) => ProposalRetention(c, i, data);
    case ReceiveAppend(a) => ReceiveAppendRetention(c, a);
  }

  lemma WinRetentionStep(c: Cluster, i: Id)
    requires ElectionInv(c) && LogsInv(c) && RetentionInv(c) && CanWin(c, i)
    ensures RetentionInv(AfterWin(c, i))
  {
    NewReign(c, i);
    WinRetention(c, i);
  }

  /** The steps that cast no vote and acknowledge nothing. */
  lemma IdleRetentionStep(c: Cluster, step: Step)
    requires NodesOk(c) && LogsInv(c) && RetentionInv(c) && AllSynced(c) && Enabled(c, step)
    requires !step.ReceiveVoteRequest? && !step.WinElection? && !step.ClientProposal? && !step.ReceiveAppend?
    ensures RetentionInv(Exec(c, step))
  {
    match step
    case Timeout(i) => TimeoutRetention(c, i);
    case ReceiveVoteReply(r) => VoteReplyRetention(c, r);
    case SendAppend(i, to) => SendRetention(c, i, to);
    case ReceiveAppendReply(r) => AppendReplyRetention(c, r);
    case CrashAndRestart(i) => CrashRetention(c, i, c.nodes[i].disk);
    case CrashInHandler(i, term) => CrashRetention(c, i, StepDown(c.nodes[i], term).disk);
  }

  lemma CommitStep(c: Cluster, step: Step)
    requires ElectionInv(c) && LogsInv(c) && Complete(c) && CommitInv(c) && AllSynced(c) && Enabled(c, step)
    ensures CommitInv(Exec(c, step))
  {
    if step.WinElection? || step.ClientProposal? || step.ReceiveAppend? || step.ReceiveAppendReply? {
      LeadingCommitStep(c, step);
    } else {
      IdleCommitStep(c, step);
    }
  }

  /** The steps by which a leader is elected, and those between it and its followers. */
  lemma LeadingCommitStep(c: Cluster, step: Step)
    requires ElectionInv(c) && LogsInv(c) && Complete(c) && CommitInv(c) && Enabled(c, step)
    requires step.WinElection? || step.ClientProposal? || step.ReceiveAppend? || step.ReceiveAppendReply?
    ensures CommitInv(Exec(c, step))
  {
    match step
    case WinElection(i) =>
      NewReign(c, i);
      WinCommit(c, i);
    case ClientProposal(i, data) => ProposalCommit(c, i, data);
    case ReceiveAppend(a) => ReceiveAppendCommit(c, a);
    case ReceiveAppendReply(r) => AppendReplyCommit(c, r);
  }

  /** The steps that commit nothing and elect nobody. */
  lemma IdleCommitStep(c: Cluster, step: Step)
    requires NodesOk(c) && LogsInv(c) && CommitInv(c) && AllSynced(c) && Enabled(c, step)
    requires !step.WinElection? && !step.ClientProposal? && !step.ReceiveAppend? && !step.ReceiveAppendReply?
    ensures CommitInv(Exec(c, step))
  {
    match step
    case Timeout(i) => TimeoutCommit(c, i);
    case ReceiveVoteRequest(i, q) => VoteRequestCommit(c, i, q);
    case ReceiveVoteReply(r) => VoteReplyCommit(c, r);
    case SendAppend(i, to) => SendCommit(c, i, to);
    case CrashAndRestart(i) => CrashCommit(c, i, c.nodes[i].disk);
    case CrashInHandler(i, term) => CrashCommit(c, i, StepDown(c.nodes[i], term).disk);
  }

  lemma CommitBounds(c: Cluster)
    requires CommitInv(c)
    ensures forall i :: i in c.nodes ==> c.nodes[i].commitIndex < |c.nodes[i].log|
  {
    forall i | i in c.nodes
      ensures c.nodes[i].commitIndex < |c.nodes[i].log|
    {
      assert NodeCommitOk(c, c.nodes[i]);
    }
  }

  lemma StepInv(c: Cluster, step: Step)
    requires Inv(c) && Enabled(c, step)
    ensures Inv(Exec(c, step))
  {
    Sent(c);
    ElectionStep(c, step);
    CommitBounds(c);
    LogsStep(c, step);
    RetentionStep(c, step);
    TenureHolds(c);
    CompleteHolds(c);
    CommitStep(c, step);
    SyncedStep(c, step);
  }

  /** Every state of every run satisfies the invariant. */
  lemma {:induction false} RunInv(members: set<Id>, run: seq<Cluster>, steps: seq<Step>, k: nat)
    requires NOBODY !in members && IsRun(members, run, steps) && k < |run|
    ensures Inv(run[k])
    decreases k
  {
    if k == 0 {
      InitInv(members);
    } else {
      RunInv(members, run, steps, k - 1);
      StepInv(run[k - 1], steps[k - 1]);
    }
  }

  // ---- histories only grow ----

  lemma StepExtends(c: Cluster, step: Step)
    requires NodesOk(c) && LogsInv(c) && Enabled(c, step)
    requires step.WinElection? ==> c.nodes[step.id].currentTerm !in c.reigns
    ensures Later(c, Exec(c, step))
  {
    match step
    case ClientProposal(i, data) => ProposalLater(c, i, data);
    case WinElection(i) => WinLater(c, i);
    case ReceiveAppend(a) => ReceiveAppendLater(c, a);
    case ReceiveAppendReply(r) => AppendReplyLater(c, r);
    case Timeout(i) => TimeoutLater(c, i);
    case ReceiveVoteRequest(i, q) => VoteRequestLater(c, i, q);
    case ReceiveVoteReply(r) => VoteReplyLater(c, r);
    case SendAppend(i, to) => SendLater(c, i, to);
    case CrashAndRestart(i) => CrashLater(c, i, c.nodes[i].disk);
    case CrashInHandler(i, term) => CrashLater(c, i, StepDown(c.nodes[i], term).disk);
  }

  lemma ProposalLater(c: Cluster, i: Id, data: seq<byte>)
    requires NodesOk(c) && LogsInv(c) && Leads(c, i)
    ensures Later(c, AfterProposal(c, i, data))
  {
    ProposalExtends(c, i, data);
  }

  lemma WinLater(c: Cluster, i: Id)
    requires NodesOk(c) && CanWin(c, i) && c.nodes[i].currentTerm !in c.reigns
    ensures Later(c, AfterWin(c, i))
  {
    WinFrame(c, i);
  }

  lemma ReceiveAppendLater(c: Cluster, a: Append)
    requires NodesOk(c) && CanAppend(c, a)
    ensures Later(c, AfterAppend(c, a))
  {
    ReceiveAppendFrame(c, a);
  }

  lemma AppendReplyLater(c: Cluster, r: AppendReply)
    requires NodesOk(c) && CanLearn(c, r)
    ensures Later(c, AfterAppendReply(c, r))
  {
    AppendReplyFrame(c, r);
  }

  lemma SendLater(c: Cluster, i: Id, to: Id)
    requires CanSend(c, i, to)
    ensures Later(c, AfterSend(c, i, to))
  {}

  lemma TimeoutLater(c: Cluster, i: Id)
    requires NodesOk(c) && CanTimeout(c, i)
    ensures Later(c, AfterTimeout(c, i))
  {}

  lemma VoteRequestLater(c: Cluster, i: Id, q: VoteRequest)
    requires NodesOk(c) && CanVote(c, i, q)
    ensures Later(c, AfterVoteRequest(c, i, q))
  {}

  lemma VoteReplyLater(c: Cluster, r: VoteReply)
    requires NodesOk(c) && CanCount(c, r)
    ensures Later(c, AfterVoteReply(c, r))
  {}

  lemma CrashLater(c: Cluster, i: Id, d: Durable)
    requires NodesOk(c) && i in c.nodes
    ensures Later(c, AfterReboot(c, i, d))
  {}

  lemma StepHistory(c: Cluster, step: Step)
    requires Inv(c) && Enabled(c, step)
    ensures Later(c, Exec(c, step))
  {
    if step.WinElection? {
      NewReign(c, step.id);
    }
    StepExtends(c, step);
  }

  ghost predicate Later(c: Cluster, c': Cluster) {
    Extends(c, c') && c.handovers <= c'.handovers && c'.nodes.Keys == c.nodes.Keys
  }

  lemma RunHistory(members: set<Id>, run: seq<Cluster>, steps: seq<Step>, k: nat)
    requires NOBODY !in members && IsRun(members, run, steps) && k < |steps|
    ensures Later(run[k], run[k + 1])
  {
    RunInv(members, run, steps, k);
    StepHistory(run[k], steps[k]);
  }

  lemma {:induction false} LaterAlong(run: seq<Cluster>, a: nat, b: nat)
    requires forall k :: 0 <= k < |run| - 1 ==> Later(run[k], run[k + 1])
    requires a <= b < |run|
    ensures Later(run[a], run[b])
    decreases b
  {
    if a < b {
      LaterAlong(run, a, b - 1);
      assert Later(run[b - 1], run[b - 1 + 1]);
    }
  }

  /** From one state of a run to a later one, elections, acknowledgements and handovers are only added. */
  lemma RunGrows(members: set<Id>, run: seq<Cluster>, steps: seq<Step>, a: nat, b: nat)
    requires NOBODY !in members && IsRun(members, run, steps) && a <= b < |run|
    ensures Later(run[a], run[b])
  {
    forall k | 0 <= k < |run| - 1
      ensures Later(run[k], run[k + 1])
    {
      RunHistory(members, run, steps, k);
    }
    LaterAlong(run, a, b);
  }

  // ---- the theorems ----

  /** Election safety: over a whole run, at most one node is ever leader of a term. */
  lemma ElectionSafety(members: set<Id>, run: seq<Cluster>, steps: seq<Step>, a: nat, b: nat, i: Id, j: Id)
    requires NOBODY !in members && IsRun(members, run, steps) && a <= b < |run|
    requires i in run[a].nodes && j in run[b].nodes
    requires run[a].nodes[i].role == Leader && run[b].nodes[j].role == Leader
    requires run[a].nodes[i].currentTerm == run[b].nodes[j].currentTerm
    ensures i == j
  {
    RunInv(members, run, steps, a);
    RunInv(members, run, steps, b);
    RunGrows(members, run, steps, a, b);
    assert LeaderOk(run[a], run[a].nodes[i]) && LeaderOk(run[b], run[b].nodes[j]);
  }

  /** Log matching: two logs that ever hold the same term at a position agree up to it. */
  lemma LogMatchingInRuns(members: set<Id>, run: seq<Cluster>, steps: seq<Step>, a: nat, b: nat, i: Id, j: Id, k: nat)
    requires NOBODY !in members && IsRun(members, run, steps) && a <= b < |run|
    requires i in run[a].nodes && j in run[b].nodes
    requires k < |run[a].nodes[i].log| && k < |run[b].nodes[j].log|
    requires run[a].nodes[i].log[k].term == run[b].nodes[j].log[k].term
    ensures run[a].nodes[i].log[..k + 1] == run[b].nodes[j].log[..k + 1]
  {
    RunInv(members, run, steps, a);
    RunInv(members, run, steps, b);
    RunGrows(members, run, steps, a, b);
    assert NodeLogOk(run[a].reigns, run[a].members, run[a].nodes[i]);
    assert NodeLogOk(run[b].reigns, run[b].members, run[b].nodes[j]);
    FoundedGrows(run[a].nodes[i].log, run[a].reigns, run[b].reigns);
    LogMatching(run[a].nodes[i].log, run[b].nodes[j].log, k, run[b].reigns);
  }

  /** Every log starts with the sentinel, its indices are its positions, and its terms never decrease. */
  lemma LogShape(members: set<Id>, run: seq<Cluster>, steps: seq<Step>, a: nat, i: Id)
    requires NOBODY !in members && IsRun(members, run, steps) && a < |run| && i in run[a].nodes
    ensures WellIndexed(run[a].nodes[i].log)
    ensures forall j, k :: 0 <= j <= k < |run[a].nodes[i].log| ==>
      run[a].nodes[i].log[j].term <= run[a].nodes[i].log[k].term
    ensures run[a].nodes[i].lastApplied <= run[a].nodes[i].commitIndex < |run[a].nodes[i].log|
  {
    RunInv(members, run, steps, a);
    var c := run[a];
    assert NodeLogOk(c.reigns, c.members, c.nodes[i]) && NodeCommitOk(c, c.nodes[i]);
    forall j, k | 0 <= j <= k < |c.nodes[i].log|
      ensures c.nodes[i].log[j].term <= c.nodes[i].log[k].term
    {
      TermsAscend(c.nodes[i].log, j, k, c.reigns);
    }
  }

  /** Leader completeness: what is committed in term `t` is in the log of every later leader, from then on. */
  lemma LeaderCompletenessInRuns(
    members: set<Id>, run: seq<Cluster>, steps: seq<Step>, a: nat, b: nat, t: nat, k: nat, i: Id)
    requires NOBODY !in members && IsRun(members, run, steps) && a <= b < |run|
    requires Committed(run[a], t, k) && i in run[b].nodes
    requires run[b].nodes[i].role == Leader && run[b].nodes[i].currentTerm > t
    ensures Upto(run[a], t, k) <= run[b].nodes[i].log
  {
    RunGrows(members, run, steps, a, b);
    CommittedGrows(run[a], run[b], t, k);
    LeaderHasCommitted(members, run, steps, b, t, k, i);
  }

  /** And for what any node ever committed: it is in the log of every leader since whose term is not smaller. */
  lemma LeadersHaveCommitted(members: set<Id>, run: seq<Cluster>, steps: seq<Step>, a: nat, b: nat, i: Id, l: Id)
    requires NOBODY !in members && IsRun(members, run, steps) && a <= b < |run|
    requires i in run[a].nodes && l in run[b].nodes && run[b].nodes[l].role == Leader
    requires run[b].nodes[l].currentTerm >= run[a].nodes[i].currentTerm
    ensures var n := run[a].nodes[i];
            n.commitIndex < |n.log| && n.log[..n.commitIndex + 1] <= run[b].nodes[l].log
  {
    var n := run[a].nodes[i];
    CommitInRuns(members, run, steps, a, i);
    RunGrows(members, run, steps, a, b);
    CompleteInRuns(members, run, steps, b);
    LeaderLogInRuns(members, run, steps, b, l);
    SafeGrows(run[a], run[b], n.log[..n.commitIndex + 1], n.currentTerm, n.currentTerm);
    SafeInLeader(run[b], n.log[..n.commitIndex + 1], n.currentTerm, run[b].nodes[l].currentTerm);
  }

  lemma LeaderLogInRuns(members: set<Id>, run: seq<Cluster>, steps: seq<Step>, b: nat, l: Id)
    requires NOBODY !in members && IsRun(members, run, steps) && b < |run|
    requires l in run[b].nodes && run[b].nodes[l].role == Leader
    ensures var n := run[b].nodes[l];
            && n.currentTerm in run[b].reigns && n.log == run[b].reigns[n.currentTerm].log
            && ReignLogOk(run[b].reigns, n.currentTerm)
  {
    RunInv(members, run, steps, b);
    assert NodeLogOk(run[b].reigns, run[b].members, run[b].nodes[l]);
  }

  lemma LeaderHasCommitted(members: set<Id>, run: seq<Cluster>, steps: seq<Step>, b: nat, t: nat, k: nat, i: Id)
    requires NOBODY !in members && IsRun(members, run, steps) && b < |run|
    requires Committed(run[b], t, k) && i in run[b].nodes
    requires run[b].nodes[i].role == Leader && run[b].nodes[i].currentTerm > t
    ensures Upto(run[b], t, k) <= run[b].nodes[i].log
  {
    var c := run[b];
    RunInv(members, run, steps, b);
    TenureHolds(c);
    assert NodeLogOk(c.reigns, c.members, c.nodes[i]);
    LeaderCompleteness(c, t, k, c.nodes[i].currentTerm);
    assert ReignLogOk(c.reigns, c.nodes[i].currentTerm);
  }

  /** State machine safety: no two handovers of one index, on any nodes at any times, differ. */
  lemma StateMachineSafety(
    members: set<Id>, run: seq<Cluster>, steps: seq<Step>, a: nat, b: nat, h: Handover, g: Handover)
    requires NOBODY !in members && IsRun(members, run, steps) && a <= b < |run|
    requires h in run[a].handovers && g in run[b].handovers && h.msg.index == g.msg.index
    ensures h.msg == g.msg
  {
    RunGrows(members, run, steps, a, b);
    RunInv(members, run, steps, b);
    HandoversAgree(run[b], h, g);
  }

  lemma {:induction false} HandoversAgree(c: Cluster, h: Handover, g: Handover)
    requires Inv(c) && h in c.handovers && g in c.handovers && h.msg.index == g.msg.index
    ensures h.msg == g.msg
  {
    TenureHolds(c);
    CompleteHolds(c);
    assert HandoverOk(c, h) && HandoverOk(c, g);
    BackedAlike(c, h.msg, g.msg);
  }

  /** A match index is sound: a peer still in the leader's term holds the leader's log up to it. */
  lemma MatchIndexSound(members: set<Id>, run: seq<Cluster>, steps: seq<Step>, a: nat, i: Id, p: Id)
    requires NOBODY !in members && IsRun(members, run, steps) && a < |run|
    requires i in run[a].nodes && run[a].nodes[i].role == Leader
    requires p in Peers(run[a], i) && p in run[a].nodes[i].matchIndex && p in run[a].nodes
    requires run[a].nodes[p].currentTerm == run[a].nodes[i].currentTerm
    ensures HoldsMatched(run[a].nodes[i], run[a].nodes[p], run[a].nodes[i].matchIndex[p])
  {
    RunInv(members, run, steps, a);
    MatchSound(run[a], i, p);
  }

  /** `p` has the log of `n` up to position `m`. */
  ghost predicate HoldsMatched(n: NodeState, p: NodeState, m: nat) {
    m < |n.log| && n.log[..m + 1] <= p.log
  }

  lemma MatchSound(c: Cluster, i: Id, p: Id)
    requires NodesOk(c) && LogsInv(c) && RetentionInv(c) && CommitInv(c) && i in c.nodes && c.nodes[i].role == Leader
    requires p in Peers(c, i) && p in c.nodes[i].matchIndex && p in c.nodes
    requires c.nodes[p].currentTerm == c.nodes[i].currentTerm
    ensures HoldsMatched(c.nodes[i], c.nodes[p], c.nodes[i].matchIndex[p])
  {
    var n, m := c.nodes[i], c.nodes[p];
    assert MatchOk(c, n) && NodeKeeps(c, m);
    assert NodeLogOk(c.reigns, c.members, n) && NodeLogOk(c.reigns, c.members, m);
    MatchedHolds(c, n, m, n.matchIndex[p]);
  }

  /** What the peer acknowledged in the leader's term it still has in that term. */
  lemma MatchedHolds(c: Cluster, n: NodeState, p: NodeState, m: nat)
    requires n.currentTerm in c.reigns && n.log == c.reigns[n.currentTerm].log && p.currentTerm == n.currentTerm
    requires m == 0 || Acked(c, p.id, n.currentTerm, m)
    requires WellIndexed(n.log) && WellIndexed(p.log) && NodeKeeps(c, p)
    ensures HoldsMatched(n, p, m)
  {
    if m != 0 {
      assert !Lost(c.reigns, Upto(c, n.currentTerm, m), n.currentTerm, n.currentTerm + 1);
    }
  }

  // ---- committed entries stay ----

  /** Whatever a node holds that is committed survives the step. */
  lemma {:induction false} StepKeeps(c: Cluster, step: Step, i: Id, x: seq<Entry>)
    requires Inv(c) && Enabled(c, step) && i in c.nodes
    requires x <= c.nodes[i].log && Safe(c, x, c.nodes[i].currentTerm)
    ensures i in Exec(c, step).nodes && x <= Exec(c, step).nodes[i].log
    ensures Safe(Exec(c, step), x, Exec(c, step).nodes[i].currentTerm)
  {
    StepHistory(c, step);
    TenureHolds(c);
    CompleteHolds(c);
    LogKept(c, step, i, x);
    SafeGrows(c, Exec(c, step), x, c.nodes[i].currentTerm, Exec(c, step).nodes[i].currentTerm);
  }

  lemma AppendLogKept(c: Cluster, a: Append, x: seq<Entry>)
    requires NodesOk(c) && LogsInv(c) && Complete(c) && CanAppend(c, a)
    requires x <= c.nodes[a.to].log && Safe(c, x, c.nodes[a.to].currentTerm)
    ensures var n := HandleAppend(c.nodes[a.to], a.request).0;
            x <= n.log && n.currentTerm >= c.nodes[a.to].currentTerm
  {
    var n := c.nodes[a.to];
    if a.request.term >= n.currentTerm {
      assert AppendOk(c.reigns, c.members, a) && NodeLogOk(c.reigns, c.members, n);
      SafeInLeader(c, x, n.currentTerm, a.request.term);
      SharedSurvives(c.reigns, c.members, a, n.log, x);
      HandleAppendLog(n, a.request);
    }
  }

  lemma LearningLogKept(c: Cluster, r: AppendReply, i: Id)
    requires NodesOk(c) && LogsInv(c) && CanLearn(c, r) && i in c.nodes
    ensures i in AfterAppendReply(c, r).nodes && AfterAppendReply(c, r).nodes[i].log == c.nodes[i].log
    ensures AfterAppendReply(c, r).nodes[i].currentTerm >= c.nodes[i].currentTerm
  {
    AppendReplyFrame(c, r);
    var n := c.nodes[r.append.request.leader];
    assert AppendOk(c.reigns, c.members, r.append) && NodeLogOk(c.reigns, c.members, n);
    AppendAnswerQuiet(c, r, n);
  }

  /** All other steps leave a log alone or extend it. */
  lemma OtherLogKept(c: Cluster, step: Step, i: Id)
    requires NodesOk(c) && AllSynced(c) && Enabled(c, step) && i in c.nodes
    requires !step.ReceiveAppend? && !step.ReceiveAppendReply?
    ensures i in Exec(c, step).nodes && c.nodes[i].log <= Exec(c, step).nodes[i].log
    ensures Exec(c, step).nodes[i].currentTerm >= c.nodes[i].currentTerm
  {
    if step.ReceiveVoteRequest? {
      VotingIsQuiet(c.nodes[step.id], step.request);
    }
  }

  lemma LogKept(c: Cluster, step: Step, i: Id, x: seq<Entry>)
    requires NodesOk(c) && LogsInv(c) && Complete(c) && AllSynced(c) && Enabled(c, step) && i in c.nodes
    requires x <= c.nodes[i].log && Safe(c, x, c.nodes[i].currentTerm)
    ensures i in Exec(c, step).nodes && x <= Exec(c, step).nodes[i].log
    ensures Exec(c, step).nodes[i].currentTerm >= c.nodes[i].currentTerm
  {
    if step.ReceiveAppend? {
      ReceiveAppendFrame(c, step.append);
      if step.append.to == i {
        AppendLogKept(c, step.append, x);
      }
    } else if step.ReceiveAppendReply? {
      LearningLogKept(c, step.appendReply, i);
    } else {
      OtherLogKept(c, step, i);
    }
  }

  lemma RunKeeps(members: set<Id>, run: seq<Cluster>, steps: seq<Step>, k: nat, i: Id, x: seq<Entry>)
    requires NOBODY !in members && IsRun(members, run, steps) && k < |steps| && i in run[k].nodes
    requires x <= run[k].nodes[i].log && Safe(run[k], x, run[k].nodes[i].currentTerm)
    ensures i in run[k + 1].nodes && x <= run[k + 1].nodes[i].log
    ensures Safe(run[k + 1], x, run[k + 1].nodes[i].currentTerm)
  {
    RunInv(members, run, steps, k);
    StepKeeps(run[k], steps[k], i, x);
  }

  lemma CommitInRuns(members: set<Id>, run: seq<Cluster>, steps: seq<Step>, k: nat, i: Id)
    requires NOBODY !in members && IsRun(members, run, steps) && k < |run| && i in run[k].nodes
    ensures NodeCommitOk(run[k], run[k].nodes[i])
  {
    RunInv(members, run, steps, k);
  }

  /** `i` holds `x`, which is committed. */
  ghost predicate HoldsCommitted(c: Cluster, i: Id, x: seq<Entry>) {
    i in c.nodes && x <= c.nodes[i].log && Safe(c, x, c.nodes[i].currentTerm)
  }

  lemma {:induction false} HeldAlong(run: seq<Cluster>, i: Id, x: seq<Entry>, a: nat, b: nat)
    requires a <= b < |run| && HoldsCommitted(run[a], i, x)
    requires forall k :: 0 <= k < |run| - 1 && HoldsCommitted(run[k], i, x) ==> HoldsCommitted(run[k + 1], i, x)
    ensures HoldsCommitted(run[b], i, x)
    decreases b
  {
    if a < b {
      HeldAlong(run, i, x, a, b - 1);
      assert HoldsCommitted(run[b - 1 + 1], i, x);
    }
  }

  /** No later truncation, crash or restart removes what a node once had committed. */
  lemma CommittedForever(members: set<Id>, run: seq<Cluster>, steps: seq<Step>, a: nat, b: nat, i: Id)
    requires NOBODY !in members && IsRun(members, run, steps) && a <= b < |run| && i in run[a].nodes
    ensures var n := run[a].nodes[i];
            n.commitIndex < |n.log| && HoldsCommitted(run[b], i, n.log[..n.commitIndex + 1])
  {
    CommitInRuns(members, run, steps, a, i);
    var n := run[a].nodes[i];
    var x := n.log[..n.commitIndex + 1];
    forall k | 0 <= k < |run| - 1 && HoldsCommitted(run[k], i, x)
      ensures HoldsCommitted(run[k + 1], i, x)
    {
      RunKeeps(members, run, steps, k, i, x);
    }
    HeldAlong(run, i, x, a, b);
  }

  lemma SafeAgree(c: Cluster, x: seq<Entry>, s: nat, y: seq<Entry>, t: nat)
    requires Complete(c) && Safe(c, x, s) && Safe(c, y, t)
    requires x != [] && y != [] && x[0] == SENTINEL && y[0] == SENTINEL
    ensures x <= y || y <= x
  {
    if !(x <= [SENTINEL]) && !(y <= [SENTINEL]) {
      var u: nat, k: nat :| SafeBy(c, x, s, u, k);
      var v: nat, l: nat :| SafeBy(c, y, t, v, l);
      CommittedAgree(c, u, k, v, l);
    }
  }

  /** Replicas agree: of what any two nodes ever had committed, one is a prefix of the other. */
  lemma ReplicasAgree(members: set<Id>, run: seq<Cluster>, steps: seq<Step>, a: nat, b: nat, i: Id, j: Id)
    requires NOBODY !in members && IsRun(members, run, steps) && a <= b < |run|
    requires i in run[a].nodes && j in run[b].nodes
    ensures var n := run[a].nodes[i];
            var m := run[b].nodes[j];
            && n.commitIndex < |n.log| && m.commitIndex < |m.log|
            && (n.log[..n.commitIndex + 1] <= m.log[..m.commitIndex + 1]
                || m.log[..m.commitIndex + 1] <= n.log[..n.commitIndex + 1])
  {
    CommittedForever(members, run, steps, a, b, i);
    CommittedForever(members, run, steps, b, b, j);
    LogShape(members, run, steps, a, i);
    LogShape(members, run, steps, b, j);
    CompleteInRuns(members, run, steps, b);
    var n := run[a].nodes[i];
    var m := run[b].nodes[j];
    SafeAgree(run[b], n.log[..n.commitIndex + 1], run[b].nodes[i].currentTerm,
              m.log[..m.commitIndex + 1], m.currentTerm);
  }

  lemma CompleteInRuns(members: set<Id>, run: seq<Cluster>, steps: seq<Step>, b: nat)
    requires NOBODY !in members && IsRun(members, run, steps) && b < |run|
    ensures Complete(run[b])
  {
    RunInv(members, run, steps, b);
    TenureHolds(run[b]);
    CompleteHolds(run[b]);
  }

  /** Every request in flight reaches at least as far as the commit index it carries. */
  lemma RequestsReachCommit(members: set<Id>, run: seq<Cluster>, steps: seq<Step>, a: nat, q: Append)
    requires NOBODY !in members && IsRun(members, run, steps) && a < |run| && q in run[a].appends
    ensures q.request.leaderCommit <= q.request.prevIndex + |q.request.entries|
  {
    RunInv(members, run, steps, a);
    assert AppendOk(run[a].reigns, run[a].members, q);
  }

  /**
   Handling the request never lowers the commit index, never cuts at or below it, and raises it only to
   the leader's commit index, within what the request just checked.
   */
  ghost predicate FollowsSafely(n: NodeState, q: AppendRequest) {
    var n' := HandleAppend(n, q).0;
    && n.commitIndex < |n.log| && n.log[..n.commitIndex + 1] <= n'.log
    && n.commitIndex <= n'.commitIndex
    && (n'.commitIndex > n.commitIndex ==> n'.commitIndex == q.leaderCommit <= q.prevIndex + |q.entries|)
  }

  lemma FollowsAt(c: Cluster, q: Append, n: NodeState)
    requires Complete(c) && AppendOk(c.reigns, c.members, q) && AppendCommitOk(c, q)
    requires ReignLogOk(c.reigns, q.request.term) && Founded(n.log, c.reigns) && NodeCommitOk(c, n)
    requires q.request.term >= n.currentTerm
    ensures FollowsSafely(n, q.request)
  {
    FollowerCommitRule(c, q, n);
  }

  lemma {:induction false} FollowsIn(c: Cluster, q: Append)
    requires Inv(c) && Complete(c) && CanAppend(c, q) && q.request.term >= c.nodes[q.to].currentTerm
    ensures FollowsSafely(c.nodes[q.to], q.request)
  {
    assert NodeLogOk(c.reigns, c.members, c.nodes[q.to]);
    FollowsAt(c, q, c.nodes[q.to]);
  }

  /** The follower's commit rule, in every run. */
  lemma FollowerCommitInRuns(members: set<Id>, run: seq<Cluster>, steps: seq<Step>, a: nat, q: Append)
    requires NOBODY !in members && IsRun(members, run, steps) && a < |run|
    requires CanAppend(run[a], q) && q.request.term >= run[a].nodes[q.to].currentTerm
    ensures FollowsSafely(run[a].nodes[q.to], q.request)
  {
    RunInv(members, run, steps, a);
    CompleteInRuns(members, run, steps, a);
    FollowsIn(run[a], q);
  }

  /**
   What the state file holds is what a restart reads from its bytes, exactly as long as every number and
   length fits its field: at every state of every run the file decodes to the term, vote and log in memory.
   */
  lemma RestartFromBytes(members: set<Id>, run: seq<Cluster>, steps: seq<Step>, a: nat, i: Id)
    requires NOBODY !in members && IsRun(members, run, steps) && a < |run| && i in run[a].nodes
    ensures var n := run[a].nodes[i];
            var d := Durable(n.currentTerm, n.votedFor, n.log);
            RaftState.LoadState(RaftState.EncodeState(n.disk)) == (d, true) <==> RaftState.Fits(d)
  {
    var n := run[a].nodes[i];
    LogShape(members, run, steps, a, i);
    SyncedInRuns(members, run, steps, a, i);
    RaftState.StateRoundTripExactly(n.disk);
  }

  lemma SyncedInRuns(members: set<Id>, run: seq<Cluster>, steps: seq<Step>, a: nat, i: Id)
    requires NOBODY !in members && IsRun(members, run, steps) && a < |run| && i in run[a].nodes
    ensures Synced(run[a].nodes[i])
  {
    RunInv(members, run, steps, a);
  }

  /** Every request in flight carries entries numbered by their positions. */
  lemma RequestsNumbered(members: set<Id>, run: seq<Cluster>, steps: seq<Step>, a: nat, q: Append)
    requires NOBODY !in members && IsRun(members, run, steps) && a < |run| && q in run[a].appends
    ensures Numbered(q.request)
  {
    RunInv(members, run, steps, a);
    NumberedBy(run[a].reigns, run[a].members, q) by {
      assert AppendOk(run[a].reigns, run[a].members, q) && ReignLogOk(run[a].reigns, q.request.term);
    }
  }

  lemma NumberedBy(reigns: Reigns, members: set<Id>, q: Append)
    requires AppendOk(reigns, members, q) && ReignLogOk(reigns, q.request.term)
    ensures Numbered(q.request)
  {
    var r, log := q.request, reigns[q.request.term].log;
    forall k | 0 <= k < |r.entries|
      ensures r.entries[k].index == r.prevIndex + 1 + k
    {
      assert r.entries[k] == log[r.prevIndex + 1 + k];
    }
  }

  /** No request of a run makes its receiver index outside its log. */
  lemma NeverOverruns(members: set<Id>, run: seq<Cluster>, steps: seq<Step>, a: nat, q: Append)
    requires NOBODY !in members && IsRun(members, run, steps) && a < |run| && CanAppend(run[a], q)
    ensures !Overruns(run[a].nodes[q.to], q.request)
  {
    LogShape(members, run, steps, a, q.to);
    RequestsNumbered(members, run, steps, a, q);
    NoOverrun(run[a].nodes[q.to], q.request);
  }

  lemma NoOverrun(n: NodeState, q: AppendRequest)
    requires WellIndexed(n.log) && Numbered(q)
    ensures !Overruns(n, q)
  {
    if q.prevIndex < |n.log| {
      MergeNumbered(n.log, q.prevIndex + 1, q.entries);
    }
  }

  /** A crash and restart leaves term, vote and log of the node as they were. */
  lemma RestartKeepsState(members: set<Id>, run: seq<Cluster>, steps: seq<Step>, a: nat, i: Id)
    requires NOBODY !in members && IsRun(members, run, steps) && a < |run| && i in run[a].nodes
    ensures var n := run[a].nodes[i];
            var n' := AfterCrash(run[a], i).nodes[i];
            n'.currentTerm == n.currentTerm && n'.votedFor == n.votedFor && n'.log == n.log
  {
    RunInv(members, run, steps, a);
    assert Synced(run[a].nodes[i]);
  }
}
