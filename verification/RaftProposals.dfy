/**
 Validity: whatever is in a log, on its way or on an apply channel was proposed by a client, to the leader of
 the entry's term and at the entry's index; and a proposal is stored as it came.
 */
module RaftProposals {
  import opened Bytes
  import opened RaftTypes
  import opened RaftHandlers
  import opened RaftCluster
  import opened RaftElection
  import opened RaftLogs
  import opened RaftSafety

  /** Behind the sentinel there are only entries of `es`. */
  ghost predicate LogFrom(log: seq<Entry>, es: set<Entry>) {
    forall k :: 1 <= k < |log| ==> log[k] in es
  }

  ghost predicate NodeFrom(n: NodeState, es: set<Entry>) {
    LogFrom(n.log, es) && LogFrom(n.disk.log, es)
  }

  ghost predicate EntriesFrom(entries: seq<Entry>, es: set<Entry>) {
    forall k :: 0 <= k < |entries| ==> entries[k] in es
  }

  ghost predicate MessageFrom(m: ApplyMsg, es: set<Entry>) {
    exists e :: e in es && m == ApplyMsg(e.index, e.data)
  }

  ghost predicate Sourced(c: Cluster, es: set<Entry>) {
    && (forall i :: i in c.nodes ==> NodeFrom(c.nodes[i], es))
    && (forall a :: a in c.appends ==> EntriesFrom(a.request.entries, es))
    && (forall h :: h in c.handovers ==> MessageFrom(h.msg, es))
  }

  // ---- handlers add nothing of their own ----

  lemma {:induction false} MergeFrom(log: seq<Entry>, at: nat, entries: seq<Entry>, es: set<Entry>)
    requires LogFrom(log, es) && EntriesFrom(entries, es) && 1 <= at <= |log|
    ensures LogFrom(Merge(log, at, entries), es)
    decreases |entries|
  {
    if entries != [] {
      if at < |log| && log[at].term == entries[0].term {
        MergeFrom(log, at + 1, entries[1..], es);
      } else {
        MergeFrom((if at < |log| then log[..at] else log) + [entries[0]], at + 1, entries[1..], es);
      }
    }
  }

  lemma {:induction false} DrainFromLog(log: seq<Entry>, from: nat, to: nat, es: set<Entry>)
    requires LogFrom(log, es)
    ensures forall m :: m in Drain(log, from, to) ==> MessageFrom(m, es)
    decreases |log| - from
  {
    if from < to && from + 1 < |log| {
      var head := ApplyMsg(log[from + 1].index, log[from + 1].data);
      assert log[from + 1] in es;
      assert MessageFrom(head, es);
      DrainFromLog(log, from + 1, to, es);
    }
  }

  lemma {:induction false} AppliedFrom(n: NodeState, es: set<Entry>)
    requires NodeFrom(n, es)
    ensures NodeFrom(ApplyCommitted(n).0, es)
    ensures forall m :: m in ApplyCommitted(n).1 ==> MessageFrom(m, es)
  {
    DrainFromLog(n.log, n.lastApplied, n.commitIndex, es);
  }

  lemma {:induction false} FollowedFrom(n: NodeState, leaderCommit: nat, es: set<Entry>)
    requires NodeFrom(n, es)
    ensures NodeFrom(FollowCommit(n, leaderCommit).0, es)
    ensures forall m :: m in FollowCommit(n, leaderCommit).1 ==> MessageFrom(m, es)
  {
    var last := LastIndex(n.log);
    AppliedFrom(n.(commitIndex := if leaderCommit < last then leaderCommit else last), es);
  }

  lemma {:induction false} AppendInTermFrom(n: NodeState, q: AppendRequest, es: set<Entry>)
    requires NodeFrom(n, es) && EntriesFrom(q.entries, es)
    ensures NodeFrom(AppendInTerm(n, q).0, es)
    ensures forall m :: m in AppendInTerm(n, q).2 ==> MessageFrom(m, es)
  {
    if q.prevIndex < |n.log| && n.log[q.prevIndex].term == q.prevTerm {
      MergeFrom(n.log, q.prevIndex + 1, q.entries, es);
      FollowedFrom(Persist(n.(log := Merge(n.log, q.prevIndex + 1, q.entries))), q.leaderCommit, es);
    }
  }

  lemma {:induction false} AppendFrom(n: NodeState, q: AppendRequest, es: set<Entry>)
    requires NodeFrom(n, es) && EntriesFrom(q.entries, es)
    ensures NodeFrom(HandleAppend(n, q).0, es)
    ensures forall m :: m in HandleAppend(n, q).2 ==> MessageFrom(m, es)
  {
    if q.term >= n.currentTerm {
      AppendInTermFrom(if q.term > n.currentTerm || n.role == Candidate then StepDown(n, q.term) else n, q, es);
    }
  }

  lemma {:induction false} AdvanceFrom(n: NodeState, peers: set<Id>, quorum: nat, es: set<Entry>)
    requires NodeFrom(n, es)
    ensures NodeFrom(AdvanceCommit(n, peers, quorum).0, es)
    ensures forall m :: m in AdvanceCommit(n, peers, quorum).1 ==> MessageFrom(m, es)
  {
    AppliedFrom(n.(commitIndex := QuorumIndex(n, peers, quorum, LastIndex(n.log))), es);
  }

  lemma {:induction false} LearnFrom(
    n: NodeState, peer: Id, q: AppendRequest, a: AppendAnswer, peers: set<Id>, quorum: nat, es: set<Entry>)
    requires NodeFrom(n, es)
    ensures NodeFrom(HandleAppendAnswer(n, peer, q, a, peers, quorum).0, es)
    ensures forall m :: m in HandleAppendAnswer(n, peer, q, a, peers, quorum).1 ==> MessageFrom(m, es)
  {
    var last := LastIndex(q.entries);
    AdvanceFrom(n.(matchIndex := n.matchIndex[peer := last], nextIndex := n.nextIndex[peer := last + 1]),
                peers, quorum, es);
  }

  // ---- steps ----

  /** What a proposal adds: the client's data at the next index, in the leader's term. */
  ghost predicate ProposedAt(c: Cluster, step: Step, e: Entry) {
    && step.ClientProposal? && Leads(c, step.id)
    && e == Entry(|c.nodes[step.id].log|, c.nodes[step.id].currentTerm, step.data)
  }

  ghost function NewEntries(c: Cluster, step: Step): set<Entry> {
    if step.ClientProposal? && Leads(c, step.id)
    then {Entry(|c.nodes[step.id].log|, c.nodes[step.id].currentTerm, step.data)}
    else {}
  }

  lemma {:induction false} MoreSourced(c: Cluster, es: set<Entry>, es': set<Entry>)
    requires Sourced(c, es) && es <= es'
    ensures Sourced(c, es')
  {
    forall h | h in c.handovers
      ensures MessageFrom(h.msg, es')
    {
      assert MessageFrom(h.msg, es);
      var e :| e in es && h.msg == ApplyMsg(e.index, e.data);
      assert e in es';
    }
  }

  lemma {:induction false} OneSourced(c: Cluster, c': Cluster, n: NodeState, es: set<Entry>)
    requires Sourced(c, es) && c'.nodes == c.nodes[n.id := n] && NodeFrom(n, es)
    requires c'.appends == c.appends
    requires forall h :: h in c'.handovers ==> h in c.handovers || MessageFrom(h.msg, es)
    ensures Sourced(c', es)
  {}

  lemma {:induction false} ProposalSourced(c: Cluster, i: Id, data: seq<byte>, es: set<Entry>)
    requires Sourced(c, es) && NodesOk(c) && Leads(c, i) && WellIndexed(c.nodes[i].log)
    requires Entry(|c.nodes[i].log|, c.nodes[i].currentTerm, data) in es
    ensures Sourced(AfterProposal(c, i, data), es)
  {
    OneSourced(c, AfterProposal(c, i, data), Propose(c.nodes[i], data), es);
  }

  lemma {:induction false} SendSourced(c: Cluster, i: Id, to: Id, es: set<Entry>)
    requires Sourced(c, es) && i in c.nodes
    ensures Sourced(AfterSend(c, i, to), es)
  {
    var n := c.nodes[i];
    assert NodeFrom(n, es);
    assert EntriesFrom(BuildAppend(n, to).entries, es);
  }

  lemma {:induction false} ReceiveSourced(c: Cluster, a: Append, es: set<Entry>)
    requires Sourced(c, es) && NodesOk(c) && CanAppend(c, a)
    ensures Sourced(AfterAppend(c, a), es)
  {
    AppendFrom(c.nodes[a.to], a.request, es);
    OneSourced(c, AfterAppend(c, a), HandleAppend(c.nodes[a.to], a.request).0, es);
  }

  lemma {:induction false} LearnSourced(c: Cluster, r: AppendReply, es: set<Entry>)
    requires Sourced(c, es) && NodesOk(c) && CanLearn(c, r)
    ensures Sourced(AfterAppendReply(c, r), es)
  {
    var i := r.append.request.leader;
    LearnFrom(c.nodes[i], r.append.to, r.append.request, r.answer, Peers(c, i), Quorum(c.members), es);
    OneSourced(c, AfterAppendReply(c, r), AfterAppendReply(c, r).nodes[i], es);
  }

  lemma {:induction false} VoteFrom(n: NodeState, q: VoteRequest, es: set<Entry>)
    requires NodeFrom(n, es)
    ensures NodeFrom(HandleVoteRequest(n, q).0, es) && HandleVoteRequest(n, q).0.id == n.id
  {}

  lemma {:induction false} VotingSourced(c: Cluster, i: Id, q: VoteRequest, es: set<Entry>)
    requires Sourced(c, es) && NodesOk(c) && CanVote(c, i, q)
    ensures Sourced(AfterVoteRequest(c, i, q), es)
  {
    VoteFrom(c.nodes[i], q, es);
    OneSourced(c, AfterVoteRequest(c, i, q), HandleVoteRequest(c.nodes[i], q).0, es);
  }

  lemma {:induction false} CountingSourced(c: Cluster, r: VoteReply, es: set<Entry>)
    requires Sourced(c, es) && NodesOk(c) && CanCount(c, r)
    ensures Sourced(AfterVoteReply(c, r), es)
  {
    var i := r.request.candidate;
    assert NodeFrom(c.nodes[i], es);
    OneSourced(c, AfterVoteReply(c, r), HandleVoteAnswer(c.nodes[i], r.request.term, r.voter, r.answer), es);
  }

  lemma {:induction false} ElectionSourced(c: Cluster, step: Step, es: set<Entry>)
    requires Sourced(c, es) && NodesOk(c) && Enabled(c, step)
    requires step.Timeout? || step.ReceiveVoteRequest? || step.ReceiveVoteReply? || step.WinElection?
    ensures Sourced(Exec(c, step), es)
  {
    match step
    case Timeout(i) =>
      assert NodeFrom(c.nodes[i], es);
      OneSourced(c, AfterTimeout(c, i), StartElection(c.nodes[i]), es);
    case WinElection(i) =>
      assert NodeFrom(c.nodes[i], es);
      OneSourced(c, AfterWin(c, i), TakeOffice(c.nodes[i], Peers(c, i)), es);
    case ReceiveVoteRequest(i, q) => VotingSourced(c, i, q, es);
    case ReceiveVoteReply(r) => CountingSourced(c, r, es);
  }

  lemma {:induction false} CrashSourced(c: Cluster, i: Id, d: Durable, es: set<Entry>)
    requires Sourced(c, es) && NodesOk(c) && i in c.nodes && LogFrom(d.log, es)
    ensures Sourced(AfterReboot(c, i, d), es)
  {
    OneSourced(c, AfterReboot(c, i, d), Boot(i, d), es);
  }

  lemma {:induction false} StepSourced(c: Cluster, step: Step, es: set<Entry>)
    requires Sourced(c, es) && NodesOk(c) && Enabled(c, step)
    requires forall i :: i in c.nodes ==> WellIndexed(c.nodes[i].log)
    ensures Sourced(Exec(c, step), es + NewEntries(c, step))
  {
    var es' := es + NewEntries(c, step);
    MoreSourced(c, es, es');
    if step.Timeout? || step.ReceiveVoteRequest? || step.ReceiveVoteReply? || step.WinElection? {
      ElectionSourced(c, step, es');
    } else {
      ReplicationSourced(c, step, es');
    }
  }

  lemma {:induction false} ReplicationSourced(c: Cluster, step: Step, es: set<Entry>)
    requires Sourced(c, es) && NodesOk(c) && Enabled(c, step) && NewEntries(c, step) <= es
    requires forall i :: i in c.nodes ==> WellIndexed(c.nodes[i].log)
    requires !step.Timeout? && !step.ReceiveVoteRequest? && !step.ReceiveVoteReply? && !step.WinElection?
    ensures Sourced(Exec(c, step), es)
  {
    match step
    case ClientProposal(i, data) => ProposalSourced(c, i, data, es);
    case SendAppend(i, to) => SendSourced(c, i, to, es);
    case ReceiveAppend(a) => ReceiveSourced(c, a, es);
    case ReceiveAppendReply(r) => LearnSourced(c, r, es);
    case CrashAndRestart(i) => CrashSourced(c, i, c.nodes[i].disk, es);
    case CrashInHandler(i, term) => CrashSourced(c, i, StepDown(c.nodes[i], term).disk, es);
  }

  // ---- runs ----

  ghost function AllProposed(run: seq<Cluster>, steps: seq<Step>, a: nat): set<Entry>
    requires a <= |steps| <= |run|
  {
    if a == 0 then {} else AllProposed(run, steps, a - 1) + NewEntries(run[a - 1], steps[a - 1])
  }

  /** One of the first `a` steps was the proposal of this entry. */
  ghost predicate WasProposed(run: seq<Cluster>, steps: seq<Step>, a: nat, e: Entry)
    requires a <= |steps| <= |run|
  {
    exists m :: 0 <= m < a && ProposedAt(run[m], steps[m], e)
  }

  lemma {:induction false} ProposedByStep(run: seq<Cluster>, steps: seq<Step>, a: nat, e: Entry)
    requires a <= |steps| <= |run| && e in AllProposed(run, steps, a)
    ensures WasProposed(run, steps, a, e)
    decreases a
  {
    if e in NewEntries(run[a - 1], steps[a - 1]) {
      assert ProposedAt(run[a - 1], steps[a - 1], e);
    } else {
      ProposedByStep(run, steps, a - 1, e);
      var m :| 0 <= m < a - 1 && ProposedAt(run[m], steps[m], e);
    }
  }

  lemma {:induction false} RunSourced(members: set<Id>, run: seq<Cluster>, steps: seq<Step>, a: nat)
    requires NOBODY !in members && IsRun(members, run, steps) && a < |run|
    ensures Sourced(run[a], AllProposed(run, steps, a))
    decreases a
  {
    if a > 0 {
      var c := run[a - 1];
      RunSourced(members, run, steps, a - 1);
      ShapesInRuns(members, run, steps, a - 1);
      StepSourced(c, steps[a - 1], AllProposed(run, steps, a - 1));
    }
  }

  lemma {:induction false} ShapesInRuns(members: set<Id>, run: seq<Cluster>, steps: seq<Step>, a: nat)
    requires NOBODY !in members && IsRun(members, run, steps) && a < |run|
    ensures NodesOk(run[a]) && forall i :: i in run[a].nodes ==> WellIndexed(run[a].nodes[i].log)
  {
    RunInv(members, run, steps, a);
    forall i | i in run[a].nodes
      ensures WellIndexed(run[a].nodes[i].log)
    {
      assert NodeLogOk(run[a].reigns, run[a].members, run[a].nodes[i]);
    }
  }

  /** Every entry of every log was proposed, at this index, to the leader of its term. */
  lemma {:induction false} EntriesWereProposed(
    members: set<Id>, run: seq<Cluster>, steps: seq<Step>, a: nat, i: Id, k: nat)
    requires NOBODY !in members && IsRun(members, run, steps) && a < |run|
    requires i in run[a].nodes && 1 <= k < |run[a].nodes[i].log|
    ensures WasProposed(run, steps, a, run[a].nodes[i].log[k])
  {
    RunSourced(members, run, steps, a);
    assert NodeFrom(run[a].nodes[i], AllProposed(run, steps, a));
    ProposedByStep(run, steps, a, run[a].nodes[i].log[k]);
  }

  /** Validity: what is handed over is the data of a client's proposal, under the index it was proposed at. */
  lemma {:induction false} HandoversWereProposed(
    members: set<Id>, run: seq<Cluster>, steps: seq<Step>, a: nat, h: Handover)
    requires NOBODY !in members && IsRun(members, run, steps) && a < |run| && h in run[a].handovers
    ensures exists e :: WasProposed(run, steps, a, e) && h.msg == ApplyMsg(e.index, e.data)
  {
    RunSourced(members, run, steps, a);
    assert MessageFrom(h.msg, AllProposed(run, steps, a));
    var e :| e in AllProposed(run, steps, a) && h.msg == ApplyMsg(e.index, e.data);
    ProposedByStep(run, steps, a, e);
  }

  /** A proposal is stored: the leader's log grows by the client's data, and no other node changes. */
  lemma {:induction false} ProposalStored(members: set<Id>, run: seq<Cluster>, steps: seq<Step>, a: nat)
    requires NOBODY !in members && IsRun(members, run, steps) && a < |steps| && steps[a].ClientProposal?
    ensures var i := steps[a].id;
            && i in run[a].nodes && run[a + 1].nodes.Keys == run[a].nodes.Keys
            && var n, n' := run[a].nodes[i], run[a + 1].nodes[i];
               && n'.log == n.log + [Entry(|n.log|, n.currentTerm, steps[a].data)] && n'.disk.log == n'.log
               && n'.currentTerm == n.currentTerm && n'.role == Leader
               && forall j :: j in run[a].nodes && j != i ==> run[a + 1].nodes[j] == run[a].nodes[j]
  {
    ShapesInRuns(members, run, steps, a);
    assert Enabled(run[a], steps[a]) && run[a + 1] == Exec(run[a], steps[a]);
  }
}
