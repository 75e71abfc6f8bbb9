/**
 Log repair: a leader that retries with an ever earlier position brings a follower's
 log in line after at most as many rounds as its next index for that follower, and the
 follower then has committed and handed over what the leader had committed.
 */
module RaftRepair {
  import opened RaftTypes
  import opened RaftHandlers
  import RaftExact
  import opened RaftCluster
  import opened RaftLogs
  import opened RaftElection
  import opened RaftRetention
  import opened RaftCommit
  import opened RaftSafety
  import opened RaftDelivery

  ghost predicate Apart(c: Cluster, i: Id, p: Id) {
    i in c.nodes && p in c.nodes && i != p && c.nodes[i].id == i && c.nodes[p].id == p
  }

  /** Leader `i` can talk to `p`, whose term is not ahead. */
  ghost predicate Paired(c: Cluster, i: Id, p: Id) {
    && Inv(c) && Prompt(c)
    && Leads(c, i)
    && Apart(c, i, p)
    && p in Peers(c, i)
    && c.nodes[p].currentTerm <= c.nodes[i].currentTerm
  }

  ghost function RoundRequest(c: Cluster, i: Id, p: Id): Append
    requires i in c.nodes
  {
    Append(p, BuildAppend(c.nodes[i], p))
  }

  ghost function RoundAnswer(c: Cluster, i: Id, p: Id): AppendAnswer
    requires i in c.nodes && p in c.nodes
  {
    HandleAppend(c.nodes[p], RoundRequest(c, i, p).request).1
  }

  /** One undisturbed round: the request is sent, handled, and its answer is handled. */
  ghost function Round(c: Cluster, i: Id, p: Id): Cluster
    requires Apart(c, i, p)
  {
    var handled := AfterAppend(AfterSend(c, i, p), RoundRequest(c, i, p));
    AfterAppendReply(handled, AppendReply(RoundRequest(c, i, p), RoundAnswer(c, i, p)))
  }

  lemma {:induction false} RoundKeepsInv(c: Cluster, i: Id, p: Id)
    requires Paired(c, i, p)
    ensures Inv(Round(c, i, p))
  {
    var a := RoundRequest(c, i, p);
    var sent := AfterSend(c, i, p);
    StepInv(c, SendAppend(i, p));
    StepInv(sent, ReceiveAppend(a));
    StepInv(AfterAppend(sent, a), ReceiveAppendReply(AppendReply(a, RoundAnswer(c, i, p))));
  }

  lemma {:induction false} RoundKeepsPrompt(c: Cluster, i: Id, p: Id)
    requires Paired(c, i, p)
    ensures Prompt(Round(c, i, p))
  {
    var a := RoundRequest(c, i, p);
    var sent := AfterSend(c, i, p);
    StepInv(c, SendAppend(i, p));
    StepServes(c, SendAppend(i, p));
    StepInv(sent, ReceiveAppend(a));
    StepServes(sent, ReceiveAppend(a));
    StepServes(AfterAppend(sent, a), ReceiveAppendReply(AppendReply(a, RoundAnswer(c, i, p))));
  }

  lemma AppendNodes(c: Cluster, a: Append)
    requires a.to in c.nodes && c.nodes[a.to].id == a.to
    ensures AfterAppend(c, a).nodes == c.nodes[a.to := HandleAppend(c.nodes[a.to], a.request).0]
    ensures AfterAppend(c, a).members == c.members
  {
    AppendHandled(c.nodes[a.to], a.request);
  }

  lemma AppendReplyNodes(c: Cluster, r: AppendReply)
    requires r.append.request.leader in c.nodes && c.nodes[r.append.request.leader].id == r.append.request.leader
    ensures var i := r.append.request.leader;
            AfterAppendReply(c, r).nodes == c.nodes[i := HandleAppendAnswer(
              c.nodes[i], r.append.to, r.append.request, r.answer, Peers(c, i), Quorum(c.members)).0]
    ensures AfterAppendReply(c, r).members == c.members
  {}

  /** What a round leaves behind, in terms of the handlers. */
  lemma RoundNodes(c: Cluster, i: Id, p: Id)
    requires Apart(c, i, p)
    ensures var q := RoundRequest(c, i, p).request;
            var c' := Round(c, i, p);
            && c'.members == c.members && c'.nodes.Keys == c.nodes.Keys
            && (forall j :: j in c.nodes && j != i && j != p ==> c'.nodes[j] == c.nodes[j])
            && c'.nodes[p] == HandleAppend(c.nodes[p], q).0
            && c'.nodes[i] == HandleAppendAnswer(
                 c.nodes[i], p, q, RoundAnswer(c, i, p), Peers(c, i), Quorum(c.members)).0
  {
    var a := RoundRequest(c, i, p);
    var sent := AfterSend(c, i, p);
    AppendNodes(sent, a);
    AppendReplyNodes(AfterAppend(sent, a), AppendReply(a, RoundAnswer(c, i, p)));
  }

  /** A request accepted by the follower makes the leader's whole log a prefix of the follower's. */
  lemma {:induction false} SuccessRepairs(c: Cluster, i: Id, p: Id)
    requires Paired(c, i, p)
    ensures var n := HandleAppend(c.nodes[p], RoundRequest(c, i, p).request).0;
            && n.currentTerm == c.nodes[i].currentTerm
            && (RoundAnswer(c, i, p).success ==> c.nodes[i].log <= n.log)
    ensures NextFor(c.nodes[i], p) == 1 ==> RoundAnswer(c, i, p).success
  {
    var a := RoundRequest(c, i, p);
    var sent := AfterSend(c, i, p);
    StepInv(c, SendAppend(i, p));
    SentVouchesAll(sent, a, c.nodes[i], c.nodes[p]);
  }

  lemma SentVouchesAll(c: Cluster, a: Append, n: NodeState, f: NodeState)
    requires LogsInv(c) && a in c.appends && a.request == BuildAppend(n, a.to)
    requires NodeLogOk(c.reigns, c.members, n) && n.role == Leader && a.to in c.members && a.to != n.id
    requires NodeLogOk(c.reigns, c.members, f) && f.currentTerm <= n.currentTerm
    ensures HandleAppend(f, a.request).0.currentTerm == n.currentTerm
    ensures HandleAppend(f, a.request).1.success ==> n.log <= HandleAppend(f, a.request).0.log
    ensures NextFor(n, a.to) == 1 ==> HandleAppend(f, a.request).1.success
  {
    assert AppendOk(c.reigns, c.members, a) && ReignLogOk(c.reigns, a.request.term);
    AppendEffect(c.reigns, c.members, a, f.log);
    HandleAppendLog(f, a.request);
    assert NextFor(n, a.to) <= |n.log|;
    assert Vouched(c.reigns, a.request) == n.log;
  }

  /** And it makes the follower commit what the leader had committed when it sent the request. */
  lemma {:induction false} SuccessCommits(c: Cluster, i: Id, p: Id)
    requires Paired(c, i, p) && RoundAnswer(c, i, p).success
    ensures HandleAppend(c.nodes[p], RoundRequest(c, i, p).request).0.commitIndex >= c.nodes[i].commitIndex
  {
    var a := RoundRequest(c, i, p);
    ReceiverFacts(c, i, p);
    SenderCommit(c, i);
    SuccessRepairs(c, i, p);
    CommitsAt(AfterSend(c, i, p), a, c.nodes[p], c.nodes[i].log);
  }

  lemma {:induction false} SenderCommit(c: Cluster, i: Id)
    requires Inv(c) && i in c.nodes
    ensures c.nodes[i].commitIndex < |c.nodes[i].log|
  {
    assert NodeCommitOk(c, c.nodes[i]);
  }

  /** What holds of a follower when the request reaches it. */
  ghost predicate Receptive(c: Cluster, a: Append, f: NodeState) {
    && AppendOk(c.reigns, c.members, a) && ReignLogOk(c.reigns, a.request.term) && Complete(c)
    && Founded(f.log, c.reigns) && NodeCommitOk(c, f) && LeaderOk(c, f) && f.id == a.to
    && f.lastApplied == f.commitIndex && a.request.term >= f.currentTerm
  }

  lemma {:induction false} ReceiverFacts(c: Cluster, i: Id, p: Id)
    requires Paired(c, i, p)
    ensures Receptive(AfterSend(c, i, p), RoundRequest(c, i, p), c.nodes[p])
  {
    var sent := AfterSend(c, i, p);
    assert Serves(c, c.nodes[p]);
    StepInv(c, SendAppend(i, p));
    ReceptiveIn(sent, RoundRequest(c, i, p));
  }

  lemma {:induction false} ReceptiveIn(c: Cluster, a: Append)
    requires Inv(c) && CanAppend(c, a) && c.nodes[a.to].lastApplied == c.nodes[a.to].commitIndex
    requires a.request.term >= c.nodes[a.to].currentTerm
    ensures Receptive(c, a, c.nodes[a.to])
  {
    TenureHolds(c);
    CompleteHolds(c);
    assert NodeLogOk(c.reigns, c.members, c.nodes[a.to]) && NodeCommitOk(c, c.nodes[a.to]);
  }

  lemma {:induction false} CommitsAt(c: Cluster, a: Append, f: NodeState, log: seq<Entry>)
    requires Receptive(c, a, f) && HandleAppend(f, a.request).1.success
    requires log <= HandleAppend(f, a.request).0.log && a.request.leaderCommit < |log|
    ensures HandleAppend(f, a.request).0.commitIndex >= a.request.leaderCommit
  {
    ContinuesAt(c, a, f);
  }

  /** The leader keeps its office and log, and a refusal moves its next index one back. */
  lemma LeaderLearns(n: NodeState, p: Id, answer: AppendAnswer, peers: set<Id>, quorum: nat)
    requires n.role == Leader && answer.term <= n.currentTerm
    ensures var n' := HandleAppendAnswer(n, p, BuildAppend(n, p), answer, peers, quorum).0;
            && n'.role == Leader && n'.currentTerm == n.currentTerm && n'.log == n.log
            && (!answer.success && NextFor(n, p) > 1 ==> NextFor(n', p) == NextFor(n, p) - 1)
  {}

  /**
   What a leader `n` that leads on as `n'` records of `p`: an accepted request up to the end of its log, nothing
   if that was empty, and for a refused one a position one back.
   */
  ghost predicate Records(n: NodeState, n': NodeState, p: Id, success: bool)
    requires p in n.nextIndex
  {
    && n'.role == Leader && n'.currentTerm == n.currentTerm && n'.log == n.log
    && if success && n.nextIndex[p] < |n.log|
       then n'.matchIndex == n.matchIndex[p := |n.log| - 1] && n'.nextIndex == n.nextIndex[p := |n.log|]
       else n' == if success || n.nextIndex[p] <= 1 then n
                  else n.(nextIndex := n.nextIndex[p := n.nextIndex[p] - 1])
  }

  lemma {:induction false} LeaderRecords(n: NodeState, p: Id, answer: AppendAnswer, peers: set<Id>, quorum: nat)
    requires n.role == Leader && answer.term <= n.currentTerm && WellIndexed(n.log)
    requires p in n.nextIndex && 1 <= n.nextIndex[p] <= |n.log|
    ensures Records(n, HandleAppendAnswer(n, p, BuildAppend(n, p), answer, peers, quorum).0, p, answer.success)
  {
    var q := BuildAppend(n, p);
    assert n.nextIndex[p] < |n.log| ==> q.entries[|q.entries| - 1] == n.log[|n.log| - 1];
    RaftExact.LearnsExactly(n, p, q, answer, peers, quorum);
    if answer.success && q.entries != [] {
      AdvanceKeeps(RaftExact.Matched(n, p, |n.log| - 1), peers, quorum);
    }
  }

  /** Advancing the commit index changes nothing else but what was applied. */
  lemma AdvanceKeeps(n: NodeState, peers: set<Id>, quorum: nat)
    ensures var n' := AdvanceCommit(n, peers, quorum).0;
            n' == n.(commitIndex := n'.commitIndex, lastApplied := n'.lastApplied)
  {}

  lemma LeaderAfterRound(c: Cluster, i: Id, p: Id)
    requires Apart(c, i, p) && c.nodes[i].role == Leader && c.nodes[p].currentTerm <= c.nodes[i].currentTerm
    ensures var n' := Round(c, i, p).nodes[i];
            && n'.role == Leader && n'.currentTerm == c.nodes[i].currentTerm && n'.log == c.nodes[i].log
            && (!RoundAnswer(c, i, p).success && NextFor(c.nodes[i], p) > 1 ==>
                NextFor(n', p) == NextFor(c.nodes[i], p) - 1)
  {
    RoundNodes(c, i, p);
    LeaderLearns(c.nodes[i], p, RoundAnswer(c, i, p), Peers(c, i), Quorum(c.members));
  }

  lemma {:induction false} RoundPaired(c: Cluster, i: Id, p: Id)
    requires Paired(c, i, p)
    ensures Paired(Round(c, i, p), i, p)
    ensures Round(c, i, p).nodes[i].currentTerm == c.nodes[i].currentTerm
    ensures Round(c, i, p).nodes[i].log == c.nodes[i].log
    ensures if RoundAnswer(c, i, p).success
            then Round(c, i, p).nodes[i].log <= Round(c, i, p).nodes[p].log
            else NextFor(Round(c, i, p).nodes[i], p) == NextFor(c.nodes[i], p) - 1
  {
    RoundKeepsInv(c, i, p);
    RoundKeepsPrompt(c, i, p);
    RoundNodes(c, i, p);
    LeaderAfterRound(c, i, p);
    SuccessRepairs(c, i, p);
  }

  // ---- repetition ----

  ghost function Iterate<S>(next: S -> S, s: S, k: nat): S {
    if k == 0 then s else Iterate(next, next(s), k - 1)
  }

  /** From a good state a step leads to a good state, and either is as `after` says or lowers the measure. */
  ghost predicate Progresses<S(!new)>(
    good: iset<S>, after: (S, S) -> bool, next: S -> S, measure: S -> nat, s: S) {
    && measure(s) >= 1 && next(s) in good
    && (after(s, next(s)) || measure(next(s)) < measure(s))
  }

  ghost predicate AlwaysProgresses<S(!new)>(
    good: iset<S>, after: (S, S) -> bool, next: S -> S, measure: S -> nat) {
    forall x :: x in good ==> Progresses(good, after, next, measure, x)
  }

  /** Then a step as `after` says is taken within the measure. */
  lemma {:induction false} Descend<S(!new)>(
    good: iset<S>, after: (S, S) -> bool, next: S -> S, measure: S -> nat, s: S)
    returns (k: nat)
    requires s in good && AlwaysProgresses(good, after, next, measure)
    ensures 1 <= k <= measure(s) && Iterate(next, s, k - 1) in good && Iterate(next, s, k) in good
    ensures after(Iterate(next, s, k - 1), Iterate(next, s, k))
    decreases measure(s)
  {
    assert Progresses(good, after, next, measure, s);
    if after(s, next(s)) {
      k := 1;
      assert Iterate(next, s, 1) == Iterate(next, next(s), 0);
    } else {
      var rest := Descend(good, after, next, measure, next(s));
      k := rest + 1;
      assert Iterate(next, s, k) == Iterate(next, next(s), rest);
      assert Iterate(next, s, k - 1) == Iterate(next, next(s), rest - 1);
    }
  }

  ghost function NextRound(i: Id, p: Id): Cluster -> Cluster {
    (c: Cluster) => if Apart(c, i, p) then Round(c, i, p) else c
  }

  ghost function Attempts(i: Id, p: Id): Cluster -> nat {
    (c: Cluster) => if i in c.nodes then NextFor(c.nodes[i], p) else 1
  }

  /** `i` leads term `t` with `log` and can talk to `p`. */
  ghost predicate Steady(c: Cluster, i: Id, p: Id, t: nat, log: seq<Entry>) {
    Paired(c, i, p) && c.nodes[i].currentTerm == t && c.nodes[i].log == log
  }

  ghost function SteadyStates(i: Id, p: Id, t: nat, log: seq<Entry>): iset<Cluster> {
    iset c: Cluster | Steady(c, i, p, t, log)
  }

  /** The follower has the leader's log, has committed as far as `commit`, and has handed that over. */
  ghost predicate Repaired(c: Cluster, p: Id, log: seq<Entry>, commit: nat) {
    && p in c.nodes && log <= c.nodes[p].log && commit <= c.nodes[p].commitIndex
    && forall k :: 1 <= k <= commit && k < |log| ==> Handover(p, ApplyMsg(k, log[k].data)) in c.handovers
  }

  ghost predicate RepairedRound(e: Cluster, d: Cluster, i: Id, p: Id, log: seq<Entry>) {
    i in e.nodes && Repaired(d, p, log, e.nodes[i].commitIndex)
  }

  ghost function AfterRepair(i: Id, p: Id, log: seq<Entry>): (Cluster, Cluster) -> bool {
    (e: Cluster, d: Cluster) => RepairedRound(e, d, i, p, log)
  }

  lemma {:induction false} AcceptedNodes(c: Cluster, i: Id, p: Id)
    requires Paired(c, i, p) && RoundAnswer(c, i, p).success
    ensures var c' := Round(c, i, p);
            && p in c'.nodes && c'.nodes[p].id == p && c.nodes[i].log <= c'.nodes[p].log
            && c.nodes[i].commitIndex <= c'.nodes[p].commitIndex
  {
    SuccessRepairs(c, i, p);
    SuccessCommits(c, i, p);
    RoundNodes(c, i, p);
    AppendHandled(c.nodes[p], RoundRequest(c, i, p).request);
  }

  lemma {:induction false} AcceptedRound(c: Cluster, i: Id, p: Id)
    requires Paired(c, i, p) && RoundAnswer(c, i, p).success
    ensures RepairedRound(c, Round(c, i, p), i, p, c.nodes[i].log)
  {
    AcceptedNodes(c, i, p);
    RoundKeepsPrompt(c, i, p);
    HandedUpTo(Round(c, i, p), p, c.nodes[i].log, c.nodes[i].commitIndex);
  }

  lemma {:induction false} HandedUpTo(c: Cluster, p: Id, log: seq<Entry>, commit: nat)
    requires p in c.nodes && c.nodes[p].id == p && Prompt(c)
    requires log <= c.nodes[p].log && commit <= c.nodes[p].commitIndex
    ensures Repaired(c, p, log, commit)
  {
    assert Serves(c, c.nodes[p]);
  }

  /** A round leaves the pair steady, and repairs the follower or lowers the next index, which is at least 1. */
  lemma {:induction false} RoundProgress(c: Cluster, i: Id, p: Id, t: nat, log: seq<Entry>)
    requires c in SteadyStates(i, p, t, log)
    ensures Progresses(SteadyStates(i, p, t, log), AfterRepair(i, p, log), NextRound(i, p), Attempts(i, p), c)
  {
    RoundPaired(c, i, p);
    assert NextRound(i, p)(c) == Round(c, i, p);
    if RoundAnswer(c, i, p).success {
      AcceptedRound(c, i, p);
    }
  }

  lemma {:induction false} RoundsProgress(i: Id, p: Id, t: nat, log: seq<Entry>)
    ensures AlwaysProgresses(SteadyStates(i, p, t, log), AfterRepair(i, p, log), NextRound(i, p), Attempts(i, p))
  {
    forall x | x in SteadyStates(i, p, t, log)
      ensures Progresses(SteadyStates(i, p, t, log), AfterRepair(i, p, log), NextRound(i, p), Attempts(i, p), x)
    {
      RoundProgress(x, i, p, t, log);
    }
  }

  lemma {:induction false} RepairRounds(c: Cluster, i: Id, p: Id, t: nat, log: seq<Entry>) returns (k: nat)
    requires c in SteadyStates(i, p, t, log)
    ensures 1 <= k <= Attempts(i, p)(c)
    ensures Iterate(NextRound(i, p), c, k - 1) in SteadyStates(i, p, t, log)
    ensures Iterate(NextRound(i, p), c, k) in SteadyStates(i, p, t, log)
    ensures AfterRepair(i, p, log)(Iterate(NextRound(i, p), c, k - 1), Iterate(NextRound(i, p), c, k))
  {
    RoundsProgress(i, p, t, log);
    k := Descend(SteadyStates(i, p, t, log), AfterRepair(i, p, log), NextRound(i, p), Attempts(i, p), c);
  }

  /**
   After at most `NextFor` rounds the leader, still leading its term with the same log, has that log as a prefix
   of the follower's; and what the leader had committed when the last round began the follower has committed
   and handed over.
   */
  lemma {:induction false} RepairTerminates(c: Cluster, i: Id, p: Id) returns (k: nat)
    requires Paired(c, i, p)
    ensures 1 <= k <= NextFor(c.nodes[i], p)
    ensures var e, d := Iterate(NextRound(i, p), c, k - 1), Iterate(NextRound(i, p), c, k);
            && Steady(e, i, p, c.nodes[i].currentTerm, c.nodes[i].log)
            && Steady(d, i, p, c.nodes[i].currentTerm, c.nodes[i].log)
            && Repaired(d, p, c.nodes[i].log, e.nodes[i].commitIndex)
  {
    k := RepairRounds(c, i, p, c.nodes[i].currentTerm, c.nodes[i].log);
  }
}
