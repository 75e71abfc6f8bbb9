/**
 Commands get through: from every state of every run, a node whose log is not behind those of a quorum can be
 elected, and what a client then proposes to it is committed and handed over on that whole quorum, with no
 other steps than those between the node and the quorum.
 */
module RaftProgress {
  import opened Bytes
  import opened RaftTypes
  import opened RaftHandlers
  import opened RaftExact
  import opened RaftCluster
  import opened RaftElection
  import opened RaftLogs
  import opened RaftRetention
  import opened RaftCommit
  import opened RaftSafety
  import opened RaftDelivery
  import opened RaftRepair

  // ---- paths ----

  ghost predicate Takes(c: Cluster, step: Step, d: Cluster) {
    Enabled(c, step) && d == Exec(c, step)
  }

  ghost predicate IsPath(path: seq<Cluster>, steps: seq<Step>) {
    && |path| == |steps| + 1
    && forall k {:trigger steps[k]} :: 0 <= k < |steps| ==> Takes(path[k], steps[k], path[k + 1])
  }

  /** The steps lead from `c` to `d`. */
  ghost predicate Reaches(c: Cluster, steps: seq<Step>, d: Cluster) {
    exists path :: IsPath(path, steps) && path[0] == c && path[|steps|] == d
  }

  ghost predicate Reachable(members: set<Id>, c: Cluster) {
    exists run, steps :: IsRun(members, run, steps) && run[|steps|] == c
  }

  lemma {:induction false} ReachesOne(c: Cluster, step: Step)
    requires Enabled(c, step)
    ensures Reaches(c, [step], Exec(c, step))
  {
    var path := [c, Exec(c, step)];
    assert Takes(c, step, Exec(c, step));
    assert IsPath(path, [step]);
  }

  lemma {:induction false} ReachesNone(c: Cluster)
    ensures Reaches(c, [], c)
  {
    assert IsPath([c], []);
  }

  lemma {:induction false} ReachesOn(c: Cluster, s: seq<Step>, d: Cluster, t: seq<Step>, e: Cluster)
    requires Reaches(c, s, d) && Reaches(d, t, e)
    ensures Reaches(c, s + t, e)
  {
    var p :| IsPath(p, s) && p[0] == c && p[|s|] == d;
    var q :| IsPath(q, t) && q[0] == d && q[|t|] == e;
    PathOn(p, s, q, t);
    assert (p + q[1..])[|s + t|] == e;
  }

  lemma {:induction false} PathOn(p: seq<Cluster>, s: seq<Step>, q: seq<Cluster>, t: seq<Step>)
    requires IsPath(p, s) && IsPath(q, t) && p[|s|] == q[0]
    ensures IsPath(p + q[1..], s + t)
  {
    var path, steps := p + q[1..], s + t;
    forall k | 0 <= k < |steps|
      ensures Takes(path[k], steps[k], path[k + 1])
    {
      if k < |s| {
        assert steps[k] == s[k] && path[k] == p[k] && path[k + 1] == p[k + 1];
      } else {
        assert steps[k] == t[k - |s|] && path[k] == q[k - |s|] && path[k + 1] == q[k - |s| + 1];
      }
    }
  }

  lemma {:induction false} RunIsPath(members: set<Id>, run: seq<Cluster>, steps: seq<Step>)
    ensures IsRun(members, run, steps) <==> IsPath(run, steps) && run[0] == Init(members)
  {
    if IsPath(run, steps) && run[0] == Init(members) {
      forall k | 0 <= k < |steps|
        ensures Enabled(run[k], steps[k]) && run[k + 1] == Exec(run[k], steps[k])
      {
        assert Takes(run[k], steps[k], run[k + 1]);
      }
    }
  }

  /** A run goes on along a path from its last state. */
  lemma {:induction false} RunOn(members: set<Id>, run: seq<Cluster>, steps: seq<Step>, more: seq<Step>, d: Cluster)
    returns (run': seq<Cluster>)
    requires IsRun(members, run, steps) && Reaches(run[|steps|], more, d)
    ensures IsRun(members, run', steps + more) && run <= run' && run'[|steps + more|] == d
  {
    var q :| IsPath(q, more) && q[0] == run[|steps|] && q[|more|] == d;
    run' := run + q[1..];
    RunIsPath(members, run, steps);
    PathOn(run, steps, q, more);
    RunIsPath(members, run', steps + more);
  }

  lemma {:induction false} StillReachable(members: set<Id>, c: Cluster, steps: seq<Step>, d: Cluster)
    requires Reachable(members, c) && Reaches(c, steps, d)
    ensures Reachable(members, d)
  {
    var run, done :| IsRun(members, run, done) && run[|done|] == c;
    var run' := RunOn(members, run, done, steps, d);
  }

  lemma {:induction false} ReachableFacts(members: set<Id>, c: Cluster)
    requires NOBODY !in members && Reachable(members, c)
    ensures Inv(c) && Prompt(c) && c.members == members
  {
    var run, steps :| IsRun(members, run, steps) && run[|steps|] == c;
    RunInv(members, run, steps, |steps|);
    RunServes(members, run, steps, |steps|);
    MembersInRuns(members, run, steps, |steps|);
  }

  /** What every reachable state has. */
  ghost predicate Formed(members: set<Id>, c: Cluster) {
    && c.members == members && c.nodes.Keys == members
    && forall i :: i in c.nodes ==>
         c.nodes[i].id == i && WellIndexed(c.nodes[i].log) && c.nodes[i].commitIndex < |c.nodes[i].log|
  }

  lemma {:induction false} FormedFacts(members: set<Id>, c: Cluster)
    requires NOBODY !in members && Reachable(members, c)
    ensures Formed(members, c)
  {
    ReachableFacts(members, c);
    forall i | i in c.nodes
      ensures WellIndexed(c.nodes[i].log) && c.nodes[i].commitIndex < |c.nodes[i].log|
    {
      assert NodeLogOk(c.reigns, c.members, c.nodes[i]) && NodeCommitOk(c, c.nodes[i]);
    }
  }

  // ---- undisturbed steps ----

  /** The step concerns `i` and the nodes of `vs` only, and proposes nothing but `data`. */
  predicate Among(step: Step, i: Id, vs: set<Id>, data: seq<byte>) {
    match step
    case Timeout(j) => j == i
    case ReceiveVoteRequest(v, q) => v in vs && q.candidate == i
    case ReceiveVoteReply(r) => r.voter in vs && r.request.candidate == i
    case WinElection(j) => j == i
    case ClientProposal(j, d) => j == i && d == data
    case SendAppend(j, v) => j == i && v in vs
    case ReceiveAppend(a) => a.to in vs && a.request.leader == i
    case ReceiveAppendReply(r) => r.append.to in vs && r.append.request.leader == i
    case CrashAndRestart(_) => false
    case CrashInHandler(_, _) => false
  }

  ghost predicate Undisturbed(steps: seq<Step>, i: Id, vs: set<Id>, data: seq<byte>) {
    forall k :: 0 <= k < |steps| ==> Among(steps[k], i, vs, data)
  }

  /** Undisturbed steps that lead from `c` to `d`. */
  ghost predicate Course(c: Cluster, steps: seq<Step>, d: Cluster, i: Id, vs: set<Id>, data: seq<byte>) {
    Reaches(c, steps, d) && Undisturbed(steps, i, vs, data)
  }

  lemma {:induction false} CourseNone(c: Cluster, i: Id, vs: set<Id>, data: seq<byte>)
    ensures Course(c, [], c, i, vs, data)
  {
    ReachesNone(c);
  }

  lemma {:induction false} CourseOne(c: Cluster, step: Step, i: Id, vs: set<Id>, data: seq<byte>)
    requires Enabled(c, step) && Among(step, i, vs, data)
    ensures Course(c, [step], Exec(c, step), i, vs, data)
  {
    ReachesOne(c, step);
  }

  lemma {:induction false} CourseOn(
    c: Cluster, s: seq<Step>, d: Cluster, t: seq<Step>, e: Cluster, i: Id, vs: set<Id>, data: seq<byte>)
    requires Course(c, s, d, i, vs, data) && Course(d, t, e, i, vs, data)
    ensures Course(c, s + t, e, i, vs, data)
  {
    ReachesOn(c, s, d, t, e);
    UndisturbedOn(s, t, i, vs, data);
  }

  lemma {:induction false} UndisturbedOn(s: seq<Step>, t: seq<Step>, i: Id, vs: set<Id>, data: seq<byte>)
    requires Undisturbed(s, i, vs, data) && Undisturbed(t, i, vs, data)
    ensures Undisturbed(s + t, i, vs, data)
  {}

  // ---- the election ----

  /** The last entry of `a` is of a later term than that of `b`, or of the same and `a` is no shorter. */
  ghost predicate NoOlder(a: seq<Entry>, b: seq<Entry>) {
    && a != [] && b != []
    && (a[|a| - 1].term > b[|b| - 1].term || (a[|a| - 1].term == b[|b| - 1].term && |a| >= |b|))
  }

  /** `i` can win the votes of `vs`: its next term is new to them, and their logs are no newer than its own. */
  ghost predicate Electable(c: Cluster, i: Id, vs: set<Id>) {
    && CanTimeout(c, i) && vs <= c.members - {i}
    && forall v :: v in vs ==>
         v in c.nodes && c.nodes[v].currentTerm <= c.nodes[i].currentTerm && NoOlder(c.nodes[i].log, c.nodes[v].log)
  }

  ghost function BallotOf(n: NodeState): VoteRequest
    requires n.log != []
  {
    VoteRequest(n.currentTerm + 1, n.id, n.log[|n.log| - 1].index, n.log[|n.log| - 1].term)
  }

  /** From `c` to `d`, node `i` stood for election and has the votes of exactly the nodes of `done`. */
  ghost predicate Polled(c: Cluster, d: Cluster, i: Id, done: set<Id>)
    requires i in c.nodes && c.nodes[i].log != []
  {
    var n, t := c.nodes[i], c.nodes[i].currentTerm + 1;
    && d.members == c.members && d.nodes.Keys == c.nodes.Keys && BallotOf(n) in d.voteRequests
    && d.nodes[i] == n.(role := Candidate, currentTerm := t, votedFor := i, votes := done,
                        disk := Durable(t, i, n.log))
    && forall v :: v in c.nodes && v != i ==>
         if v in done then d.nodes[v].currentTerm == t && d.nodes[v].log == c.nodes[v].log
         else d.nodes[v] == c.nodes[v]
  }

  lemma {:induction false} Stand(members: set<Id>, c: Cluster, i: Id) returns (d: Cluster)
    requires Formed(members, c) && CanTimeout(c, i)
    ensures d == AfterTimeout(c, i) && Polled(c, d, i, {})
  {
    d := AfterTimeout(c, i);
  }

  lemma {:induction false} Grant(c: Cluster, d: Cluster, i: Id, v: Id, done: set<Id>)
    requires i in c.nodes && c.nodes[i].log != [] && Polled(c, d, i, done)
    requires v in c.nodes && v != i && v !in done && c.nodes[v].id == v && c.nodes[i].id == i
    requires WellIndexed(c.nodes[i].log) && WellIndexed(c.nodes[v].log)
    requires c.nodes[v].currentTerm <= c.nodes[i].currentTerm && NoOlder(c.nodes[i].log, c.nodes[v].log)
    ensures var q := BallotOf(c.nodes[i]);
            var r := VoteReply(v, q, VoteAnswer(q.term, true), c.nodes[v].log);
            var e := AfterVoteRequest(d, v, q);
            && CanVote(d, v, q) && r in e.voteReplies && e.voteRequests == d.voteRequests
            && e.members == d.members && e.nodes.Keys == d.nodes.Keys
            && (forall j :: j in d.nodes && j != v ==> e.nodes[j] == d.nodes[j])
            && e.nodes[v].currentTerm == q.term && e.nodes[v].log == c.nodes[v].log
  {
    VoteExactly(c.nodes[v], BallotOf(c.nodes[i]));
  }

  lemma {:induction false} Count(c: Cluster, d: Cluster, e: Cluster, i: Id, v: Id, done: set<Id>, r: VoteReply)
    requires i in c.nodes && c.nodes[i].log != [] && c.nodes[i].id == i && Polled(c, d, i, done)
    requires v in c.nodes && v != i && r.voter == v && r.request == BallotOf(c.nodes[i])
    requires r.answer == VoteAnswer(r.request.term, true)
    requires e.voteRequests == d.voteRequests && e.members == d.members && e.nodes.Keys == d.nodes.Keys
    requires forall j :: j in d.nodes && j != v ==> e.nodes[j] == d.nodes[j]
    requires e.nodes[v].currentTerm == r.request.term && e.nodes[v].log == c.nodes[v].log
    ensures Polled(c, AfterVoteReply(e, r), i, done + {v})
  {
    var n := e.nodes[i];
    VoteCountedExactly(n, r.request.term, v, r.answer);
    var n' := HandleVoteAnswer(n, r.request.term, v, r.answer);
    assert n'.votes == done + {v};
    assert AfterVoteReply(e, r).nodes == e.nodes[i := n'];
  }

  /** One more vote: the request is handled, and the answer is counted. */
  lemma {:induction false} Ask(
    members: set<Id>, c: Cluster, d: Cluster, i: Id, v: Id, done: set<Id>, vs: set<Id>, data: seq<byte>)
    returns (steps: seq<Step>, f: Cluster)
    requires Formed(members, c) && Electable(c, i, vs) && v in vs && v !in done && Polled(c, d, i, done)
    ensures Course(d, steps, f, i, vs, data) && Polled(c, f, i, done + {v})
  {
    var q := BallotOf(c.nodes[i]);
    var r := VoteReply(v, q, VoteAnswer(q.term, true), c.nodes[v].log);
    var e := AfterVoteRequest(d, v, q);
    Grant(c, d, i, v, done);
    Count(c, d, e, i, v, done, r);
    f := AfterVoteReply(e, r);
    steps := AskSteps(d, e, q, r, i, vs, data);
  }

  lemma {:induction false} AskSteps(
    d: Cluster, e: Cluster, q: VoteRequest, r: VoteReply, i: Id, vs: set<Id>, data: seq<byte>)
    returns (steps: seq<Step>)
    requires CanVote(d, r.voter, q) && e == AfterVoteRequest(d, r.voter, q) && CanCount(e, r)
    requires q.candidate == i && r.request == q && r.voter in vs
    ensures Course(d, steps, AfterVoteReply(e, r), i, vs, data)
  {
    CourseOne(d, ReceiveVoteRequest(r.voter, q), i, vs, data);
    CourseOne(e, ReceiveVoteReply(r), i, vs, data);
    steps := [ReceiveVoteRequest(r.voter, q)] + [ReceiveVoteReply(r)];
    CourseOn(d, [ReceiveVoteRequest(r.voter, q)], e, [ReceiveVoteReply(r)], AfterVoteReply(e, r), i, vs, data);
  }

  lemma {:induction false} Poll(
    members: set<Id>, c: Cluster, d: Cluster, i: Id, done: set<Id>, vs: set<Id>, data: seq<byte>)
    returns (steps: seq<Step>, f: Cluster)
    requires Formed(members, c) && Electable(c, i, vs) && done <= vs && Polled(c, d, i, done)
    ensures Course(d, steps, f, i, vs, data) && Polled(c, f, i, vs)
    decreases |vs - done|
  {
    if done == vs {
      steps, f := [], d;
      CourseNone(d, i, vs, data);
    } else {
      var v := OneMore(done, vs);
      var first, e := Ask(members, c, d, i, v, done, vs, data);
      var rest;
      rest, f := Poll(members, c, e, i, done + {v}, vs, data);
      steps := first + rest;
      CourseOn(d, first, e, rest, f, i, vs, data);
    }
  }

  lemma {:induction false} OneMore(done: set<Id>, vs: set<Id>) returns (v: Id)
    requires done <= vs && done != vs
    ensures v in vs && v !in done && done + {v} <= vs && |vs - (done + {v})| < |vs - done|
  {
    assert !(vs <= done);
    v :| v in vs && v !in done;
    assert vs - done == (vs - (done + {v})) + {v};
  }

  /** Electability: standing, asking a quorum and counting its answers is enough to win. */
  lemma {:induction false} CanBeElected(members: set<Id>, c: Cluster, i: Id, vs: set<Id>, data: seq<byte>)
    returns (steps: seq<Step>, d: Cluster)
    requires NOBODY !in members && Reachable(members, c) && Electable(c, i, vs) && |vs| + 1 >= Quorum(members)
    ensures Course(c, steps, d, i, vs, data) && CanWin(d, i)
    ensures c.nodes[i].log != [] && Polled(c, d, i, vs)
  {
    FormedFacts(members, c);
    var e := Stand(members, c, i);
    var rest;
    rest, d := Poll(members, c, e, i, {}, vs, data);
    steps := [Timeout(i)] + rest;
    CourseOne(c, Timeout(i), i, vs, data);
    CourseOn(c, [Timeout(i)], e, rest, d, i, vs, data);
  }

  // ---- taking office and proposing ----

  /**
   Node `i` leads term `t` with `log`; the nodes of `done` have that log and are known to; for the others
   there is still something to send.
   */
  ghost predicate Replicating(c: Cluster, i: Id, vs: set<Id>, t: nat, log: seq<Entry>, done: set<Id>) {
    && Leads(c, i) && c.nodes[i].currentTerm == t && c.nodes[i].log == log && WellIndexed(log)
    && i !in vs && done <= vs <= c.nodes.Keys && log[|log| - 1].term == t
    && forall v :: v in vs ==> Tracks(c.nodes[i], c.nodes[v], v, log, v in done)
  }

  ghost predicate Tracks(n: NodeState, f: NodeState, v: Id, log: seq<Entry>, done: bool) {
    && f.currentTerm <= n.currentTerm && v in n.nextIndex
    && if done then n.nextIndex[v] == |log| && v in n.matchIndex && n.matchIndex[v] == |log| - 1 && log <= f.log
       else 1 <= n.nextIndex[v] < |log|
  }

  lemma {:induction false} TakesOffice(c: Cluster, i: Id)
    requires CanWin(c, i) && c.nodes[i].id == i && WellIndexed(c.nodes[i].log)
    ensures var d := AfterWin(c, i);
            var n, n' := c.nodes[i], d.nodes[i];
            && Leads(d, i) && n'.currentTerm == n.currentTerm && n'.log == n.log && n'.id == i
            && d.nodes.Keys == c.nodes.Keys && d.members == c.members
            && (forall j :: j in c.nodes && j != i ==> d.nodes[j] == c.nodes[j])
            && (forall v :: v in c.members - {i} ==> v in n'.nextIndex && n'.nextIndex[v] == |n.log|)
  {}

  lemma {:induction false} Proposes(c: Cluster, i: Id, data: seq<byte>)
    requires Leads(c, i) && c.nodes[i].id == i && WellIndexed(c.nodes[i].log)
    ensures var d := AfterProposal(c, i, data);
            var n, n' := c.nodes[i], d.nodes[i];
            && Leads(d, i) && n'.currentTerm == n.currentTerm && n'.nextIndex == n.nextIndex
            && n'.log == n.log + [Entry(|n.log|, n.currentTerm, data)]
            && d.nodes.Keys == c.nodes.Keys && d.members == c.members
            && (forall j :: j in c.nodes && j != i ==> d.nodes[j] == c.nodes[j])
  {}

  /** The winner takes office and takes the client's proposal. */
  lemma {:induction false} Begin(c: Cluster, d: Cluster, i: Id, vs: set<Id>, data: seq<byte>)
    returns (steps: seq<Step>, f: Cluster)
    requires i in c.nodes && WellIndexed(c.nodes[i].log) && c.nodes[i].id == i && c.nodes.Keys == c.members
    requires vs <= c.members - {i} && Polled(c, d, i, vs) && CanWin(d, i)
    ensures Course(d, steps, f, i, vs, data)
    ensures var t, log := c.nodes[i].currentTerm + 1, c.nodes[i].log;
            Replicating(f, i, vs, t, log + [Entry(|log|, t, data)], {})
  {
    f := AfterProposal(AfterWin(d, i), i, data);
    TakesOffice(d, i);
    Proposes(AfterWin(d, i), i, data);
    steps := BeginSteps(d, i, vs, data);
    Begun(f, i, vs, c.nodes[i].currentTerm + 1, c.nodes[i].log, data);
  }

  lemma {:induction false} Begun(f: Cluster, i: Id, vs: set<Id>, t: nat, log: seq<Entry>, data: seq<byte>)
    requires Leads(f, i) && f.nodes[i].currentTerm == t && f.nodes[i].log == log + [Entry(|log|, t, data)]
    requires WellIndexed(log) && i !in vs && vs <= f.nodes.Keys
    requires forall v :: v in vs ==>
      f.nodes[v].currentTerm <= t && v in f.nodes[i].nextIndex && f.nodes[i].nextIndex[v] == |log|
    ensures Replicating(f, i, vs, t, log + [Entry(|log|, t, data)], {})
  {
    forall v | v in vs
      ensures Tracks(f.nodes[i], f.nodes[v], v, log + [Entry(|log|, t, data)], false)
    {
    }
  }

  lemma {:induction false} BeginSteps(d: Cluster, i: Id, vs: set<Id>, data: seq<byte>) returns (steps: seq<Step>)
    requires CanWin(d, i) && Leads(AfterWin(d, i), i)
    ensures Course(d, steps, AfterProposal(AfterWin(d, i), i, data), i, vs, data)
  {
    var e := AfterWin(d, i);
    CourseOne(d, WinElection(i), i, vs, data);
    CourseOne(e, ClientProposal(i, data), i, vs, data);
    steps := [WinElection(i)] + [ClientProposal(i, data)];
    CourseOn(d, [WinElection(i)], e, [ClientProposal(i, data)], AfterProposal(e, i, data), i, vs, data);
  }

  // ---- rounds ----

  /** What one round between leader `i` and `p` leaves. */
  ghost predicate Rounded(c: Cluster, d: Cluster, i: Id, p: Id, success: bool)
    requires i in c.nodes && p in c.nodes && p in c.nodes[i].nextIndex
  {
    && d.nodes.Keys == c.nodes.Keys && (forall j :: j in c.nodes && j != i && j != p ==> d.nodes[j] == c.nodes[j])
    && Records(c.nodes[i], d.nodes[i], p, success) && Receives(c.nodes[i], d.nodes[p], success)
    && (!success ==> c.nodes[i].nextIndex[p] > 1)
  }

  ghost predicate Receives(n: NodeState, f: NodeState, success: bool) {
    f.currentTerm == n.currentTerm && (success ==> n.log <= f.log && n.commitIndex <= f.commitIndex)
  }

  lemma {:induction false} PairedIn(members: set<Id>, c: Cluster, i: Id, p: Id)
    requires NOBODY !in members && Reachable(members, c) && Leads(c, i) && p in c.nodes && p != i
    requires c.nodes[p].currentTerm <= c.nodes[i].currentTerm
    ensures Paired(c, i, p) && CanSend(c, i, p) && WellIndexed(c.nodes[i].log)
  {
    ReachableFacts(members, c);
    assert NodeLogOk(c.reigns, c.members, c.nodes[i]);
  }

  lemma {:induction false} RoundReceived(c: Cluster, i: Id, p: Id)
    requires Paired(c, i, p)
    ensures var success := RoundAnswer(c, i, p).success;
            && Receives(c.nodes[i], HandleAppend(c.nodes[p], RoundRequest(c, i, p).request).0, success)
            && (!success ==> NextFor(c.nodes[i], p) > 1)
  {
    SuccessRepairs(c, i, p);
    if RoundAnswer(c, i, p).success {
      SuccessCommits(c, i, p);
    }
  }

  lemma {:induction false} RoundRecorded(c: Cluster, i: Id, p: Id)
    requires Apart(c, i, p) && Leads(c, i) && WellIndexed(c.nodes[i].log)
    requires c.nodes[p].currentTerm <= c.nodes[i].currentTerm
    requires p in c.nodes[i].nextIndex && 1 <= c.nodes[i].nextIndex[p] <= |c.nodes[i].log|
    ensures Records(c.nodes[i], HandleAppendAnswer(c.nodes[i], p, RoundRequest(c, i, p).request, RoundAnswer(c, i, p),
                                                   Peers(c, i), Quorum(c.members)).0,
                    p, RoundAnswer(c, i, p).success)
  {
    AppendAnsweredExactly(c.nodes[p], RoundRequest(c, i, p).request);
    LeaderRecords(c.nodes[i], p, RoundAnswer(c, i, p), Peers(c, i), Quorum(c.members));
  }

  lemma {:induction false} RoundExactly(c: Cluster, i: Id, p: Id)
    requires Paired(c, i, p) && WellIndexed(c.nodes[i].log)
    requires p in c.nodes[i].nextIndex && 1 <= c.nodes[i].nextIndex[p] <= |c.nodes[i].log|
    ensures Rounded(c, Round(c, i, p), i, p, RoundAnswer(c, i, p).success)
  {
    RoundNodes(c, i, p);
    RoundReceived(c, i, p);
    RoundRecorded(c, i, p);
  }

  lemma {:induction false} RoundCourse(c: Cluster, i: Id, p: Id, vs: set<Id>, data: seq<byte>)
    returns (steps: seq<Step>)
    requires Apart(c, i, p) && CanSend(c, i, p) && p in vs
    ensures Course(c, steps, Round(c, i, p), i, vs, data)
  {
    var a := RoundRequest(c, i, p);
    var sent := AfterSend(c, i, p);
    var handled := AfterAppend(sent, a);
    var reply := AppendReply(a, RoundAnswer(c, i, p));
    AppendNodes(sent, a);
    CourseOne(c, SendAppend(i, p), i, vs, data);
    CourseOne(sent, ReceiveAppend(a), i, vs, data);
    CourseOne(handled, ReceiveAppendReply(reply), i, vs, data);
    CourseOn(c, [SendAppend(i, p)], sent, [ReceiveAppend(a)], handled, i, vs, data);
    steps := [SendAppend(i, p)] + [ReceiveAppend(a)];
    CourseOn(c, steps, handled, [ReceiveAppendReply(reply)], Round(c, i, p), i, vs, data);
    steps := steps + [ReceiveAppendReply(reply)];
  }

  /** One round with `v`; if the log of `v` has the entry before what is sent, it is accepted. */
  lemma {:induction false} OneRound(members: set<Id>, c: Cluster, i: Id, v: Id, vs: set<Id>, data: seq<byte>)
    returns (steps: seq<Step>, d: Cluster, success: bool)
    requires NOBODY !in members && Reachable(members, c) && Leads(c, i) && v in c.nodes && v in vs && v != i
    requires c.nodes[v].currentTerm <= c.nodes[i].currentTerm
    requires v in c.nodes[i].nextIndex && 1 <= c.nodes[i].nextIndex[v] <= |c.nodes[i].log|
    ensures Course(c, steps, d, i, vs, data) && Reachable(members, d) && Rounded(c, d, i, v, success)
    ensures Follows(c.nodes[v], BuildAppend(c.nodes[i], v)) ==> success
  {
    PairedIn(members, c, i, v);
    RoundExactly(c, i, v);
    AppendAnsweredExactly(c.nodes[v], BuildAppend(c.nodes[i], v));
    d, success := Round(c, i, v), RoundAnswer(c, i, v).success;
    steps := RoundCourse(c, i, v, vs, data);
    StillReachable(members, c, steps, d);
  }

  // ---- stale terms ----

  /** A leader that sends to a node of a higher term learns that term from the refusal and steps down. */
  lemma {:induction false} StaleLeaderYields(c: Cluster, i: Id, p: Id)
    requires Apart(c, i, p) && Leads(c, i) && c.nodes[p].currentTerm > c.nodes[i].currentTerm
    ensures var n, n', t := c.nodes[i], Round(c, i, p).nodes[i], c.nodes[p].currentTerm;
            && n' == n.(currentTerm := t, role := Follower, votedFor := NOBODY, disk := Durable(t, NOBODY, n.log))
            && Round(c, i, p).nodes[p] == c.nodes[p]
  {
    var q := RoundRequest(c, i, p).request;
    RoundNodes(c, i, p);
    AppendHandled(c.nodes[p], q);
    AppendAnsweredExactly(c.nodes[p], q);
    LearnsExactly(c.nodes[i], p, q, RoundAnswer(c, i, p), Peers(c, i), Quorum(c.members));
  }

  /** A candidate that asks a node of a higher term is refused, learns that term and gives up. */
  lemma {:induction false} StaleCandidateYields(c: Cluster, i: Id, p: Id, q: VoteRequest)
    requires Apart(c, i, p) && CanVote(c, p, q) && q.candidate == i && c.nodes[p].log != []
    requires q.term <= c.nodes[i].currentTerm < c.nodes[p].currentTerm
    ensures var t, n := c.nodes[p].currentTerm, c.nodes[i];
            var r := VoteReply(p, q, VoteAnswer(t, false), c.nodes[p].log);
            var d := AfterVoteRequest(c, p, q);
            && d.nodes == c.nodes && CanCount(d, r)
            && AfterVoteReply(d, r).nodes[i] == n.(currentTerm := t, role := Follower, votedFor := NOBODY,
                                                   disk := Durable(t, NOBODY, n.log))
  {
    var r := VoteReply(p, q, VoteAnswer(c.nodes[p].currentTerm, false), c.nodes[p].log);
    VoteExactly(c.nodes[p], q);
    VoteCountedExactly(c.nodes[i], q.term, p, r.answer);
  }

  // ---- replicating ----

  lemma {:induction false} Brought(
    c: Cluster, d: Cluster, i: Id, vs: set<Id>, t: nat, log: seq<Entry>, done: set<Id>, v: Id, success: bool)
    requires Replicating(c, i, vs, t, log, done) && v in vs && v !in done && Rounded(c, d, i, v, success)
    ensures Replicating(d, i, vs, t, log, if success then done + {v} else done)
    ensures !success ==> d.nodes[i].nextIndex[v] < c.nodes[i].nextIndex[v]
  {
    var done' := if success then done + {v} else done;
    forall w | w in vs
      ensures Tracks(d.nodes[i], d.nodes[w], w, log, w in done')
    {
      assert Tracks(c.nodes[i], c.nodes[w], w, log, w in done);
    }
  }

  /** Rounds with `v` until it has the log. */
  lemma {:induction false} Bring(
    members: set<Id>, c: Cluster, i: Id, vs: set<Id>, t: nat, log: seq<Entry>, done: set<Id>, v: Id, data: seq<byte>)
    returns (steps: seq<Step>, d: Cluster)
    requires NOBODY !in members && Reachable(members, c)
    requires Replicating(c, i, vs, t, log, done) && v in vs && v !in done
    ensures Course(c, steps, d, i, vs, data) && Reachable(members, d)
    ensures Replicating(d, i, vs, t, log, done + {v})
    decreases c.nodes[i].nextIndex[v]
  {
    assert Tracks(c.nodes[i], c.nodes[v], v, log, false);
    var success;
    steps, d, success := OneRound(members, c, i, v, vs, data);
    Brought(c, d, i, vs, t, log, done, v, success);
    if !success {
      var first, e := steps, d;
      var rest;
      rest, d := Bring(members, e, i, vs, t, log, done, v, data);
      steps := first + rest;
      CourseOn(c, first, e, rest, d, i, vs, data);
    }
  }

  /** Every node of the quorum has the log, and the leader knows it. */
  lemma {:induction false} BringAll(
    members: set<Id>, c: Cluster, i: Id, vs: set<Id>, t: nat, log: seq<Entry>, done: set<Id>, data: seq<byte>)
    returns (steps: seq<Step>, d: Cluster)
    requires NOBODY !in members && Reachable(members, c) && Replicating(c, i, vs, t, log, done)
    ensures Course(c, steps, d, i, vs, data) && Reachable(members, d) && Replicating(d, i, vs, t, log, vs)
    decreases |vs - done|
  {
    if done == vs {
      steps, d := [], c;
      CourseNone(c, i, vs, data);
    } else {
      var v := OneMore(done, vs);
      var first, e := Bring(members, c, i, vs, t, log, done, v, data);
      var rest;
      rest, d := BringAll(members, e, i, vs, t, log, done + {v}, data);
      steps := first + rest;
      CourseOn(c, first, e, rest, d, i, vs, data);
    }
  }

  // ---- committing ----

  /** The leader has then committed all of its log. */
  lemma {:induction false} AllCommitted(members: set<Id>, c: Cluster, i: Id, vs: set<Id>, t: nat, log: seq<Entry>)
    requires NOBODY !in members && Reachable(members, c) && Replicating(c, i, vs, t, log, vs)
    requires vs != {} && |vs| + 1 >= Quorum(members)
    ensures c.nodes[i].commitIndex == |log| - 1
  {
    FormedFacts(members, c);
    CaughtUpIn(members, c, i);
    AllMatch(c, i, vs, t, log);
    CountsAll(c.nodes[i], members - {i}, vs, Quorum(members), |log| - 1);
  }

  lemma {:induction false} AllMatch(c: Cluster, i: Id, vs: set<Id>, t: nat, log: seq<Entry>)
    requires Replicating(c, i, vs, t, log, vs)
    ensures forall v :: v in vs ==> v in c.nodes[i].matchIndex && c.nodes[i].matchIndex[v] >= |log| - 1
  {
    forall v | v in vs
      ensures v in c.nodes[i].matchIndex && c.nodes[i].matchIndex[v] >= |log| - 1
    {
      assert Tracks(c.nodes[i], c.nodes[v], v, log, true);
    }
  }

  lemma {:induction false} CaughtUpIn(members: set<Id>, c: Cluster, i: Id)
    requires NOBODY !in members && Reachable(members, c) && i in c.nodes
    ensures CaughtUp(c.nodes[i], members - {i}, Quorum(members))
  {
    ReachableFacts(members, c);
    assert Serves(c, c.nodes[i]);
  }

  lemma {:induction false} CountsAll(n: NodeState, peers: set<Id>, vs: set<Id>, quorum: nat, k: nat)
    requires CaughtUp(n, peers, quorum) && n.role == Leader && vs != {} && vs <= peers && |vs| + 1 >= quorum
    requires k < |n.log| && n.log[k].term == n.currentTerm
    requires forall v :: v in vs ==> v in n.matchIndex && n.matchIndex[v] >= k
    ensures n.commitIndex >= k
  {
    var matching := set p | p in peers && p in n.matchIndex && n.matchIndex[p] >= k;
    assert vs <= matching;
    SubsetSize(vs, matching);
    var v :| v in vs;
    assert Known(n, peers, k);
    assert Countable(n, peers, quorum, k);
  }

  // ---- telling the followers ----

  /** The nodes of `told` have committed the whole log, as the leader has. */
  ghost predicate Telling(c: Cluster, i: Id, vs: set<Id>, t: nat, log: seq<Entry>, told: set<Id>) {
    && Replicating(c, i, vs, t, log, vs) && c.nodes[i].commitIndex == |log| - 1 && told <= vs
    && forall v :: v in told ==> c.nodes[v].commitIndex >= |log| - 1
  }

  lemma {:induction false} WillFollow(n: NodeState, f: NodeState, v: Id, log: seq<Entry>)
    requires n.log == log && log != [] && Tracks(n, f, v, log, true)
    ensures Follows(f, BuildAppend(n, v))
  {}

  lemma {:induction false} Told(
    c: Cluster, d: Cluster, i: Id, vs: set<Id>, t: nat, log: seq<Entry>, told: set<Id>, v: Id)
    requires Telling(c, i, vs, t, log, told) && v in vs && v !in told && Rounded(c, d, i, v, true)
    ensures Telling(d, i, vs, t, log, told + {v})
  {
    assert Tracks(c.nodes[i], c.nodes[v], v, log, true);
    forall w | w in vs
      ensures Tracks(d.nodes[i], d.nodes[w], w, log, true)
    {
      assert Tracks(c.nodes[i], c.nodes[w], w, log, true);
    }
  }

  /** One more round with each node of the quorum. */
  lemma {:induction false} TellAll(
    members: set<Id>, c: Cluster, i: Id, vs: set<Id>, t: nat, log: seq<Entry>, told: set<Id>, data: seq<byte>)
    returns (steps: seq<Step>, d: Cluster)
    requires NOBODY !in members && Reachable(members, c) && Telling(c, i, vs, t, log, told)
    ensures Course(c, steps, d, i, vs, data) && Reachable(members, d) && Telling(d, i, vs, t, log, vs)
    decreases |vs - told|
  {
    if told == vs {
      steps, d := [], c;
      CourseNone(c, i, vs, data);
    } else {
      var v := OneMore(told, vs);
      assert Tracks(c.nodes[i], c.nodes[v], v, log, true);
      WillFollow(c.nodes[i], c.nodes[v], v, log);
      var first, e, success := OneRound(members, c, i, v, vs, data);
      Told(c, e, i, vs, t, log, told, v);
      var rest;
      rest, d := TellAll(members, e, i, vs, t, log, told + {v}, data);
      steps := first + rest;
      CourseOn(c, first, e, rest, d, i, vs, data);
    }
  }

  /** What a node has committed of this log it has handed over. */
  lemma {:induction false} HandedLast(members: set<Id>, c: Cluster, v: Id, log: seq<Entry>)
    requires NOBODY !in members && Reachable(members, c) && v in c.nodes
    requires |log| >= 2 && log <= c.nodes[v].log && |log| - 1 <= c.nodes[v].commitIndex
    ensures Handover(v, ApplyMsg(|log| - 1, log[|log| - 1].data)) in c.handovers
  {
    ReachableFacts(members, c);
    HandedUpTo(c, v, log, |log| - 1);
  }

  // ---- the whole course ----

  /** Everything the quorum does, from the state in which the leader has the proposal. */
  lemma {:induction false} Spread(
    members: set<Id>, c: Cluster, i: Id, vs: set<Id>, t: nat, log: seq<Entry>, data: seq<byte>)
    returns (steps: seq<Step>, d: Cluster)
    requires NOBODY !in members && Reachable(members, c) && Replicating(c, i, vs, t, log, {})
    requires vs != {} && |vs| + 1 >= Quorum(members)
    ensures Course(c, steps, d, i, vs, data) && Reachable(members, d) && Telling(d, i, vs, t, log, vs)
  {
    var first, e := BringAll(members, c, i, vs, t, log, {}, data);
    AllCommitted(members, e, i, vs, t, log);
    var rest;
    rest, d := TellAll(members, e, i, vs, t, log, {}, data);
    steps := first + rest;
    CourseOn(c, first, e, rest, d, i, vs, data);
  }

  /** Each of these nodes has put the message on its apply channel. */
  ghost predicate HandedOn(c: Cluster, nodes: set<Id>, msg: ApplyMsg) {
    forall v :: v in nodes ==> Handover(v, msg) in c.handovers
  }

  lemma {:induction false} AllHanded(
    members: set<Id>, c: Cluster, i: Id, vs: set<Id>, t: nat, log: seq<Entry>, data: seq<byte>)
    requires NOBODY !in members && Reachable(members, c) && log != []
    requires Telling(c, i, vs, t, log + [Entry(|log|, t, data)], vs)
    ensures HandedOn(c, vs + {i}, ApplyMsg(|log|, data))
  {
    var log' := log + [Entry(|log|, t, data)];
    forall v | v in vs + {i}
      ensures Handover(v, ApplyMsg(|log|, data)) in c.handovers
    {
      if v != i {
        assert Tracks(c.nodes[i], c.nodes[v], v, log', true);
      }
      HandedLast(members, c, v, log');
    }
  }

  /** From the election to the proposal. */
  lemma {:induction false} Launch(members: set<Id>, c: Cluster, i: Id, vs: set<Id>, data: seq<byte>)
    returns (steps: seq<Step>, d: Cluster)
    requires NOBODY !in members && Reachable(members, c) && Electable(c, i, vs) && |vs| + 1 >= Quorum(members)
    ensures Course(c, steps, d, i, vs, data) && Reachable(members, d) && c.nodes[i].log != []
    ensures var t, log := c.nodes[i].currentTerm + 1, c.nodes[i].log;
            Replicating(d, i, vs, t, log + [Entry(|log|, t, data)], {})
  {
    FormedFacts(members, c);
    var first, e := CanBeElected(members, c, i, vs, data);
    var rest;
    rest, d := Begin(c, e, i, vs, data);
    steps := first + rest;
    CourseOn(c, first, e, rest, d, i, vs, data);
    StillReachable(members, c, steps, d);
  }

  lemma {:induction false} GetsThrough(members: set<Id>, c: Cluster, i: Id, vs: set<Id>, data: seq<byte>)
    returns (steps: seq<Step>, d: Cluster)
    requires NOBODY !in members && Reachable(members, c) && Electable(c, i, vs)
    requires vs != {} && |vs| + 1 >= Quorum(members)
    ensures Course(c, steps, d, i, vs, data) && HandedOn(d, vs + {i}, ApplyMsg(|c.nodes[i].log|, data))
  {
    var t, log := c.nodes[i].currentTerm + 1, c.nodes[i].log;
    var first, e := Launch(members, c, i, vs, data);
    var rest;
    rest, d := Spread(members, e, i, vs, t, log + [Entry(|log|, t, data)], data);
    AllHanded(members, d, i, vs, t, log, data);
    steps := first + rest;
    CourseOn(c, first, e, rest, d, i, vs, data);
  }

  /**
   From every state of every run: if the logs of a quorum are no newer than that of node `i`, and its next term
   is new to them, then the run can go on, with steps between these nodes only, so that a command proposed to
   `i` is committed at the end of its log and handed over on each of them.
   */
  lemma {:induction false} CommandsGetThrough(
    members: set<Id>, run: seq<Cluster>, steps: seq<Step>, i: Id, vs: set<Id>, data: seq<byte>)
    returns (run': seq<Cluster>, more: seq<Step>)
    requires NOBODY !in members && IsRun(members, run, steps) && Electable(run[|steps|], i, vs)
    requires vs != {} && |vs| + 1 >= Quorum(members)
    ensures IsRun(members, run', steps + more) && run <= run' && Undisturbed(more, i, vs, data)
    ensures HandedOn(run'[|steps + more|], vs + {i}, ApplyMsg(|run[|steps|].nodes[i].log|, data))
  {
    assert Reachable(members, run[|steps|]);
    var d;
    more, d := GetsThrough(members, run[|steps|], i, vs, data);
    run' := RunOn(members, run, steps, more, d);
  }
}
