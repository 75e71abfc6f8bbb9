/**
 A cluster of Raft nodes as a step system.

 Every message ever sent stays available, so a run may lose, repeat and reorder
 messages at will.  An answer is kept with the request it answers, because the
 program handles an answer in the scope that built the request.

 `reigns`, the `voterLog` of a vote and `handovers` are history: no handler reads them.
 */
module RaftCluster {
  import opened Bytes
  import opened RaftTypes
  import opened RaftHandlers

  /** A vote answer, with the log the voter had when it answered. */
  datatype VoteReply = VoteReply(voter: Id, request: VoteRequest, answer: VoteAnswer, voterLog: seq<Entry>)

  datatype Append = Append(to: Id, request: AppendRequest)

  datatype AppendReply = AppendReply(append: Append, answer: AppendAnswer)

  /**
   The leadership of one term: who was elected, with which log, by whom (each voter
   with the log it voted with), and the longest log the leader had.
   */
  datatype Reign = Reign(leader: Id, base: seq<Entry>, log: seq<Entry>, voters: map<Id, seq<Entry>>)

  datatype Handover = Handover(node: Id, msg: ApplyMsg)

  datatype Cluster = Cluster(
    members: set<Id>,
    nodes: map<Id, NodeState>,
    voteRequests: set<VoteRequest>,
    voteReplies: set<VoteReply>,
    appends: set<Append>,
    appendReplies: set<AppendReply>,
    reigns: map<nat, Reign>,
    handovers: set<Handover>)

  datatype Step =
    | Timeout(id: Id)
    | ReceiveVoteRequest(id: Id, request: VoteRequest)
    | ReceiveVoteReply(voteReply: VoteReply)
    | WinElection(id: Id)
    | ClientProposal(id: Id, data: seq<byte>)
    | SendAppend(id: Id, to: Id)
    | ReceiveAppend(append: Append)
    | ReceiveAppendReply(appendReply: AppendReply)
    | CrashAndRestart(id: Id)
    | CrashInHandler(id: Id, term: nat)

  function Quorum(members: set<Id>): nat {
    |members| / 2 + 1
  }

  /** Any two quorums of one cluster share a member. */
  lemma QuorumsMeet(members: set<Id>, a: set<Id>, b: set<Id>) returns (common: Id)
    requires a <= members && b <= members
    requires |a| >= Quorum(members) && |b| >= Quorum(members)
    ensures common in a && common in b
  {
    if a * b == {} {
      assert |a + b| == |a| + |b|;
      SubsetSize(a + b, members);
      assert false;
    }
    common :| common in a * b;
  }

  /** A quorum is any majority, and nothing less. */
  lemma QuorumIsMajority(members: set<Id>, a: set<Id>)
    ensures |a| >= Quorum(members) <==> 2 * |a| > |members|
  {}

  lemma {:induction false} SubsetSize(a: set<Id>, b: set<Id>)
    requires a <= b
    ensures |a| <= |b|
  {
    assert b == a + (b - a);
  }

  function Init(members: set<Id>): Cluster {
    Cluster(members, map i | i in members :: Boot(i, BLANK), {}, {}, {}, {}, map[], {})
  }

  function Peers(c: Cluster, id: Id): set<Id> {
    c.members - {id}
  }

  function Update(c: Cluster, n: NodeState): Cluster {
    c.(nodes := c.nodes[n.id := n])
  }

  function Handed(id: Id, msgs: seq<ApplyMsg>): set<Handover> {
    set m | m in msgs :: Handover(id, m)
  }

  ghost predicate Granted(c: Cluster, voter: Id, candidate: Id, term: nat) {
    exists r :: r in c.voteReplies && GrantsTo(r, voter, candidate, term)
  }

  predicate GrantsTo(r: VoteReply, voter: Id, candidate: Id, term: nat) {
    r.answer.granted && r.voter == voter && r.request.candidate == candidate && r.request.term == term
  }

  /** The log with which `voter` voted for `candidate`. */
  ghost function VoterLog(c: Cluster, voter: Id, candidate: Id, term: nat): seq<Entry>
    requires Granted(c, voter, candidate, term)
  {
    var r :| r in c.voteReplies && GrantsTo(r, voter, candidate, term);
    r.voterLog
  }

  /** The electorate of a winner: itself and its tally, each with the log it voted with. */
  ghost function Electorate(c: Cluster, n: NodeState): map<Id, seq<Entry>> {
    map v | v in n.votes + {n.id} ::
      if v != n.id && Granted(c, v, n.id, n.currentTerm) then VoterLog(c, v, n.id, n.currentTerm) else n.log
  }

  predicate CanTimeout(c: Cluster, id: Id) {
    id in c.nodes && c.nodes[id].role != Leader
  }

  predicate CanVote(c: Cluster, id: Id, q: VoteRequest) {
    id in c.nodes && id != q.candidate && q in c.voteRequests
  }

  predicate CanCount(c: Cluster, r: VoteReply) {
    r in c.voteReplies && r.request.candidate in c.nodes
  }

  predicate CanWin(c: Cluster, id: Id) {
    id in c.nodes && c.nodes[id].role == Candidate && |c.nodes[id].votes| + 1 >= Quorum(c.members)
  }

  predicate Leads(c: Cluster, id: Id) {
    id in c.nodes && c.nodes[id].role == Leader
  }

  predicate CanSend(c: Cluster, id: Id, to: Id) {
    Leads(c, id) && to in Peers(c, id)
  }

  predicate CanAppend(c: Cluster, a: Append) {
    a in c.appends && a.to in c.nodes
  }

  predicate CanLearn(c: Cluster, r: AppendReply) {
    r in c.appendReplies && r.append.request.leader in c.nodes
  }

  /**
   A handler of node `id` stores the term of its message, with no vote, before it goes on: the handler of
   vote requests for a higher term, that of append requests also for the own term of a candidate.
   */
  predicate CanAdopt(c: Cluster, id: Id, term: nat) {
    && id in c.nodes
    && (|| (term > c.nodes[id].currentTerm && exists q :: q in c.voteRequests && q.term == term)
        || exists a :: a in c.appends && a.to == id && Unseats(c.nodes[id], a.request, term))
  }

  predicate Unseats(n: NodeState, req: AppendRequest, term: nat) {
    req.term == term && (term > n.currentTerm || (term == n.currentTerm && n.role == Candidate))
  }

  predicate Enabled(c: Cluster, step: Step) {
    match step
    case Timeout(id) => CanTimeout(c, id)
    case ReceiveVoteRequest(id, q) => CanVote(c, id, q)
    case ReceiveVoteReply(r) => CanCount(c, r)
    case WinElection(id) => CanWin(c, id)
    case ClientProposal(id, _) => Leads(c, id)
    case SendAppend(id, to) => CanSend(c, id, to)
    case ReceiveAppend(a) => CanAppend(c, a)
    case ReceiveAppendReply(r) => CanLearn(c, r)
    case CrashAndRestart(id) => id in c.nodes
    case CrashInHandler(id, term) => CanAdopt(c, id, term)
  }

  function AfterTimeout(c: Cluster, id: Id): Cluster
    requires id in c.nodes
  {
    var n := StartElection(c.nodes[id]);
    Update(c, n).(voteRequests := c.voteRequests + {Ballot(n)})
  }

  function AfterVoteRequest(c: Cluster, id: Id, q: VoteRequest): Cluster
    requires id in c.nodes
  {
    var (n, answer) := HandleVoteRequest(c.nodes[id], q);
    Update(c, n).(voteReplies := c.voteReplies + {VoteReply(id, q, answer, c.nodes[id].log)})
  }

  function AfterVoteReply(c: Cluster, r: VoteReply): Cluster
    requires r.request.candidate in c.nodes
  {
    Update(c, HandleVoteAnswer(c.nodes[r.request.candidate], r.request.term, r.voter, r.answer))
  }

  ghost function AfterWin(c: Cluster, id: Id): Cluster
    requires id in c.nodes
  {
    var n := c.nodes[id];
    Update(c, TakeOffice(n, Peers(c, id)))
      .(reigns := c.reigns[n.currentTerm := Reign(id, n.log, n.log, Electorate(c, n))])
  }

  function AfterProposal(c: Cluster, id: Id, data: seq<byte>): Cluster
    requires id in c.nodes
  {
    var n := Propose(c.nodes[id], data);
    Update(c, n).(reigns :=
      if n.currentTerm in c.reigns
      then c.reigns[n.currentTerm := c.reigns[n.currentTerm].(log := n.log)]
      else c.reigns)
  }

  function AfterSend(c: Cluster, id: Id, to: Id): Cluster
    requires id in c.nodes
  {
    c.(appends := c.appends + {Append(to, BuildAppend(c.nodes[id], to))})
  }

  function AfterAppend(c: Cluster, a: Append): Cluster
    requires a.to in c.nodes
  {
    var (n, answer, msgs) := HandleAppend(c.nodes[a.to], a.request);
    Update(c, n).(appendReplies := c.appendReplies + {AppendReply(a, answer)},
                  handovers := c.handovers + Handed(a.to, msgs))
  }

  function AfterAppendReply(c: Cluster, r: AppendReply): Cluster
    requires r.append.request.leader in c.nodes
  {
    var id := r.append.request.leader;
    var (n, msgs) := HandleAppendAnswer(
      c.nodes[id], r.append.to, r.append.request, r.answer, Peers(c, id), Quorum(c.members));
    Update(c, n).(handovers := c.handovers + Handed(id, msgs))
  }

  /** The node starts again from what its state file holds. */
  function AfterReboot(c: Cluster, id: Id, d: Durable): Cluster
    requires id in c.nodes
  {
    Update(c, Boot(id, d))
  }

  function AfterCrash(c: Cluster, id: Id): Cluster
    requires id in c.nodes
  {
    AfterReboot(c, id, c.nodes[id].disk)
  }

  /** The crash falls between the two times that a handler writes the state file. */
  function AfterCrashInHandler(c: Cluster, id: Id, term: nat): Cluster
    requires id in c.nodes
  {
    AfterReboot(c, id, StepDown(c.nodes[id], term).disk)
  }

  ghost function Exec(c: Cluster, step: Step): Cluster
    requires Enabled(c, step)
  {
    match step
    case Timeout(id) => AfterTimeout(c, id)
    case ReceiveVoteRequest(id, q) => AfterVoteRequest(c, id, q)
    case ReceiveVoteReply(r) => AfterVoteReply(c, r)
    case WinElection(id) => AfterWin(c, id)
    case ClientProposal(id, data) => AfterProposal(c, id, data)
    case SendAppend(id, to) => AfterSend(c, id, to)
    case ReceiveAppend(a) => AfterAppend(c, a)
    case ReceiveAppendReply(r) => AfterAppendReply(c, r)
    case CrashAndRestart(id) => AfterCrash(c, id)
    case CrashInHandler(id, term) => AfterCrashInHandler(c, id, term)
  }

  /** The states of a run: each state follows from the one before by an enabled step. */
  ghost predicate IsRun(members: set<Id>, run: seq<Cluster>, steps: seq<Step>) {
    && |run| == |steps| + 1
    && run[0] == Init(members)
    && forall k :: 0 <= k < |steps| ==> Enabled(run[k], steps[k]) && run[k + 1] == Exec(run[k], steps[k])
  }
}
