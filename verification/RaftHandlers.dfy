/**
 What each locked region of a Raft node does to the node's fields.

 Each function gives the new state and whatever leaves the node.  They are total:
 where the program would index outside its log they pick a value, and the safety
 proof shows that no run gets there.
 */
module RaftHandlers {
  import opened Bytes
  import opened RaftTypes

  /** The state file is rewritten with the current term, vote and log. */
  function Persist(n: NodeState): NodeState {
    n.(disk := Durable(n.currentTerm, n.votedFor, n.log))
  }

  /** A higher term was seen: adopt it as a follower that has not voted. */
  function StepDown(n: NodeState, term: nat): NodeState {
    Persist(n.(currentTerm := term, role := Follower, votedFor := NOBODY))
  }

  /** A node that starts, from the content of its state file. */
  function Boot(id: Id, disk: Durable): NodeState {
    NodeState(id, disk.term, disk.vote, disk.log, 0, 0, Follower, map[], map[], {}, disk)
  }

  const BLANK: Durable := Durable(0, NOBODY, [SENTINEL])

  // ---- election ----

  /** A timeout of a node that does not lead: a new term, a vote for itself, a request to all peers. */
  function StartElection(n: NodeState): NodeState {
    Persist(n.(role := Candidate, currentTerm := n.currentTerm + 1, votedFor := n.id, votes := {}))
  }

  function Ballot(n: NodeState): VoteRequest {
    VoteRequest(n.currentTerm, n.id, LastIndex(n.log), LastTerm(n.log))
  }

  /** A log that ends with this term at this index is at least as up to date as `log`. */
  predicate NotBehind(term: nat, index: nat, log: seq<Entry>) {
    term > LastTerm(log) || (term == LastTerm(log) && index >= LastIndex(log))
  }

  /** The candidate's last entry is from a later term, or from the same term and no shorter a log. */
  predicate UpToDate(req: VoteRequest, log: seq<Entry>) {
    NotBehind(req.lastTerm, req.lastIndex, log)
  }

  function HandleVoteRequest(n: NodeState, req: VoteRequest): (NodeState, VoteAnswer) {
    if req.term < n.currentTerm then
      (n, VoteAnswer(n.currentTerm, false))
    else
      var m := if req.term > n.currentTerm then StepDown(n, req.term) else n;
      if (m.votedFor == NOBODY || m.votedFor == req.candidate) && UpToDate(req, m.log) then
        (Persist(m.(votedFor := req.candidate)), VoteAnswer(m.currentTerm, true))
      else
        (m, VoteAnswer(m.currentTerm, false))
  }

  /** The answer of `peer` to the vote request of the election of `term`. */
  function HandleVoteAnswer(n: NodeState, term: nat, peer: Id, answer: VoteAnswer): NodeState {
    if answer.term > n.currentTerm then
      StepDown(n, answer.term)
    else if n.role == Candidate && n.currentTerm == term && answer.granted then
      n.(votes := n.votes + {peer})
    else
      n
  }

  function AllAt(peers: set<Id>, at: nat): map<Id, nat> {
    map p | p in peers :: at
  }

  function TakeOffice(n: NodeState, peers: set<Id>): NodeState {
    n.(role := Leader,
       nextIndex := n.nextIndex + AllAt(peers, LastIndex(n.log) + 1),
       matchIndex := n.matchIndex + AllAt(peers, 0))
  }

  // ---- replication ----

  function Propose(n: NodeState, data: seq<byte>): NodeState {
    Persist(n.(log := n.log + [Entry(LastIndex(n.log) + 1, n.currentTerm, data)]))
  }

  /** The position from which `peer` still needs entries; a missing or zero record counts as 1. */
  function NextFor(n: NodeState, peer: Id): nat {
    if peer in n.nextIndex && n.nextIndex[peer] != 0 then n.nextIndex[peer] else 1
  }

  /** The whole rest of the log from the peer's next position on. */
  function BuildAppend(n: NodeState, peer: Id): AppendRequest {
    var next := NextFor(n, peer);
    AppendRequest(
      n.currentTerm,
      n.id,
      next - 1,
      if next - 1 < |n.log| then n.log[next - 1].term else 0,
      if next < |n.log| then n.log[next..] else [],
      n.commitIndex)
  }

  /** Entries already present are skipped, and a conflicting one cuts off the rest of the log. */
  function Merge(log: seq<Entry>, at: nat, entries: seq<Entry>): seq<Entry>
    decreases |entries|
  {
    if entries == [] then
      log
    else if at < |log| then
      if log[at].term != entries[0].term then
        Merge(log[..at] + [entries[0]], at + 1, entries[1..])
      else
        Merge(log, at + 1, entries[1..])
    else
      Merge(log + [entries[0]], at + 1, entries[1..])
  }

  /** Everything committed and not yet applied goes to the apply channel, in order. */
  function Drain(log: seq<Entry>, from: nat, to: nat): seq<ApplyMsg>
    decreases |log| - from
  {
    if from >= to || from + 1 >= |log| then
      []
    else
      [ApplyMsg(log[from + 1].index, log[from + 1].data)] + Drain(log, from + 1, to)
  }

  function ApplyCommitted(n: NodeState): (NodeState, seq<ApplyMsg>) {
    if n.lastApplied < n.commitIndex then
      (n.(lastApplied := n.commitIndex), Drain(n.log, n.lastApplied, n.commitIndex))
    else
      (n, [])
  }

  /** A follower's commit index: the leader's, capped by the follower's own last position. */
  function FollowCommit(n: NodeState, leaderCommit: nat): (NodeState, seq<ApplyMsg>) {
    if leaderCommit > n.commitIndex then
      var last := LastIndex(n.log);
      ApplyCommitted(n.(commitIndex := if leaderCommit < last then leaderCommit else last))
    else
      (n, [])
  }

  /** The log part of a request: refuse a gap, cut at a conflict, or store the entries and follow the commit index. */
  function AppendInTerm(n: NodeState, req: AppendRequest): (NodeState, bool, seq<ApplyMsg>) {
    if req.prevIndex >= |n.log| then
      (n, false, [])
    else if n.log[req.prevIndex].term != req.prevTerm then
      (Persist(n.(log := n.log[..req.prevIndex])), false, [])
    else
      var stored := Persist(n.(log := Merge(n.log, req.prevIndex + 1, req.entries)));
      var (done, msgs) := FollowCommit(stored, req.leaderCommit);
      (done, true, msgs)
  }

  function HandleAppend(n: NodeState, req: AppendRequest): (NodeState, AppendAnswer, seq<ApplyMsg>) {
    if req.term < n.currentTerm then
      (n, AppendAnswer(n.currentTerm, false, 0), [])
    else
      var m := if req.term > n.currentTerm || n.role == Candidate then StepDown(n, req.term) else n;
      var (done, success, msgs) := AppendInTerm(m, req);
      (done, AppendAnswer(n.currentTerm, success, if success then LastIndex(done.log) else 0), msgs)
  }

  /** The entries of a request carry the positions they are sent for. */
  ghost predicate Numbered(req: AppendRequest) {
    forall k :: 0 <= k < |req.entries| ==> req.entries[k].index == req.prevIndex + 1 + k
  }

  lemma {:induction false} MergeNumbered(log: seq<Entry>, at: nat, entries: seq<Entry>)
    requires WellIndexed(log) && 1 <= at <= |log|
    requires forall k :: 0 <= k < |entries| ==> entries[k].index == at + k
    ensures WellIndexed(Merge(log, at, entries))
    decreases |entries|
  {
    if entries != [] {
      if at < |log| && log[at].term == entries[0].term {
        MergeNumbered(log, at + 1, entries[1..]);
      } else {
        MergeNumbered((if at < |log| then log[..at] else log) + [entries[0]], at + 1, entries[1..]);
      }
    }
  }

  /**
   The request makes the node index outside its log: the entries it accepts carry indices beyond the
   log's end, and the commit index follows them.
   */
  predicate Overruns(n: NodeState, req: AppendRequest) {
    && req.term >= n.currentTerm && req.prevIndex < |n.log| && n.log[req.prevIndex].term == req.prevTerm
    && req.leaderCommit > n.commitIndex
    && var log := Merge(n.log, req.prevIndex + 1, req.entries);
       var k := if req.leaderCommit < LastIndex(log) then req.leaderCommit else LastIndex(log);
       n.lastApplied < k && |log| <= k
  }

  /** The leader itself and every peer known to hold the log up to `at`. */
  function Holders(n: NodeState, peers: set<Id>, at: nat): set<Id> {
    {n.id} + set p | p in peers && p in n.matchIndex && n.matchIndex[p] >= at
  }

  /** The highest position of the current term above the commit index that a quorum holds, else the commit index. */
  function QuorumIndex(n: NodeState, peers: set<Id>, quorum: nat, at: nat): nat
    decreases at
  {
    if at <= n.commitIndex then
      n.commitIndex
    else if at < |n.log| && n.log[at].term == n.currentTerm && |Holders(n, peers, at)| >= quorum then
      at
    else
      QuorumIndex(n, peers, quorum, at - 1)
  }

  function AdvanceCommit(n: NodeState, peers: set<Id>, quorum: nat): (NodeState, seq<ApplyMsg>) {
    var at := QuorumIndex(n, peers, quorum, LastIndex(n.log));
    if at > n.commitIndex then ApplyCommitted(n.(commitIndex := at)) else (n, [])
  }

  /** The answer of `peer` to a request the node sent; term and entries are those of the request. */
  function HandleAppendAnswer(
    n: NodeState, peer: Id, req: AppendRequest, answer: AppendAnswer, peers: set<Id>, quorum: nat
  ): (NodeState, seq<ApplyMsg>)
  {
    if answer.term > n.currentTerm then
      (StepDown(n, answer.term), [])
    else if n.role != Leader || n.currentTerm != req.term then
      (n, [])
    else if answer.success then
      if req.entries == [] then
        (n, [])
      else
        var last := LastIndex(req.entries);
        AdvanceCommit(
          n.(matchIndex := n.matchIndex[peer := last], nextIndex := n.nextIndex[peer := last + 1]),
          peers, quorum)
    else if peer in n.nextIndex && n.nextIndex[peer] > 1 then
      (n.(nextIndex := n.nextIndex[peer := n.nextIndex[peer] - 1]), [])
    else
      (n, [])
  }
}
