/**
 The state of one Raft node and the messages nodes exchange.

 Terms and log positions are unbounded.  A vote for nobody is the empty id, as in
 the program, and a node id is never empty.
 */
module RaftTypes {
  import opened Bytes

  /** A node id is a Go string, hence a byte string. */
  type Id = seq<byte>

  const NOBODY: Id := []

  datatype Role = Follower | Candidate | Leader

  datatype Entry = Entry(index: nat, term: nat, data: seq<byte>)

  /** Every log starts with this entry, so that position 0 always matches. */
  const SENTINEL: Entry := Entry(0, 0, [])

  /** What the state file of a node holds. */
  datatype Durable = Durable(term: nat, vote: Id, log: seq<Entry>)

  /**
   The fields of a node.  `votes` is the tally of the running election: the peers
   whose granting reply was accepted.  `disk` is the content of the state file.
   */
  datatype NodeState = NodeState(
    id: Id,
    currentTerm: nat,
    votedFor: Id,
    log: seq<Entry>,
    commitIndex: nat,
    lastApplied: nat,
    role: Role,
    nextIndex: map<Id, nat>,
    matchIndex: map<Id, nat>,
    votes: set<Id>,
    disk: Durable)

  datatype VoteRequest = VoteRequest(term: nat, candidate: Id, lastIndex: nat, lastTerm: nat)

  datatype VoteAnswer = VoteAnswer(term: nat, granted: bool)

  datatype AppendRequest = AppendRequest(
    term: nat, leader: Id, prevIndex: nat, prevTerm: nat, entries: seq<Entry>, leaderCommit: nat)

  datatype AppendAnswer = AppendAnswer(term: nat, success: bool, matchIndex: nat)

  /** A committed entry put on the apply channel. */
  datatype ApplyMsg = ApplyMsg(index: nat, command: seq<byte>)

  /** The last position of the log as the node reads it: from the entry itself. */
  function LastIndex(log: seq<Entry>): nat {
    if log == [] then 0 else log[|log| - 1].index
  }

  function LastTerm(log: seq<Entry>): nat {
    if log == [] then 0 else log[|log| - 1].term
  }

  /** Positions and entry indices agree, and the sentinel is in place. */
  ghost predicate WellIndexed(log: seq<Entry>) {
    && |log| >= 1
    && log[0] == SENTINEL
    && forall k :: 0 <= k < |log| ==> log[k].index == k
  }
}
