/**
 The Raft node as an object: every locked region of the program as a method that
 changes the fields, proved against the functions the cluster proof is about.
 */
module RaftNode {
  import opened Bytes
  import opened RaftTypes
  import opened RaftHandlers
  import opened RaftState
  import opened RaftExact

  datatype Option<+T> = None | Some(value: T)

  ghost function AsSet(peers: seq<Id>): set<Id> {
    set p | p in peers
  }

  ghost predicate Distinct(peers: seq<Id>) {
    forall j, k :: 0 <= j < k < |peers| ==> peers[j] != peers[k]
  }

  /** The file was written with this state or is read as it; a missing file stands for the blank state. */
  ghost predicate Holds(file: Option<seq<byte>>, d: Durable) {
    if file.None? then d == BLANK
    else file.value == EncodeState(d) || d == LoadState(file.value).0
  }

  // ---- facts about the specification ----

  lemma {:induction false} DrainOne(log: seq<Entry>, from: nat, to: nat)
    requires from < to && from + 1 < |log|
    ensures Drain(log, from, to) == [ApplyMsg(log[from + 1].index, log[from + 1].data)] + Drain(log, from + 1, to)
  {}

  lemma {:induction false} MergeNotEmpty(log: seq<Entry>, at: nat, entries: seq<Entry>)
    requires log != [] && at >= 1
    ensures Merge(log, at, entries) != []
    decreases |entries|
  {
    if entries != [] {
      if at < |log| && log[at].term == entries[0].term {
        MergeNotEmpty(log, at + 1, entries[1..]);
      } else {
        MergeNotEmpty((if at < |log| then log[..at] else log) + [entries[0]], at + 1, entries[1..]);
      }
    }
  }

  /** The peers among the first `k` that hold position `at`. */
  ghost function Counted(n: NodeState, peers: seq<Id>, k: nat, at: nat): set<Id>
    requires k <= |peers|
  {
    set p | p in peers[..k] && p in n.matchIndex && n.matchIndex[p] >= at
  }

  lemma CountedNext(n: NodeState, peers: seq<Id>, k: nat, at: nat)
    requires k < |peers| && Distinct(peers)
    ensures |Counted(n, peers, k + 1, at)| ==
            |Counted(n, peers, k, at)| + if peers[k] in n.matchIndex && n.matchIndex[peers[k]] >= at then 1 else 0
  {
    assert peers[..k + 1] == peers[..k] + [peers[k]];
    assert peers[k] !in Counted(n, peers, k, at);
    if peers[k] in n.matchIndex && n.matchIndex[peers[k]] >= at {
      assert Counted(n, peers, k + 1, at) == Counted(n, peers, k, at) + {peers[k]};
    } else {
      assert Counted(n, peers, k + 1, at) == Counted(n, peers, k, at);
    }
  }

  /** How many of the first `k` peers are in `votes`. */
  ghost function Among(peers: seq<Id>, k: nat, votes: set<Id>): nat
    requires k <= |peers|
  {
    if k == 0 then 0 else Among(peers, k - 1, votes) + if peers[k - 1] in votes then 1 else 0
  }

  lemma {:induction false} AmongWithout(peers: seq<Id>, k: nat, votes: set<Id>, p: Id)
    requires k <= |peers| && forall x :: 0 <= x < k ==> peers[x] != p
    ensures Among(peers, k, votes - {p}) == Among(peers, k, votes)
    decreases k
  {
    if k > 0 {
      AmongWithout(peers, k - 1, votes, p);
    }
  }

  lemma {:induction false} SizeWithout(votes: set<Id>, p: Id)
    ensures |votes| == |votes - {p}| + if p in votes then 1 else 0
  {
    if p in votes {
      assert votes == (votes - {p}) + {p};
    } else {
      assert votes == votes - {p};
    }
  }

  /** All votes are from the first `k` peers. */
  ghost predicate Seen(peers: seq<Id>, k: nat, votes: set<Id>) {
    k <= |peers| && forall v :: v in votes ==> v in peers[..k]
  }

  lemma {:induction false} SeenWithout(peers: seq<Id>, k: nat, votes: set<Id>)
    requires 0 < k <= |peers| && Seen(peers, k, votes)
    ensures Seen(peers, k - 1, votes - {peers[k - 1]})
  {
    assert peers[..k] == peers[..k - 1] + [peers[k - 1]];
  }

  /** The count never exceeds the votes, and is their number once they are all among the peers seen. */
  lemma {:induction false} AmongCounts(peers: seq<Id>, k: nat, votes: set<Id>)
    requires k <= |peers| && Distinct(peers)
    ensures Among(peers, k, votes) <= |votes|
    ensures Seen(peers, k, votes) ==> Among(peers, k, votes) == |votes|
    decreases k
  {
    if k == 0 {
      assert Seen(peers, 0, votes) ==> votes == {};
    } else {
      var p := peers[k - 1];
      AmongWithout(peers, k - 1, votes, p);
      AmongCounts(peers, k - 1, votes - {p});
      SizeWithout(votes, p);
      if Seen(peers, k, votes) {
        SeenWithout(peers, k, votes);
      }
    }
  }

  lemma {:induction false} AmongAll(peers: seq<Id>, votes: set<Id>)
    requires votes <= AsSet(peers) && Distinct(peers)
    ensures Among(peers, |peers|, votes) == |votes|
    ensures forall k :: 0 <= k <= |peers| ==> Among(peers, k, votes) <= |votes|
  {
    forall k | 0 <= k <= |peers|
      ensures Among(peers, k, votes) <= |votes|
    {
      AmongCounts(peers, k, votes);
    }
    AmongCounts(peers, |peers|, votes);
    assert peers[..|peers|] == peers;
  }

  lemma CountedAll(n: NodeState, peers: seq<Id>, at: nat)
    requires n.id !in peers
    ensures |Holders(n, AsSet(peers), at)| == 1 + |Counted(n, peers, |peers|, at)|
  {
    assert peers[..|peers|] == peers;
    assert Holders(n, AsSet(peers), at) == {n.id} + Counted(n, peers, |peers|, at);
  }

  /** `m` is `m0` with every key of `keys` at `v`. */
  ghost predicate Overlaid(m0: map<Id, nat>, m: map<Id, nat>, keys: seq<Id>, v: nat) {
    && (forall p :: p in m <==> p in m0 || p in keys)
    && (forall p :: p in m ==> m[p] == if p in keys then v else m0[p])
  }

  lemma OverlaidNext(m0: map<Id, nat>, m: map<Id, nat>, keys: seq<Id>, k: nat, v: nat)
    requires k < |keys| && Overlaid(m0, m, keys[..k], v)
    ensures Overlaid(m0, m[keys[k] := v], keys[..k + 1], v)
  {
    assert keys[..k + 1] == keys[..k] + [keys[k]];
  }

  lemma OverlaidAll(m0: map<Id, nat>, m: map<Id, nat>, keys: seq<Id>, v: nat)
    requires Overlaid(m0, m, keys, v)
    ensures m == m0 + AllAt(AsSet(keys), v)
  {}

  /** A request of a term that is not over is handled as one of the node's own term, which it adopts first. */
  lemma {:induction false} HandledInTerm(n: NodeState, q: AppendRequest)
    requires q.term >= n.currentTerm
    ensures var m := if q.term > n.currentTerm || n.role == Candidate then StepDown(n, q.term) else n;
            var (done, success, msgs) := AppendInTerm(m, q);
            && HandleAppend(n, q) ==
               (done, AppendAnswer(n.currentTerm, success, if success then LastIndex(done.log) else 0), msgs)
            && (Overruns(n, q) <==> Overruns(m, q))
  {}

  class Node {
    const id: Id
    const peers: seq<Id>
    const quorum: nat

    var currentTerm: nat
    var votedFor: Id
    var log: seq<Entry>
    var commitIndex: nat
    var lastApplied: nat
    var role: Role
    var nextIndex: map<Id, nat>
    var matchIndex: map<Id, nat>

    /** The peers counted by the running election. */
    var votes: set<Id>
    /** The state file, if there is one, and what it holds. */
    var file: Option<seq<byte>>
    ghost var disk: Durable
    /** Everything put on the apply channel. */
    var applied: seq<ApplyMsg>

    ghost function State(): NodeState
      reads this
    {
      NodeState(id, currentTerm, votedFor, log, commitIndex, lastApplied, role, nextIndex, matchIndex, votes, disk)
    }

    /** What holds at every lock release: the state file can be read back as `disk`. */
    ghost predicate Valid()
      reads this
    {
      Holds(file, disk)
    }

    ghost predicate PeersOk() {
      Distinct(peers) && id !in peers
    }

    /** The fields a node cannot run with otherwise; no run of a cluster leaves them. */
    ghost predicate Sound()
      reads this
    {
      WellIndexed(log) && lastApplied <= commitIndex < |log|
    }

    /** A node starting from its state file, whole or broken, or from none. */
    constructor (id: Id, peers: seq<Id>, stored: Option<seq<byte>>)
      ensures this.id == id && this.peers == peers && quorum == (1 + |peers|) / 2 + 1
      ensures 2 * quorum > 1 + |peers| >= 2 * (quorum - 1)
      ensures Valid() && State() == Boot(id, if stored.None? then BLANK else LoadState(stored.value).0)
      ensures file == stored && applied == []
    {
      this.id := id;
      this.peers := peers;
      quorum := (1 + |peers|) / 2 + 1;
      commitIndex, lastApplied, role := 0, 0, Follower;
      nextIndex, matchIndex, votes, applied := map[], map[], {}, [];
      currentTerm, votedFor, log := 0, NOBODY, [SENTINEL];
      disk := if stored.None? then BLANK else LoadState(stored.value).0;
      file := stored;
      new;
      if stored.Some? {
        var whole := Load(stored.value);
      }
    }

    /** Term, vote and log as far as the file gives them. */
    method Load(stored: seq<byte>) returns (whole: bool)
      requires currentTerm == 0 && votedFor == NOBODY && log == [SENTINEL]
      modifies this`currentTerm, this`votedFor, this`log
      ensures (Durable(currentTerm, votedFor, log), whole) == LoadState(stored)
    {
      whole := false;
      if |stored| < 8 { return; }
      currentTerm := FromBytes(stored[0..8]);
      if |stored| < 10 { return; }
      var v := FromBytes(stored[8..10]);
      if |stored| < 10 + v { return; }
      votedFor := stored[10..10 + v];
      if |stored| < 10 + v + 4 { return; }
      var count := FromBytes(stored[10 + v..10 + v + 4]);
      if count == 0 { return true; }
      whole := LoadEntries(stored, 14 + v, count);
    }

    /** The entries of the file, one by one. */
    method LoadEntries(stored: seq<byte>, start: nat, count: nat) returns (whole: bool)
      modifies this`log
      ensures (log, whole) == ReadLog(stored, start, count)
    {
      whole := false;
      log := [];
      var pos := start;
      var k := 0;
      while k < count
        invariant 0 <= k <= count
        invariant ReadLog(stored, start, count).0 == log + ReadLog(stored, pos, count - k).0
        invariant ReadLog(stored, start, count).1 == ReadLog(stored, pos, count - k).1
      {
        match ReadEntry(stored, pos)
        case Err =>
          assert log + [] == log;
          return;
        case Ok((e, next)) =>
          log := log + [e];
          pos := next;
          k := k + 1;
      }
      assert log + [] == log;
      whole := true;
    }

    /** The state file is rewritten, entry by entry. */
    method PersistState()
      modifies this`file, this`disk
      ensures disk == Durable(currentTerm, votedFor, log) && Valid()
    {
      var out := EncodeHeader(currentTerm, votedFor, |log|);
      var k := 0;
      while k < |log|
        invariant 0 <= k <= |log|
        invariant out == EncodeHeader(currentTerm, votedFor, |log|) + EncodeLog(log[..k])
      {
        out := out + EncodeEntry(log[k]);
        EncodeLogAppend(log[..k], log[k]);
        assert log[..k] + [log[k]] == log[..k + 1];
        k := k + 1;
      }
      assert log[..|log|] == log;
      file := Some(out);
      disk := Durable(currentTerm, votedFor, log);
    }

    /** A higher term was seen. */
    method AdoptTerm(term: nat)
      modifies this`currentTerm, this`role, this`votedFor, this`file, this`disk
      ensures Valid() && State() == StepDown(old(State()), term)
    {
      currentTerm := term;
      role := Follower;
      votedFor := NOBODY;
      PersistState();
    }

    // ---- election ----

    method OnElectionTimeout() returns (req: Option<VoteRequest>)
      requires Valid() && log != []
      modifies this`role, this`currentTerm, this`votedFor, this`votes, this`file, this`disk
      ensures Valid()
      ensures old(role) == Leader ==> State() == old(State()) && req == None
      ensures old(role) != Leader ==> State() == StartElection(old(State())) && req == Some(Ballot(State()))
      ensures old(role) != Leader ==>
        && role == Candidate && currentTerm == old(currentTerm) + 1 && votedFor == id && votes == {}
        && var last := log[|log| - 1]; req == Some(VoteRequest(currentTerm, id, last.index, last.term))
    {
      if role == Leader { return None; }
      role := Candidate;
      currentTerm := currentTerm + 1;
      votedFor := id;
      votes := {};
      PersistState();
      var last := log[|log| - 1];
      req := Some(VoteRequest(currentTerm, id, last.index, last.term));
    }

    method HandleRequestVote(req: VoteRequest) returns (answer: VoteAnswer)
      requires Valid() && log != []
      modifies this`role, this`currentTerm, this`votedFor, this`file, this`disk
      ensures Valid()
      ensures (State(), answer) == HandleVoteRequest(old(State()), req)
      ensures answer == VoteAnswer(Max(old(currentTerm), req.term), GivesVote(old(State()), req))
    {
      answer := VoteAnswer(currentTerm, false);
      if req.term < currentTerm { return; }
      if req.term > currentTerm {
        AdoptTerm(req.term);
      }
      var canVote := votedFor == NOBODY || votedFor == req.candidate;
      var last := log[|log| - 1];
      var logUpToDate := false;
      if req.lastTerm > last.term {
        logUpToDate := true;
      } else if req.lastTerm == last.term && req.lastIndex >= last.index {
        logUpToDate := true;
      }
      var granted := false;
      if canVote && logUpToDate {
        votedFor := req.candidate;
        PersistState();
        granted := true;
      }
      answer := VoteAnswer(currentTerm, granted);
    }

    /** The answer of one peer to the request of the election of `term`. */
    method ReceiveVote(term: nat, peer: Id, answer: VoteAnswer)
      requires Valid()
      modifies this`role, this`currentTerm, this`votedFor, this`votes, this`file, this`disk
      ensures Valid()
      ensures State() == HandleVoteAnswer(old(State()), term, peer, answer)
      ensures peer in votes <==>
        || peer in old(votes)
        || (answer.term <= currentTerm == term && role == Candidate && answer.granted)
    {
      if answer.term > currentTerm {
        AdoptTerm(answer.term);
      } else if role == Candidate && currentTerm == term && answer.granted {
        votes := votes + {peer};
      }
    }

    /** Votes are counted from 1, peer by peer, until they make a quorum. */
    method HasQuorum() returns (won: bool)
      requires PeersOk() && votes <= AsSet(peers)
      ensures won <==> |votes| >= 1 && |votes| + 1 >= quorum
    {
      var received := 1;
      var k := 0;
      AmongAll(peers, votes);
      while k < |peers|
        invariant 0 <= k <= |peers| && received == 1 + Among(peers, k, votes)
        invariant received == 1 || received < quorum
      {
        assert Among(peers, k + 1, votes) <= |votes|;
        if peers[k] in votes {
          received := received + 1;
          if received >= quorum {
            return true;
          }
        }
        k := k + 1;
      }
      won := false;
    }

    /** Every peer starts at the position behind the last entry, with nothing known to match. */
    method ResetProgress(last: nat)
      modifies this`nextIndex, this`matchIndex
      ensures nextIndex == old(nextIndex) + AllAt(AsSet(peers), last + 1)
      ensures matchIndex == old(matchIndex) + AllAt(AsSet(peers), 0)
    {
      var k := 0;
      while k < |peers|
        invariant 0 <= k <= |peers|
        invariant Overlaid(old(nextIndex), nextIndex, peers[..k], last + 1)
        invariant Overlaid(old(matchIndex), matchIndex, peers[..k], 0)
      {
        OverlaidNext(old(nextIndex), nextIndex, peers, k, last + 1);
        OverlaidNext(old(matchIndex), matchIndex, peers, k, 0);
        nextIndex := nextIndex[peers[k] := last + 1];
        matchIndex := matchIndex[peers[k] := 0];
        k := k + 1;
      }
      assert peers[..|peers|] == peers;
      OverlaidAll(old(nextIndex), nextIndex, peers, last + 1);
      OverlaidAll(old(matchIndex), matchIndex, peers, 0);
    }

    /** A candidate with a quorum leads, with fresh positions for all peers. */
    method BecomeLeader(term: nat)
      requires Valid() && log != []
      modifies this`role, this`nextIndex, this`matchIndex
      ensures Valid()
      ensures if old(role) == Candidate && old(currentTerm) == term
              then State() == TakeOffice(old(State()), AsSet(peers))
              else State() == old(State())
      ensures old(role) == Candidate && currentTerm == term ==>
        && role == Leader
        && forall p :: p in peers ==>
             && p in nextIndex && nextIndex[p] == log[|log| - 1].index + 1
             && p in matchIndex && matchIndex[p] == 0
    {
      if role == Candidate && currentTerm == term {
        role := Leader;
        ResetProgress(log[|log| - 1].index);
      }
    }

    // ---- replication ----

    method ProposeEntry(data: seq<byte>) returns (index: nat, term: nat, accepted: bool)
      requires Valid() && log != []
      modifies this`log, this`file, this`disk
      ensures Valid() && accepted == (role == Leader)
      ensures accepted ==> State() == Propose(old(State()), data)
      ensures accepted ==>
        && log == old(log) + [Entry(index, term, data)]
        && index == old(log[|log| - 1].index) + 1 && term == currentTerm
      ensures !accepted ==> State() == old(State()) && index == 0 && term == 0
    {
      if role != Leader { return 0, 0, false; }
      index := log[|log| - 1].index + 1;
      term := currentTerm;
      log := log + [Entry(index, term, data)];
      PersistState();
      accepted := true;
    }

    method BuildAppendEntries(peer: Id, term: nat) returns (req: Option<AppendRequest>)
      ensures if role == Leader && currentTerm == term then req == Some(BuildAppend(State(), peer)) else req == None
      ensures req.Some? ==>
        && req.value.term == currentTerm && req.value.leader == id && req.value.leaderCommit == commitIndex
        && req.value.prevIndex + 1 == (if peer in nextIndex && nextIndex[peer] > 0 then nextIndex[peer] else 1)
        && (req.value.prevIndex < |log| ==>
              && req.value.prevTerm == log[req.value.prevIndex].term
              && log == log[..req.value.prevIndex + 1] + req.value.entries)
    {
      if role != Leader || currentTerm != term { return None; }
      var next := if peer in nextIndex then nextIndex[peer] else 0;
      if next == 0 { next := 1; }
      var prevTerm := 0;
      if next - 1 < |log| { prevTerm := log[next - 1].term; }
      var entries := [];
      if next < |log| { entries := log[next..]; }
      req := Some(AppendRequest(term, id, next - 1, prevTerm, entries, commitIndex));
    }

    /** Committed entries go to the apply channel one by one; a commit index beyond the log aborts. */
    method ApplyCommittedEntries() returns (aborted: bool)
      modifies this`lastApplied, this`applied
      ensures aborted <==> old(lastApplied) < commitIndex && |log| <= commitIndex
      ensures !aborted ==> State() == ApplyCommitted(old(State())).0
      ensures applied == old(applied) + ApplyCommitted(old(State())).1
    {
      while lastApplied < commitIndex
        invariant old(lastApplied) <= lastApplied && (lastApplied <= commitIndex || lastApplied == old(lastApplied))
        invariant lastApplied == old(lastApplied) || lastApplied < |log|
        invariant applied + Drain(log, lastApplied, commitIndex)
                  == old(applied) + Drain(log, old(lastApplied), commitIndex)
      {
        if lastApplied + 1 >= |log| {
          assert applied + [] == applied;
          return true;
        }
        DrainOne(log, lastApplied, commitIndex);
        lastApplied := lastApplied + 1;
        var entry := log[lastApplied];
        applied := applied + [ApplyMsg(entry.index, entry.data)];
      }
      assert applied + [] == applied;
      aborted := false;
    }

    /** Entry by entry: present ones are skipped, a conflict cuts off the rest. */
    method MergeEntries(at: nat, entries: seq<Entry>)
      modifies this`log
      ensures log == Merge(old(log), at, entries)
    {
      var i := 0;
      while i < |entries|
        invariant 0 <= i <= |entries|
        invariant Merge(log, at + i, entries[i..]) == Merge(old(log), at, entries)
      {
        var idx := at + i;
        assert entries[i..][1..] == entries[i + 1..];
        if idx < |log| {
          if log[idx].term != entries[i].term {
            log := log[..idx];
            log := log + [entries[i]];
          }
        } else {
          log := log + [entries[i]];
        }
        i := i + 1;
      }
    }

    method FollowLeaderCommit(leaderCommit: nat) returns (aborted: bool)
      requires log != []
      modifies this`commitIndex, this`lastApplied, this`applied
      ensures aborted ==
        (leaderCommit > old(commitIndex) && old(lastApplied) < commitIndex && |log| <= commitIndex)
      ensures commitIndex == FollowCommit(old(State()), leaderCommit).0.commitIndex
      ensures !aborted ==> State() == FollowCommit(old(State()), leaderCommit).0
      ensures applied == old(applied) + FollowCommit(old(State()), leaderCommit).1
    {
      aborted := false;
      if leaderCommit > commitIndex {
        var last := log[|log| - 1].index;
        if leaderCommit < last { commitIndex := leaderCommit; } else { commitIndex := last; }
        label Raised:
        aborted := ApplyCommittedEntries();
        assert old@Raised(State()) == old(State()).(commitIndex := commitIndex);
      } else {
        assert applied + [] == applied;
      }
    }

    /** A request whose entries carry indices beyond the log's end can make the handler abort. */
    method HandleAppendEntries(req: AppendRequest) returns (answer: AppendAnswer, aborted: bool)
      requires Valid()
      modifies this
      ensures Valid() && (aborted <==> Overruns(old(State()), req))
      ensures !aborted ==> State() == HandleAppend(old(State()), req).0 && answer == HandleAppend(old(State()), req).1
      ensures !aborted ==> (answer.success <==> Follows(old(State()), req)) && answer.term == old(currentTerm)
      ensures applied == old(applied) + HandleAppend(old(State()), req).2
    {
      AppendAnsweredExactly(State(), req);
      answer, aborted := AppendAnswer(currentTerm, false, 0), false;
      assert applied + [] == applied;
      if req.term < currentTerm { return; }
      HandledInTerm(State(), req);
      if req.term > currentTerm || role == Candidate {
        AdoptTerm(req.term);
      }
      var success;
      success, aborted := AppendEntriesInTerm(req);
      if success && !aborted {
        answer := AppendAnswer(answer.term, true, log[|log| - 1].index);
      }
    }

    method AppendEntriesInTerm(req: AppendRequest) returns (success: bool, aborted: bool)
      requires Valid() && req.term >= currentTerm
      modifies this`log, this`file, this`disk, this`commitIndex, this`lastApplied, this`applied
      ensures Valid() && (success ==> log != []) && (aborted <==> Overruns(old(State()), req))
      ensures success == AppendInTerm(old(State()), req).1
      ensures !aborted ==> State() == AppendInTerm(old(State()), req).0
      ensures applied == old(applied) + AppendInTerm(old(State()), req).2
    {
      assert applied + [] == applied;
      aborted := false;
      if req.prevIndex >= |log| { return false, false; }
      if log[req.prevIndex].term != req.prevTerm {
        log := log[..req.prevIndex];
        PersistState();
        return false, false;
      }
      aborted := AcceptEntries(req);
      success := true;
    }

    /** The log matches where the request starts: store its entries and follow its commit index. */
    method AcceptEntries(req: AppendRequest) returns (aborted: bool)
      requires req.prevIndex < |log|
      modifies this`log, this`file, this`disk, this`commitIndex, this`lastApplied, this`applied
      ensures Valid() && log == Merge(old(log), req.prevIndex + 1, req.entries) != []
      ensures var stored := Persist(old(State()).(log := log));
              && (aborted <==>
                    req.leaderCommit > old(commitIndex) && old(lastApplied) < commitIndex && |log| <= commitIndex)
              && commitIndex == FollowCommit(stored, req.leaderCommit).0.commitIndex
              && (!aborted ==> State() == FollowCommit(stored, req.leaderCommit).0)
              && applied == old(applied) + FollowCommit(stored, req.leaderCommit).1
    {
      MergeNotEmpty(log, req.prevIndex + 1, req.entries);
      MergeEntries(req.prevIndex + 1, req.entries);
      PersistState();
      aborted := FollowLeaderCommit(req.leaderCommit);
    }

    /** The leader and the peers that hold position `at`, counted from 1. */
    method CountHolders(at: nat) returns (count: nat)
      requires PeersOk()
      ensures count == |Holders(State(), AsSet(peers), at)|
    {
      count := 1;
      var k := 0;
      assert Counted(State(), peers, 0, at) == {};
      while k < |peers|
        invariant 0 <= k <= |peers|
        invariant count == 1 + |Counted(State(), peers, k, at)|
      {
        CountedNext(State(), peers, k, at);
        if peers[k] in matchIndex && matchIndex[peers[k]] >= at {
          count := count + 1;
        }
        k := k + 1;
      }
      CountedAll(State(), peers, at);
    }

    /** From the last position down, the first of the current term that a quorum holds. */
    method FindQuorumIndex() returns (at: nat)
      requires Sound() && PeersOk()
      ensures at == QuorumIndex(State(), AsSet(peers), quorum, LastIndex(log))
      ensures at > commitIndex ==> at < |log|
      ensures HighestCountable(State(), AsSet(peers), quorum, at)
    {
      QuorumIndexExactly(State(), AsSet(peers), quorum, LastIndex(log));
      at := log[|log| - 1].index;
      while at > commitIndex
        invariant at < |log|
        invariant QuorumIndex(State(), AsSet(peers), quorum, LastIndex(log))
                  == QuorumIndex(State(), AsSet(peers), quorum, at)
      {
        if log[at].term == currentTerm {
          var count := CountHolders(at);
          if count >= quorum {
            return;
          }
        }
        at := at - 1;
      }
      at := commitIndex;
    }

    /** That position is committed, and what it commits is handed over. */
    method MaybeAdvanceCommitIndex()
      requires Sound() && PeersOk()
      modifies this`commitIndex, this`lastApplied, this`applied
      ensures State() == AdvanceCommit(old(State()), AsSet(peers), quorum).0
      ensures HighestCountable(old(State()), AsSet(peers), quorum, commitIndex)
      ensures applied == old(applied) + AdvanceCommit(old(State()), AsSet(peers), quorum).1
    {
      assert applied + [] == applied;
      var at := FindQuorumIndex();
      if at > commitIndex {
        commitIndex := at;
        assert State() == old(State()).(commitIndex := at);
        var aborted := ApplyCommittedEntries();
      }
    }

    /** The answer of `peer` to a request of this node. */
    method ReceiveAppendAnswer(peer: Id, req: AppendRequest, answer: AppendAnswer)
      requires Valid() && Sound() && PeersOk()
      modifies this
      ensures Valid()
      ensures State() == HandleAppendAnswer(old(State()), peer, req, answer, AsSet(peers), quorum).0
      ensures applied == old(applied) + HandleAppendAnswer(old(State()), peer, req, answer, AsSet(peers), quorum).1
    {
      assert applied + [] == applied;
      if answer.term > currentTerm {
        AdoptTerm(answer.term);
        return;
      }
      if role != Leader || currentTerm != req.term { return; }
      if answer.success {
        if |req.entries| > 0 {
          var last := req.entries[|req.entries| - 1].index;
          matchIndex := matchIndex[peer := last];
          nextIndex := nextIndex[peer := last + 1];
          MaybeAdvanceCommitIndex();
        }
      } else if peer in nextIndex && nextIndex[peer] > 1 {
        nextIndex := nextIndex[peer := nextIndex[peer] - 1];
      }
    }
  }
}
