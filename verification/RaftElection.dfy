/**
 Election safety: a term has at most one leader in every run.

 A candidate that hears from a leader of its own term forgets its vote inside that
 term and may vote again.  What survives is weaker than "one vote per term": as long
 as a term has no leader, and for the voters of its leader for ever, votes are unique.
 */
module RaftElection {
  import opened Bytes
  import opened RaftTypes
  import opened RaftHandlers
  import opened RaftCluster

  /** `v` asked for votes in term `t`, which counts as a vote for itself. */
  ghost predicate Stood(c: Cluster, v: Id, t: nat) {
    exists q :: q in c.voteRequests && q.candidate == v && q.term == t
  }

  ghost predicate Voted(c: Cluster, v: Id, candidate: Id, t: nat) {
    (v == candidate && Stood(c, v, t)) || Granted(c, v, candidate, t)
  }

  /** The vote of `v` in term `t` still binds it. */
  ghost predicate Bound(c: Cluster, v: Id, t: nat) {
    t !in c.reigns || v in c.reigns[t].voters
  }

  ghost predicate NodesOk(c: Cluster) {
    && NOBODY !in c.members
    && c.nodes.Keys == c.members
    && forall i :: i in c.nodes ==> c.nodes[i].id == i
  }

  ghost predicate RequestsOk(c: Cluster)
    requires NodesOk(c)
  {
    forall q :: q in c.voteRequests ==>
      && q.candidate in c.members
      && 1 <= q.term <= c.nodes[q.candidate].currentTerm
      && (c.nodes[q.candidate].currentTerm == q.term && c.nodes[q.candidate].role == Candidate
          ==> q == Ballot(c.nodes[q.candidate]))
  }

  ghost predicate RepliesOk(c: Cluster)
    requires NodesOk(c)
  {
    forall r :: r in c.voteReplies ==>
      && r.request in c.voteRequests
      && r.voter in c.members
      && r.voter != r.request.candidate
      && (r.answer.granted ==> UpToDate(r.request, r.voterLog) && r.request.term <= c.nodes[r.voter].currentTerm)
  }

  ghost predicate VotesStand(c: Cluster)
    requires NodesOk(c)
  {
    forall v, d, t :: Voted(c, v, d, t) && Bound(c, v, t) && v in c.members && c.nodes[v].currentTerm == t ==>
      c.nodes[v].votedFor == d
  }

  ghost predicate VotesUnique(c: Cluster) {
    forall v, d, e, t :: Voted(c, v, d, t) && Voted(c, v, e, t) && Bound(c, v, t) ==> d == e
  }

  ghost predicate CandidateOk(c: Cluster, n: NodeState) {
    n.role == Candidate ==>
      && n.votedFor == n.id
      && Stood(c, n.id, n.currentTerm)
      && n.id !in n.votes
      && (forall v :: v in n.votes ==> Granted(c, v, n.id, n.currentTerm))
      && (n.currentTerm in c.reigns ==> n.id !in c.reigns[n.currentTerm].voters)
  }

  ghost predicate LeaderOk(c: Cluster, n: NodeState) {
    n.role == Leader ==> n.currentTerm in c.reigns && c.reigns[n.currentTerm].leader == n.id
  }

  ghost predicate ReignOk(c: Cluster, t: nat)
    requires t in c.reigns
  {
    var r := c.reigns[t];
    && r.leader in r.voters
    && r.voters.Keys <= c.members
    && |r.voters.Keys| >= Quorum(c.members)
    && forall v :: v in r.voters ==> Voted(c, v, r.leader, t)
  }

  ghost predicate ElectionInv(c: Cluster) {
    && NodesOk(c)
    && RequestsOk(c)
    && RepliesOk(c)
    && VotesStand(c)
    && VotesUnique(c)
    && (forall i :: i in c.nodes ==> CandidateOk(c, c.nodes[i]) && LeaderOk(c, c.nodes[i]))
    && (forall t :: t in c.reigns ==> ReignOk(c, t))
  }

  lemma VotedBounds(c: Cluster, v: Id, d: Id, t: nat)
    requires NodesOk(c) && RequestsOk(c) && RepliesOk(c)
    requires Voted(c, v, d, t)
    ensures v in c.members && d in c.members
    ensures t <= c.nodes[v].currentTerm && t <= c.nodes[d].currentTerm
    ensures Stood(c, d, t)
  {
    if v == d && Stood(c, v, t) {
      var q :| q in c.voteRequests && q.candidate == v && q.term == t;
    } else {
      var r :| r in c.voteReplies && GrantsTo(r, v, d, t);
      assert r.request in c.voteRequests;
    }
  }

  /** The winner's electorate is a quorum of members that voted for it. */
  lemma WinnerHasQuorum(c: Cluster, i: Id)
    requires ElectionInv(c) && i in c.nodes && c.nodes[i].role == Candidate
    requires |c.nodes[i].votes| + 1 >= Quorum(c.members)
    ensures Electorate(c, c.nodes[i]).Keys <= c.members
    ensures |Electorate(c, c.nodes[i]).Keys| >= Quorum(c.members)
    ensures forall v :: v in Electorate(c, c.nodes[i]) ==> Voted(c, v, i, c.nodes[i].currentTerm)
  {
    var n := c.nodes[i];
    assert CandidateOk(c, n);
    assert Electorate(c, n).Keys == n.votes + {i};
    assert |n.votes + {i}| == |n.votes| + 1;
    forall v | v in n.votes + {i}
      ensures v in c.members && Voted(c, v, i, n.currentTerm)
    {
      assert Voted(c, v, i, n.currentTerm);
      VotedBounds(c, v, i, n.currentTerm);
    }
  }

  /** A candidate with a quorum is the first winner of its term. */
  lemma NewReign(c: Cluster, i: Id)
    requires ElectionInv(c) && i in c.nodes && c.nodes[i].role == Candidate
    requires |c.nodes[i].votes| + 1 >= Quorum(c.members)
    ensures c.nodes[i].currentTerm !in c.reigns
  {
    var n := c.nodes[i];
    var t := n.currentTerm;
    assert CandidateOk(c, n);
    if t in c.reigns {
      WinnerHasQuorum(c, i);
      assert ReignOk(c, t);
      var v := QuorumsMeet(c.members, Electorate(c, n).Keys, c.reigns[t].voters.Keys);
      assert Voted(c, v, i, t) && Voted(c, v, c.reigns[t].leader, t) && Bound(c, v, t);
      assert false;
    }
  }

  // ---- preservation ----

  /** How a node may change in a step that casts and counts no vote. */
  ghost predicate Quiet(c: Cluster, n: NodeState, n': NodeState) {
    && n'.id == n.id
    && n'.currentTerm >= n.currentTerm
    && (n'.currentTerm > n.currentTerm ==> n'.role == Follower)
    && (n'.currentTerm == n.currentTerm ==>
        || (n.role == Candidate && n'.role == Follower && n.currentTerm in c.reigns)
        || (n'.votedFor == n.votedFor && n'.role == Follower)
        || (n'.votedFor == n.votedFor && n'.role == n.role
            && (n.role == Candidate ==> n'.log == n.log && n'.votes == n.votes)))
  }

  ghost predicate SameElectorate(c: Cluster, c': Cluster) {
    && c'.reigns.Keys == c.reigns.Keys
    && forall t :: t in c.reigns ==>
         c'.reigns[t].leader == c.reigns[t].leader && c'.reigns[t].voters == c.reigns[t].voters
  }

  lemma QuietStep(c: Cluster, c': Cluster)
    requires ElectionInv(c)
    requires c'.members == c.members && c'.nodes.Keys == c.nodes.Keys
    requires c'.voteRequests == c.voteRequests && c'.voteReplies == c.voteReplies
    requires SameElectorate(c, c')
    requires forall i :: i in c.nodes ==> Quiet(c, c.nodes[i], c'.nodes[i])
    ensures ElectionInv(c')
  {
    assert forall v, t :: Stood(c', v, t) <==> Stood(c, v, t);
    assert forall v, d, t :: Granted(c', v, d, t) <==> Granted(c, v, d, t);
    assert forall v, d, t :: Voted(c', v, d, t) <==> Voted(c, v, d, t);
    assert forall v, t :: Bound(c', v, t) <==> Bound(c, v, t);
    assert NodesOk(c');
    forall q | q in c.voteRequests
      ensures 1 <= q.term <= c'.nodes[q.candidate].currentTerm
      ensures c'.nodes[q.candidate].currentTerm == q.term && c'.nodes[q.candidate].role == Candidate
              ==> q == Ballot(c'.nodes[q.candidate])
    {
      assert Quiet(c, c.nodes[q.candidate], c'.nodes[q.candidate]);
    }
    assert RepliesOk(c') by {
      forall r | r in c.voteReplies
        ensures c'.nodes[r.voter].currentTerm >= c.nodes[r.voter].currentTerm
      {
        assert Quiet(c, c.nodes[r.voter], c'.nodes[r.voter]);
      }
    }
    forall v, d, t | Voted(c', v, d, t) && Bound(c', v, t) && v in c'.members && c'.nodes[v].currentTerm == t
      ensures c'.nodes[v].votedFor == d
    {
      VotedBounds(c, v, d, t);
      assert Quiet(c, c.nodes[v], c'.nodes[v]);
      assert CandidateOk(c, c.nodes[v]);
    }
    forall i | i in c'.nodes
      ensures CandidateOk(c', c'.nodes[i]) && LeaderOk(c', c'.nodes[i])
    {
      assert Quiet(c, c.nodes[i], c'.nodes[i]);
      assert CandidateOk(c, c.nodes[i]) && LeaderOk(c, c.nodes[i]);
    }
    forall t | t in c'.reigns
      ensures ReignOk(c', t)
    {
      assert ReignOk(c, t);
    }
  }

  lemma TimeoutVotes(c: Cluster, i: Id)
    requires NodesOk(c) && RequestsOk(c) && RepliesOk(c) && VotesStand(c) && VotesUnique(c) && CanTimeout(c, i)
    ensures NodesOk(AfterTimeout(c, i))
    ensures VotesStand(AfterTimeout(c, i)) && VotesUnique(AfterTimeout(c, i))
  {
    var c' := AfterTimeout(c, i);
    var t0 := c.nodes[i].currentTerm + 1;
    assert forall v, t :: Stood(c', v, t) ==> Stood(c, v, t) || (v == i && t == t0);
    assert forall v, d, t :: Granted(c', v, d, t) <==> Granted(c, v, d, t);
    assert forall v, d, t :: Voted(c', v, d, t) ==> Voted(c, v, d, t) || (v == d == i && t == t0);
    assert forall v, t :: Bound(c', v, t) <==> Bound(c, v, t);
    forall d
      ensures !Voted(c, i, d, t0)
    {
      if Voted(c, i, d, t0) {
        VotedBounds(c, i, d, t0);
        assert false;
      }
    }
  }

  lemma TimeoutRoles(c: Cluster, i: Id)
    requires ElectionInv(c) && CanTimeout(c, i)
    ensures var c' := AfterTimeout(c, i);
            && (forall t :: t in c'.reigns ==> ReignOk(c', t))
            && (forall j :: j in c'.nodes ==> CandidateOk(c', c'.nodes[j]) && LeaderOk(c', c'.nodes[j]))
  {
    var c' := AfterTimeout(c, i);
    var n := c'.nodes[i];
    assert Ballot(n) in c'.voteRequests;
    assert forall v, t :: Stood(c, v, t) ==> Stood(c', v, t);
    assert forall v, d, t :: Granted(c, v, d, t) ==> Granted(c', v, d, t);
    forall t | t in c'.reigns
      ensures ReignOk(c', t) && (t == n.currentTerm ==> i !in c.reigns[t].voters)
    {
      assert ReignOk(c, t);
      forall v | v in c.reigns[t].voters
        ensures Voted(c', v, c.reigns[t].leader, t) && t <= c.nodes[v].currentTerm
      {
        VotedBounds(c, v, c.reigns[t].leader, t);
      }
    }
    forall j | j in c'.nodes
      ensures CandidateOk(c', c'.nodes[j]) && LeaderOk(c', c'.nodes[j])
    {
      assert CandidateOk(c, c.nodes[j]) && LeaderOk(c, c.nodes[j]);
    }
  }

  lemma TimeoutStep(c: Cluster, i: Id)
    requires ElectionInv(c) && CanTimeout(c, i)
    ensures ElectionInv(AfterTimeout(c, i))
  {
    TimeoutVotes(c, i);
    TimeoutRoles(c, i);
  }

  lemma RefusalStep(c: Cluster, r: VoteReply)
    requires ElectionInv(c) && !r.answer.granted
    requires r.request in c.voteRequests && r.voter in c.members && r.voter != r.request.candidate
    ensures ElectionInv(c.(voteReplies := c.voteReplies + {r}))
  {
    var c' := c.(voteReplies := c.voteReplies + {r});
    assert forall v, t :: Stood(c', v, t) <==> Stood(c, v, t);
    assert forall v, d, t :: Granted(c', v, d, t) <==> Granted(c, v, d, t) by {
      forall v, d, t | Granted(c', v, d, t)
        ensures Granted(c, v, d, t)
      {
        var g :| g in c'.voteReplies && GrantsTo(g, v, d, t);
        assert g in c.voteReplies;
      }
      forall v, d, t | Granted(c, v, d, t)
        ensures Granted(c', v, d, t)
      {
        var g :| g in c.voteReplies && GrantsTo(g, v, d, t);
        assert g in c'.voteReplies;
      }
    }
    assert forall v, d, t :: Voted(c', v, d, t) <==> Voted(c, v, d, t);
    assert forall v, t :: Bound(c', v, t) <==> Bound(c, v, t);
    forall j | j in c'.nodes
      ensures CandidateOk(c', c'.nodes[j]) && LeaderOk(c', c'.nodes[j])
    {
      assert CandidateOk(c, c.nodes[j]) && LeaderOk(c, c.nodes[j]);
    }
    forall t | t in c'.reigns
      ensures ReignOk(c', t)
    {
      assert ReignOk(c, t);
    }
  }

  /** The new votes after `i` granted `r` are the old ones and that one. */
  lemma GrantedAfter(c: Cluster, c': Cluster, r: VoteReply)
    requires r.answer.granted && c'.voteReplies == c.voteReplies + {r}
    ensures forall v, d, t :: Granted(c', v, d, t) <==> Granted(c, v, d, t) || GrantsTo(r, v, d, t)
  {
    forall v, d, t | Granted(c', v, d, t)
      ensures Granted(c, v, d, t) || GrantsTo(r, v, d, t)
    {
      var g :| g in c'.voteReplies && GrantsTo(g, v, d, t);
      assert g in c.voteReplies || g == r;
    }
    forall v, d, t | Granted(c, v, d, t) || GrantsTo(r, v, d, t)
      ensures Granted(c', v, d, t)
    {
      if Granted(c, v, d, t) {
        var g :| g in c.voteReplies && GrantsTo(g, v, d, t);
        assert g in c'.voteReplies;
      } else {
        assert r in c'.voteReplies;
      }
    }
  }

  /** A new vote for `d0` by a node that has voted for nobody else in its term keeps votes unique. */
  lemma VoteCast(c: Cluster, c': Cluster, i: Id, d0: Id)
    requires NodesOk(c) && RequestsOk(c) && RepliesOk(c) && VotesStand(c) && VotesUnique(c)
    requires NodesOk(c') && c'.members == c.members && i in c.nodes
    requires c.nodes[i].votedFor == NOBODY || c.nodes[i].votedFor == d0
    requires forall j :: j in c.nodes && j != i ==> c'.nodes[j] == c.nodes[j]
    requires c'.nodes[i].currentTerm == c.nodes[i].currentTerm && c'.nodes[i].votedFor == d0
    requires forall v, d, t :: Voted(c', v, d, t) ==>
      Voted(c, v, d, t) || (v == i && d == d0 && t == c.nodes[i].currentTerm)
    requires c'.reigns == c.reigns
    ensures VotesStand(c') && VotesUnique(c')
  {
    var t0 := c.nodes[i].currentTerm;
    assert forall v, t :: Bound(c', v, t) <==> Bound(c, v, t);
    forall d | Voted(c, i, d, t0) && Bound(c, i, t0)
      ensures d == d0
    {
      VotedBounds(c, i, d, t0);
    }
  }

  /** With more votes known and no reign changed, reigns and roles stay justified. */
  lemma MoreVotes(c: Cluster, c': Cluster)
    requires forall t :: t in c.reigns ==> ReignOk(c, t)
    requires forall i :: i in c.nodes ==> CandidateOk(c, c.nodes[i]) && LeaderOk(c, c.nodes[i])
    requires c'.members == c.members && c'.reigns == c.reigns && c'.nodes.Keys == c.nodes.Keys
    requires forall v, t :: Stood(c, v, t) ==> Stood(c', v, t)
    requires forall v, d, t :: Granted(c, v, d, t) ==> Granted(c', v, d, t)
    requires forall i :: i in c.nodes && c'.nodes[i] != c.nodes[i] ==>
      && c.nodes[i].role != Candidate && c'.nodes[i].role == c.nodes[i].role
      && c'.nodes[i].currentTerm == c.nodes[i].currentTerm && c'.nodes[i].id == c.nodes[i].id
    ensures forall t :: t in c'.reigns ==> ReignOk(c', t)
    ensures forall i :: i in c'.nodes ==> CandidateOk(c', c'.nodes[i]) && LeaderOk(c', c'.nodes[i])
  {
    forall t | t in c'.reigns
      ensures ReignOk(c', t)
    {
      assert ReignOk(c, t);
      forall v | v in c.reigns[t].voters
        ensures Voted(c', v, c.reigns[t].leader, t)
      {
        assert Voted(c, v, c.reigns[t].leader, t);
      }
    }
    forall i | i in c'.nodes
      ensures CandidateOk(c', c'.nodes[i]) && LeaderOk(c', c'.nodes[i])
    {
      assert CandidateOk(c, c.nodes[i]) && LeaderOk(c, c.nodes[i]);
    }
  }

  /** Node `i`, already in the term of `q` and free to vote for its sender, does so. */
  lemma GrantStep(c: Cluster, i: Id, q: VoteRequest, r: VoteReply)
    requires ElectionInv(c) && i in c.nodes && q in c.voteRequests && i != q.candidate
    requires c.nodes[i].currentTerm == q.term
    requires c.nodes[i].votedFor == NOBODY || c.nodes[i].votedFor == q.candidate
    requires r.voter == i && r.request == q && r.answer.granted && UpToDate(q, r.voterLog)
    ensures ElectionInv(Update(c, Persist(c.nodes[i].(votedFor := q.candidate)))
                        .(voteReplies := c.voteReplies + {r}))
  {
    var n := Persist(c.nodes[i].(votedFor := q.candidate));
    var c' := Update(c, n).(voteReplies := c.voteReplies + {r});
    assert CandidateOk(c, c.nodes[i]) && LeaderOk(c, c.nodes[i]);
    assert forall v, t :: Stood(c', v, t) <==> Stood(c, v, t);
    GrantedAfter(c, c', r);
    assert NodesOk(c');
    VoteCast(c, c', i, q.candidate);
    MoreVotes(c, c');
  }

  lemma AdoptTerm(c: Cluster, i: Id, term: nat)
    requires ElectionInv(c) && i in c.nodes && term > c.nodes[i].currentTerm
    ensures ElectionInv(Update(c, StepDown(c.nodes[i], term)))
  {
    QuietStep(c, Update(c, StepDown(c.nodes[i], term)));
  }

  lemma VoteRequestStep(c: Cluster, i: Id, q: VoteRequest)
    requires ElectionInv(c) && CanVote(c, i, q)
    ensures ElectionInv(AfterVoteRequest(c, i, q))
  {
    var n := c.nodes[i];
    var mid := if q.term > n.currentTerm then Update(c, StepDown(n, q.term)) else c;
    if q.term > n.currentTerm {
      AdoptTerm(c, i, q.term);
    }
    VoteInTerm(mid, i, q, n.log);
    var (n', answer) := HandleVoteRequest(n, q);
    assert (n', answer) == HandleVoteRequest(mid.nodes[i], q);
    assert mid.nodes[i := n'] == c.nodes[i := n'];
  }

  lemma VoteInTerm(c: Cluster, i: Id, q: VoteRequest, log: seq<Entry>)
    requires ElectionInv(c) && i in c.nodes && q in c.voteRequests && i != q.candidate
    requires q.term <= c.nodes[i].currentTerm && log == c.nodes[i].log
    ensures var (n, answer) := HandleVoteRequest(c.nodes[i], q);
            ElectionInv(Update(c, n).(voteReplies := c.voteReplies + {VoteReply(i, q, answer, log)}))
  {
    var (n, answer) := HandleVoteRequest(c.nodes[i], q);
    var r := VoteReply(i, q, answer, log);
    if answer.granted {
      GrantStep(c, i, q, r);
    } else {
      RefusalStep(c, r);
      assert c.nodes[i := c.nodes[i]] == c.nodes;
    }
  }

  /** Terms, votes and logs stay. */
  lemma SameVotes(c: Cluster, c': Cluster)
    requires NodesOk(c) && RequestsOk(c) && RepliesOk(c) && VotesStand(c) && VotesUnique(c)
    requires c'.reigns == c.reigns && c'.members == c.members && c'.nodes.Keys == c.nodes.Keys
    requires c'.voteRequests == c.voteRequests && c'.voteReplies == c.voteReplies
    requires forall i :: i in c.nodes ==>
      && c'.nodes[i].id == c.nodes[i].id && c'.nodes[i].role == c.nodes[i].role && c'.nodes[i].log == c.nodes[i].log
      && c'.nodes[i].currentTerm == c.nodes[i].currentTerm && c'.nodes[i].votedFor == c.nodes[i].votedFor
    ensures NodesOk(c') && RequestsOk(c') && RepliesOk(c') && VotesStand(c') && VotesUnique(c')
  {
    assert forall v, t :: Stood(c', v, t) <==> Stood(c, v, t);
    assert forall v, d, t :: Granted(c', v, d, t) <==> Granted(c, v, d, t);
    assert forall v, d, t :: Voted(c', v, d, t) <==> Voted(c, v, d, t);
    assert forall v, t :: Bound(c', v, t) <==> Bound(c, v, t);
  }

  /** A granting answer is counted. */
  lemma TallyStep(c: Cluster, c': Cluster, r: VoteReply)
    requires ElectionInv(c) && CanCount(c, r) && r.answer.granted
    requires var n := c.nodes[r.request.candidate];
             n.role == Candidate && n.currentTerm == r.request.term
             && c' == Update(c, n.(votes := n.votes + {r.voter}))
    ensures ElectionInv(c')
  {
    SameVotes(c, c');
    TallyRoles(c, c', r);
  }

  lemma TallyRoles(c: Cluster, c': Cluster, r: VoteReply)
    requires NodesOk(c) && RepliesOk(c) && CanCount(c, r) && r.answer.granted
    requires forall i :: i in c.nodes ==> CandidateOk(c, c.nodes[i]) && LeaderOk(c, c.nodes[i])
    requires forall t :: t in c.reigns ==> ReignOk(c, t)
    requires var n := c.nodes[r.request.candidate];
             n.role == Candidate && n.currentTerm == r.request.term
             && c' == Update(c, n.(votes := n.votes + {r.voter}))
    ensures forall i :: i in c'.nodes ==> CandidateOk(c', c'.nodes[i]) && LeaderOk(c', c'.nodes[i])
    ensures forall t :: t in c'.reigns ==> ReignOk(c', t)
  {
    assert GrantsTo(r, r.voter, r.request.candidate, r.request.term);
    assert forall v, t :: Stood(c', v, t) <==> Stood(c, v, t);
    assert forall v, d, t :: Granted(c', v, d, t) <==> Granted(c, v, d, t);
    forall j | j in c'.nodes
      ensures CandidateOk(c', c'.nodes[j]) && LeaderOk(c', c'.nodes[j])
    {
      assert CandidateOk(c, c.nodes[j]) && LeaderOk(c, c.nodes[j]);
    }
    forall t | t in c'.reigns
      ensures ReignOk(c', t)
    {
      assert ReignOk(c, t);
    }
  }

  lemma VoteReplyStep(c: Cluster, r: VoteReply)
    requires ElectionInv(c) && CanCount(c, r)
    ensures ElectionInv(AfterVoteReply(c, r))
  {
    var n := c.nodes[r.request.candidate];
    if r.answer.term > n.currentTerm {
      AdoptTerm(c, n.id, r.answer.term);
    } else if n.role == Candidate && n.currentTerm == r.request.term && r.answer.granted {
      TallyStep(c, AfterVoteReply(c, r), r);
    } else {
      assert c.nodes[n.id := n] == c.nodes;
    }
  }

  lemma WinStep(c: Cluster, i: Id)
    requires ElectionInv(c) && CanWin(c, i)
    ensures ElectionInv(AfterWin(c, i))
  {
    NewReign(c, i);
    WinRoles(c, i);
    WinReigns(c, i);
    WinShape(c, i);
    FewerBound(c, AfterWin(c, i), c.nodes[i].currentTerm);
  }

  lemma WinShape(c: Cluster, i: Id)
    requires NodesOk(c) && CanWin(c, i)
    ensures var c' := AfterWin(c, i);
            && c'.reigns.Keys == c.reigns.Keys + {c.nodes[i].currentTerm}
            && (forall t :: t in c.reigns && t != c.nodes[i].currentTerm ==> c'.reigns[t] == c.reigns[t])
            && c'.members == c.members && c'.nodes.Keys == c.nodes.Keys
            && (forall j :: j in c.nodes ==>
                && c'.nodes[j].id == c.nodes[j].id
                && c'.nodes[j].currentTerm == c.nodes[j].currentTerm && c'.nodes[j].votedFor == c.nodes[j].votedFor
                && (c'.nodes[j].role == Candidate ==> c'.nodes[j] == c.nodes[j]))
  {}

  lemma WinReigns(c: Cluster, i: Id)
    requires ElectionInv(c) && CanWin(c, i)
    ensures var c' := AfterWin(c, i);
            forall t :: t in c'.reigns ==> ReignOk(c', t)
  {
    var c' := AfterWin(c, i);
    WinnerHasQuorum(c, i);
    assert forall v, t :: Stood(c', v, t) <==> Stood(c, v, t);
    assert forall v, d, t :: Granted(c', v, d, t) <==> Granted(c, v, d, t);
    forall t | t in c'.reigns
      ensures ReignOk(c', t)
    {
      if t != c.nodes[i].currentTerm {
        assert ReignOk(c, t);
      }
    }
  }

  /** A first reign of term `t0` only releases votes. */
  lemma FewerBound(c: Cluster, c': Cluster, t0: nat)
    requires NodesOk(c) && RequestsOk(c) && RepliesOk(c) && VotesStand(c) && VotesUnique(c)
    requires t0 !in c.reigns && c'.reigns.Keys == c.reigns.Keys + {t0}
    requires forall t :: t in c.reigns ==> c'.reigns[t] == c.reigns[t]
    requires c'.members == c.members && c'.nodes.Keys == c.nodes.Keys
    requires c'.voteRequests == c.voteRequests && c'.voteReplies == c.voteReplies
    requires forall i :: i in c.nodes ==>
      && c'.nodes[i].id == c.nodes[i].id
      && c'.nodes[i].currentTerm == c.nodes[i].currentTerm && c'.nodes[i].votedFor == c.nodes[i].votedFor
      && (c'.nodes[i].role == Candidate ==> c'.nodes[i] == c.nodes[i])
    ensures NodesOk(c') && RequestsOk(c') && RepliesOk(c') && VotesStand(c') && VotesUnique(c')
  {
    assert forall v, t :: Stood(c', v, t) <==> Stood(c, v, t);
    assert forall v, d, t :: Granted(c', v, d, t) <==> Granted(c, v, d, t);
    assert forall v, d, t :: Voted(c', v, d, t) <==> Voted(c, v, d, t);
    assert forall v, t :: Bound(c', v, t) ==> Bound(c, v, t);
  }

  lemma WinRoles(c: Cluster, i: Id)
    requires ElectionInv(c) && CanWin(c, i)
    ensures var c' := AfterWin(c, i);
            forall j :: j in c'.nodes ==> CandidateOk(c', c'.nodes[j]) && LeaderOk(c', c'.nodes[j])
  {
    var n := c.nodes[i];
    var t0 := n.currentTerm;
    var c' := AfterWin(c, i);
    WinnerHasQuorum(c, i);
    NewReign(c, i);
    assert forall v, t :: Stood(c', v, t) <==> Stood(c, v, t);
    assert forall v, d, t :: Granted(c', v, d, t) <==> Granted(c, v, d, t);
    forall j | j in c'.nodes
      ensures CandidateOk(c', c'.nodes[j]) && LeaderOk(c', c'.nodes[j])
    {
      assert CandidateOk(c, c.nodes[j]) && LeaderOk(c, c.nodes[j]);
      if j != i && c.nodes[j].role == Candidate && c.nodes[j].currentTerm == t0 && j in Electorate(c, n) {
        assert Voted(c, j, i, t0) && Bound(c, j, t0);
        assert false;
      }
    }
  }

  lemma InitElection(members: set<Id>)
    requires NOBODY !in members
    ensures ElectionInv(Init(members))
  {
    var c := Init(members);
    assert forall v, t :: !Stood(c, v, t);
    assert forall v, d, t :: !Granted(c, v, d, t);
    assert forall v, d, t :: !Voted(c, v, d, t);
  }

  /** Requests are sent by the leader of their term, so their term has a reign. */
  ghost predicate SentByReign(c: Cluster) {
    forall a :: a in c.appends ==> a.request.term in c.reigns
  }

  ghost predicate Synced(n: NodeState) {
    n.disk == Durable(n.currentTerm, n.votedFor, n.log)
  }

  lemma AppendIsQuiet(c: Cluster, n: NodeState, req: AppendRequest)
    requires req.term in c.reigns
    ensures Quiet(c, n, HandleAppend(n, req).0)
  {}

  lemma AppendAnswerIsQuiet(
    c: Cluster, n: NodeState, peer: Id, req: AppendRequest, a: AppendAnswer, peers: set<Id>, q: nat)
    ensures Quiet(c, n, HandleAppendAnswer(n, peer, req, a, peers, q).0)
  {}

  lemma ChangeOne(c: Cluster, c': Cluster, n: NodeState)
    requires ElectionInv(c) && n.id in c.nodes && Quiet(c, c.nodes[n.id], n)
    requires c'.members == c.members && c'.nodes == c.nodes[n.id := n]
    requires c'.voteRequests == c.voteRequests && c'.voteReplies == c.voteReplies
    requires SameElectorate(c, c')
    ensures ElectionInv(c')
  {
    QuietStep(c, c');
  }

  lemma ReceiveAppendStep(c: Cluster, a: Append)
    requires ElectionInv(c) && SentByReign(c) && CanAppend(c, a)
    ensures ElectionInv(AfterAppend(c, a))
  {
    var n := HandleAppend(c.nodes[a.to], a.request).0;
    AppendIsQuiet(c, c.nodes[a.to], a.request);
    ChangeOne(c, AfterAppend(c, a), n);
  }

  lemma ReceiveAppendReplyStep(c: Cluster, r: AppendReply)
    requires ElectionInv(c) && CanLearn(c, r)
    ensures ElectionInv(AfterAppendReply(c, r))
  {
    var i := r.append.request.leader;
    var n := HandleAppendAnswer(
      c.nodes[i], r.append.to, r.append.request, r.answer, Peers(c, i), Quorum(c.members)).0;
    AppendAnswerIsQuiet(c, c.nodes[i], r.append.to, r.append.request, r.answer, Peers(c, i), Quorum(c.members));
    ChangeOne(c, AfterAppendReply(c, r), n);
  }

  lemma ProposalShape(c: Cluster, i: Id, data: seq<byte>)
    requires NodesOk(c) && Leads(c, i)
    ensures Quiet(c, c.nodes[i], Propose(c.nodes[i], data))
    ensures SameElectorate(c, AfterProposal(c, i, data))
  {}

  lemma ProposalStep(c: Cluster, i: Id, data: seq<byte>)
    requires ElectionInv(c) && Leads(c, i)
    ensures ElectionInv(AfterProposal(c, i, data))
  {
    ProposalShape(c, i, data);
    ChangeOne(c, AfterProposal(c, i, data), Propose(c.nodes[i], data));
  }

  lemma SendStep(c: Cluster, i: Id, to: Id)
    requires ElectionInv(c) && CanSend(c, i, to)
    ensures ElectionInv(AfterSend(c, i, to))
  {
    QuietStep(c, AfterSend(c, i, to));
  }

  lemma CrashStep(c: Cluster, i: Id)
    requires ElectionInv(c) && i in c.nodes && Synced(c.nodes[i])
    ensures ElectionInv(AfterCrash(c, i))
  {
    ChangeOne(c, AfterCrash(c, i), Boot(i, c.nodes[i].disk));
  }

  /** A vote cleared within the term is safe even if the node then crashes: its term has a leader. */
  lemma CrashInHandlerStep(c: Cluster, i: Id, term: nat)
    requires ElectionInv(c) && SentByReign(c) && CanAdopt(c, i, term)
    ensures ElectionInv(AfterCrashInHandler(c, i, term))
  {
    ChangeOne(c, AfterCrashInHandler(c, i, term), Boot(i, StepDown(c.nodes[i], term).disk));
  }

  /** The state file has the log of the node and no earlier term. */
  ghost predicate KeepsLog(n: NodeState, d: Durable) {
    d.log == n.log && d.term >= n.currentTerm
  }

  /** Every step keeps the election invariant. */
  lemma ElectionStep(c: Cluster, step: Step)
    requires ElectionInv(c) && SentByReign(c) && Enabled(c, step)
    requires forall i :: i in c.nodes ==> Synced(c.nodes[i])
    ensures ElectionInv(Exec(c, step))
  {
    match step
    case Timeout(i) => TimeoutStep(c, i);
    case ReceiveVoteRequest(i, q) => VoteRequestStep(c, i, q);
    case ReceiveVoteReply(r) => VoteReplyStep(c, r);
    case WinElection(i) => WinStep(c, i);
    case ReceiveAppend(a) => ReceiveAppendStep(c, a);
    case ReceiveAppendReply(r) => ReceiveAppendReplyStep(c, r);
    case ClientProposal(i, data) => ProposalStep(c, i, data);
    case SendAppend(i, to) => SendStep(c, i, to);
    case CrashAndRestart(i) => CrashStep(c, i);
    case CrashInHandler(i, term) => CrashInHandlerStep(c, i, term);
  }
}
