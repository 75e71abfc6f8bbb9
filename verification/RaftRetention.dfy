/**
 Leader completeness: what a node acknowledged stays in its log unless a later leader
 was elected without it, and no leader is elected without an entry a quorum acknowledged.
 */
module RaftRetention {
  import opened Bytes
  import opened RaftTypes
  import opened RaftHandlers
  import opened RaftCluster
  import opened RaftElection
  import opened RaftLogs

  ghost predicate AckOf(r: AppendReply, p: Id, t: nat, m: nat) {
    && r.answer.success
    && r.append.to == p
    && r.append.request.term == t
    && r.append.request.prevIndex + |r.append.request.entries| >= m
  }

  /** `p` has at some time held the log of the leader of term `t` up to position `m`. */
  ghost predicate Acked(c: Cluster, p: Id, t: nat, m: nat) {
    && t in c.reigns
    && m < |c.reigns[t].log|
    && (p == c.reigns[t].leader || exists r :: r in c.appendReplies && AckOf(r, p, t, m))
  }

  ghost function Upto(c: Cluster, t: nat, m: nat): seq<Entry>
    requires t in c.reigns && m < |c.reigns[t].log|
  {
    c.reigns[t].log[..m + 1]
  }

  /** Some leader of a term after `t` and before `bound` was elected without `x`. */
  ghost predicate Lost(reigns: Reigns, x: seq<Entry>, t: nat, bound: nat) {
    exists u :: u in reigns && t < u < bound && !(x <= reigns[u].base)
  }

  /** Whatever `p` acknowledged before term `bound` is in `log`, unless a leader lost it. */
  ghost predicate Kept(c: Cluster, p: Id, log: seq<Entry>, bound: nat) {
    forall t: nat, m: nat :: Acked(c, p, t, m) && t < bound ==>
      Upto(c, t, m) <= log || Lost(c.reigns, Upto(c, t, m), t, bound)
  }

  ghost predicate NodeKeeps(c: Cluster, n: NodeState) {
    && (forall t: nat, m: nat :: Acked(c, n.id, t, m) ==> t <= n.currentTerm)
    && Kept(c, n.id, n.log, n.currentTerm + 1)
  }

  ghost predicate ReplyKeeps(c: Cluster, r: VoteReply) {
    r.answer.granted ==>
      && Founded(r.voterLog, c.reigns)
      && (r.request.term !in c.reigns ==> Kept(c, r.voter, r.voterLog, r.request.term))
  }

  /** The base of a reign is at least as up to date as the log of the voter. */
  ghost predicate Covers(base: seq<Entry>, log: seq<Entry>) {
    NotBehind(LastTerm(base), LastIndex(base), log)
  }

  ghost predicate VoterKeeps(c: Cluster, t: nat, v: Id)
    requires t in c.reigns && v in c.reigns[t].voters
  {
    var log := c.reigns[t].voters[v];
    Founded(log, c.reigns) && Covers(c.reigns[t].base, log) && Kept(c, v, log, t)
  }

  ghost predicate RetentionInv(c: Cluster) {
    && (forall i :: i in c.nodes ==> NodeKeeps(c, c.nodes[i]))
    && (forall r :: r in c.voteReplies ==> ReplyKeeps(c, r))
    && (forall t, v :: t in c.reigns && v in c.reigns[t].voters ==> VoterKeeps(c, t, v))
  }

  // ---- leader completeness ----

  ghost predicate QuorumAcks(c: Cluster, q: set<Id>, t: nat, k: nat) {
    q <= c.members && |q| >= Quorum(c.members) && forall p :: p in q ==> Acked(c, p, t, k)
  }

  /** The commit rule: an entry of its leader's own term that a quorum acknowledged. */
  ghost predicate Committed(c: Cluster, t: nat, k: nat) {
    && t in c.reigns
    && k < |c.reigns[t].log|
    && c.reigns[t].log[k].term == t
    && exists q :: QuorumAcks(c, q, t, k)
  }

  lemma CoversExtends(reigns: Reigns, base: seq<Entry>, log: seq<Entry>, t: nat, k: nat)
    requires Founded(base, reigns) && Founded(log, reigns) && Covers(base, log)
    requires forall u :: u in reigns ==> ReignLogOk(reigns, u)
    requires 1 <= k < |log| && log[k].term == t
    ensures log <= base || (t < LastTerm(base) && LastTerm(base) in reigns && reigns[LastTerm(base)].base <= base)
  {
    TermsAscend(log, k, |log| - 1, reigns);
    var b := |base| - 1;
    var l := |log| - 1;
    if LastTerm(base) == LastTerm(log) {
      LogMatching(base[..l + 1], log, l, reigns) by {
        assert Rooted(log, l, reigns);
        assert b >= 1 ==> Rooted(base, b, reigns);
        assert ReignLogOk(reigns, log[l].term);
        assert base[..b + 1] == base;
        assert base[l] == base[..b + 1][l];
        PrefixFounded(base, l + 1, reigns);
      }
      assert base[..l + 1] == log;
    } else {
      assert b >= 1 && Rooted(base, b, reigns);
      var r := reigns[base[b].term];
      assert ReignLogOk(reigns, base[b].term);
      assert base == base[..b + 1] == r.log[..b + 1];
    }
  }

  /** What the invariants say about the reigns alone. */
  ghost predicate Tenure(c: Cluster) {
    && (forall u :: u in c.reigns ==>
        && ReignLogOk(c.reigns, u)
        && c.reigns[u].voters.Keys <= c.members && |c.reigns[u].voters.Keys| >= Quorum(c.members))
    && (forall u, v :: u in c.reigns && v in c.reigns[u].voters ==> VoterKeeps(c, u, v))
  }

  lemma TenureHolds(c: Cluster)
    requires ElectionInv(c) && LogsInv(c) && RetentionInv(c)
    ensures Tenure(c)
  {
    forall u | u in c.reigns
      ensures c.reigns[u].voters.Keys <= c.members && |c.reigns[u].voters.Keys| >= Quorum(c.members)
    {
      assert ReignOk(c, u);
    }
  }

  /** The voter that ties the electorate of `u` to a quorum that acknowledged term `t`. */
  lemma SharedVoter(c: Cluster, t: nat, k: nat, u: nat) returns (v: Id)
    requires Committed(c, t, k) && u in c.reigns
    requires c.reigns[u].voters.Keys <= c.members && |c.reigns[u].voters.Keys| >= Quorum(c.members)
    ensures v in c.reigns[u].voters && Acked(c, v, t, k)
  {
    var q :| QuorumAcks(c, q, t, k);
    v := QuorumsMeet(c.members, q, c.reigns[u].voters.Keys);
  }

  lemma BaseFounded(reigns: Reigns, u: nat)
    requires u in reigns && ReignLogOk(reigns, u)
    ensures Founded(reigns[u].base, reigns)
    ensures LastTerm(reigns[u].base) < u
  {
    var r := reigns[u];
    PrefixFounded(r.log, |r.base|, reigns);
    assert r.log[..|r.base|] == r.base;
    assert r.base[|r.base| - 1] == r.log[|r.base| - 1];
  }

  /** One election: if every leader between `t` and `u` had the entry, so has the leader of `u`. */
  lemma ElectedWith(c: Cluster, t: nat, k: nat, u: nat, v: Id)
    requires forall w :: w in c.reigns ==> ReignLogOk(c.reigns, w)
    requires t in c.reigns && u in c.reigns && t < u
    requires v in c.reigns[u].voters && VoterKeeps(c, u, v) && Acked(c, v, t, k)
    requires c.reigns[t].log[k].term == t
    requires forall w :: w in c.reigns && t < w < u ==> Upto(c, t, k) <= c.reigns[w].base
    ensures Upto(c, t, k) <= c.reigns[u].base
  {
    var x := Upto(c, t, k);
    var log := c.reigns[u].voters[v];
    assert !Lost(c.reigns, x, t, u);
    assert x <= log;
    assert ReignLogOk(c.reigns, t) && ReignLogOk(c.reigns, u);
    BaseFounded(c.reigns, u);
    assert x[k] == log[k];
    assert k >= 1;
    CoversExtends(c.reigns, c.reigns[u].base, log, t, k);
  }

  /** An entry committed in term `t` is in the log every later leader is elected with. */
  lemma {:induction false} LeaderCompleteness(c: Cluster, t: nat, k: nat, u: nat)
    requires Tenure(c)
    requires Committed(c, t, k) && u in c.reigns && u > t
    ensures Upto(c, t, k) <= c.reigns[u].base
    decreases u
  {
    var v := SharedVoter(c, t, k, u);
    assert VoterKeeps(c, u, v);
    forall w | w in c.reigns && t < w < u
      ensures Upto(c, t, k) <= c.reigns[w].base
    {
      LeaderCompleteness(c, t, k, w);
    }
    ElectedWith(c, t, k, u, v);
  }

  // ---- preservation ----

  /** Growth of the reigns and a higher bound keep what was kept, if no acknowledgement below the bound is new. */
  lemma KeptGrows(c: Cluster, c': Cluster, p: Id, log: seq<Entry>, bound: nat, bound': nat)
    requires Kept(c, p, log, bound) && Grows(c.reigns, c'.reigns) && bound <= bound'
    requires forall t: nat, m: nat :: Acked(c', p, t, m) && t < bound' ==> Acked(c, p, t, m) && t < bound
    ensures Kept(c', p, log, bound')
  {
    forall t: nat, m: nat | Acked(c', p, t, m) && t < bound'
      ensures Upto(c', t, m) <= log || Lost(c'.reigns, Upto(c', t, m), t, bound')
    {
      assert Acked(c, p, t, m);
      assert Upto(c', t, m) == Upto(c, t, m);
      if !(Upto(c, t, m) <= log) {
        var u :| u in c.reigns && t < u < bound && !(Upto(c, t, m) <= c.reigns[u].base);
        assert u in c'.reigns && !(Upto(c', t, m) <= c'.reigns[u].base);
      }
    }
  }

  /** Nothing is acknowledged and no leader made; one node may move to a higher term. */
  lemma QuietRetention(c: Cluster, c': Cluster)
    requires RetentionInv(c)
    requires c'.reigns == c.reigns && c'.appendReplies == c.appendReplies && c'.nodes.Keys == c.nodes.Keys
    requires forall i :: i in c.nodes ==>
      && c'.nodes[i].id == c.nodes[i].id && c'.nodes[i].log == c.nodes[i].log
      && c'.nodes[i].currentTerm >= c.nodes[i].currentTerm
    requires forall r :: r in c'.voteReplies ==> r in c.voteReplies || ReplyKeeps(c', r)
    ensures RetentionInv(c')
  {
    assert forall p, t: nat, m: nat :: Acked(c', p, t, m) <==> Acked(c, p, t, m);
    forall i | i in c'.nodes
      ensures NodeKeeps(c', c'.nodes[i])
    {
      assert NodeKeeps(c, c.nodes[i]);
      KeptGrows(c, c', c.nodes[i].id, c.nodes[i].log, c.nodes[i].currentTerm + 1, c'.nodes[i].currentTerm + 1);
    }
    forall r | r in c'.voteReplies
      ensures ReplyKeeps(c', r)
    {
      if r in c.voteReplies {
        assert ReplyKeeps(c, r);
        if r.answer.granted && r.request.term !in c.reigns {
          KeptGrows(c, c', r.voter, r.voterLog, r.request.term, r.request.term);
        }
      }
    }
    forall t, v | t in c'.reigns && v in c'.reigns[t].voters
      ensures VoterKeeps(c', t, v)
    {
      assert VoterKeeps(c, t, v);
      KeptGrows(c, c', v, c.reigns[t].voters[v], t, t);
    }
  }

  /** A vote is cast with everything the voter acknowledged in earlier terms. */
  lemma GrantKeeps(c: Cluster, c': Cluster, i: Id, r: VoteReply)
    requires i in c.nodes && c.nodes[i].id == i && NodeKeeps(c, c.nodes[i]) && Founded(c.nodes[i].log, c.reigns)
    requires c'.reigns == c.reigns && c'.appendReplies == c.appendReplies
    requires r.voter == i && r.voterLog == c.nodes[i].log && r.request.term >= c.nodes[i].currentTerm
    ensures ReplyKeeps(c', r)
  {
    assert forall p, t: nat, m: nat :: Acked(c', p, t, m) <==> Acked(c, p, t, m);
    var b := r.request.term;
    if b !in c.reigns {
      forall t: nat, m: nat | Acked(c', i, t, m) && t < b
        ensures Upto(c', t, m) <= r.voterLog || Lost(c'.reigns, Upto(c', t, m), t, b)
      {
        assert Acked(c, i, t, m);
        if !(Upto(c, t, m) <= r.voterLog) {
          var u :| u in c.reigns && t < u < c.nodes[i].currentTerm + 1 && !(Upto(c, t, m) <= c.reigns[u].base);
          assert u < b;
        }
      }
    }
  }

  ghost predicate VotersCurrent(c: Cluster) {
    && (forall r :: r in c.voteReplies && r.answer.granted ==>
        r.voter in c.nodes && r.request.term <= c.nodes[r.voter].currentTerm)
    && (forall t, v :: t in c.reigns && v in c.reigns[t].voters ==> v in c.nodes && t <= c.nodes[v].currentTerm)
  }

  lemma VotersAreCurrent(c: Cluster)
    requires ElectionInv(c)
    ensures VotersCurrent(c)
  {
    forall t, v | t in c.reigns && v in c.reigns[t].voters
      ensures v in c.nodes && t <= c.nodes[v].currentTerm
    {
      assert ReignOk(c, t);
      VotedBounds(c, v, c.reigns[t].leader, t);
    }
  }

  /** Only node `i` acknowledges, and only in the term it is in after the step. */
  ghost predicate NewAcks(c: Cluster, c': Cluster, i: Id)
    requires i in c'.nodes
  {
    forall p, t: nat, m: nat :: Acked(c', p, t, m) ==>
      Acked(c, p, t, m) || (p == i && t == c'.nodes[i].currentTerm)
  }

  lemma AckingStep(c: Cluster, c': Cluster, i: Id)
    requires NodesOk(c) && RetentionInv(c) && VotersCurrent(c) && i in c.nodes
    requires c'.voteReplies == c.voteReplies && c'.nodes.Keys == c.nodes.Keys
    requires forall j :: j in c.nodes && j != i ==> c'.nodes[j] == c.nodes[j]
    requires c'.nodes[i].id == i && c'.nodes[i].currentTerm >= c.nodes[i].currentTerm
    requires Grows(c.reigns, c'.reigns) && NewAcks(c, c', i)
    requires NodeKeeps(c', c'.nodes[i])
    requires forall t, v :: t in c'.reigns && t !in c.reigns && v in c'.reigns[t].voters ==> VoterKeeps(c', t, v)
    ensures RetentionInv(c')
  {
    forall j | j in c'.nodes
      ensures NodeKeeps(c', c'.nodes[j])
    {
      if j != i {
        assert NodeKeeps(c, c.nodes[j]);
        KeptGrows(c, c', j, c.nodes[j].log, c.nodes[j].currentTerm + 1, c.nodes[j].currentTerm + 1);
      }
    }
    forall r | r in c'.voteReplies
      ensures ReplyKeeps(c', r)
    {
      assert ReplyKeeps(c, r);
      if r.answer.granted {
        FoundedGrows(r.voterLog, c.reigns, c'.reigns);
        if r.request.term !in c'.reigns {
          KeptGrows(c, c', r.voter, r.voterLog, r.request.term, r.request.term);
        }
      }
    }
    forall t, v | t in c'.reigns && v in c'.reigns[t].voters
      ensures VoterKeeps(c', t, v)
    {
      if t in c.reigns {
        assert VoterKeeps(c, t, v);
        FoundedGrows(c.reigns[t].voters[v], c.reigns, c'.reigns);
        KeptGrows(c, c', v, c.reigns[t].voters[v], t, t);
      }
    }
  }

  // ---- the steps ----

  lemma TimeoutRetention(c: Cluster, i: Id)
    requires NodesOk(c) && RetentionInv(c) && CanTimeout(c, i)
    ensures RetentionInv(AfterTimeout(c, i))
  {
    QuietRetention(c, AfterTimeout(c, i));
  }

  lemma VoteRequestFrame(c: Cluster, i: Id, q: VoteRequest)
    requires NodesOk(c) && CanVote(c, i, q)
    ensures var c' := AfterVoteRequest(c, i, q);
            var (n, answer) := HandleVoteRequest(c.nodes[i], q);
            && c'.reigns == c.reigns && c'.appendReplies == c.appendReplies && c'.nodes.Keys == c.nodes.Keys
            && c'.voteReplies == c.voteReplies + {VoteReply(i, q, answer, c.nodes[i].log)}
            && forall j :: j in c.nodes ==>
                 && c'.nodes[j].id == c.nodes[j].id && c'.nodes[j].log == c.nodes[j].log
                 && c'.nodes[j].currentTerm >= c.nodes[j].currentTerm
  {}

  lemma VoteRequestRetention(c: Cluster, i: Id, q: VoteRequest)
    requires NodesOk(c) && LogsInv(c) && RetentionInv(c) && CanVote(c, i, q)
    ensures RetentionInv(AfterVoteRequest(c, i, q))
  {
    var (n, answer) := HandleVoteRequest(c.nodes[i], q);
    VoteRequestFrame(c, i, q);
    if answer.granted {
      assert NodeLogOk(c.reigns, c.members, c.nodes[i]);
      GrantKeeps(c, AfterVoteRequest(c, i, q), i, VoteReply(i, q, answer, c.nodes[i].log));
    }
    QuietRetention(c, AfterVoteRequest(c, i, q));
  }

  lemma VoteReplyRetention(c: Cluster, r: VoteReply)
    requires NodesOk(c) && RetentionInv(c) && CanCount(c, r)
    ensures RetentionInv(AfterVoteReply(c, r))
  {
    QuietRetention(c, AfterVoteReply(c, r));
  }

  lemma SendRetention(c: Cluster, i: Id, to: Id)
    requires NodesOk(c) && RetentionInv(c) && CanSend(c, i, to)
    ensures RetentionInv(AfterSend(c, i, to))
  {
    QuietRetention(c, AfterSend(c, i, to));
  }

  lemma AppendReplyRetention(c: Cluster, r: AppendReply)
    requires NodesOk(c) && LogsInv(c) && RetentionInv(c) && CanLearn(c, r)
    ensures RetentionInv(AfterAppendReply(c, r))
  {
    var n := c.nodes[r.append.request.leader];
    assert AppendOk(c.reigns, c.members, r.append) && NodeLogOk(c.reigns, c.members, n);
    AppendAnswerQuiet(c, r, n);
    QuietRetention(c, AfterAppendReply(c, r));
  }

  lemma CrashRetention(c: Cluster, i: Id, d: Durable)
    requires NodesOk(c) && RetentionInv(c) && i in c.nodes && KeepsLog(c.nodes[i], d)
    ensures RetentionInv(AfterReboot(c, i, d))
  {
    QuietRetention(c, AfterReboot(c, i, d));
  }

  /** A leader that extends its log acknowledges the extension, and nobody else acknowledges more. */
  lemma ExtensionAcks(c: Cluster, c': Cluster, i: Id, t0: nat)
    requires t0 in c.reigns && c.reigns[t0].leader == i && Grows(c.reigns, c'.reigns)
    requires c'.reigns.Keys == c.reigns.Keys && c'.appendReplies == c.appendReplies
    requires forall u :: u in c.reigns && u != t0 ==> c'.reigns[u] == c.reigns[u]
    requires forall r :: r in c.appendReplies ==> AppendOk(c.reigns, c.members, r.append)
    ensures forall p, t: nat, m: nat :: Acked(c', p, t, m) ==> Acked(c, p, t, m) || (p == i && t == t0)
  {
    forall p, t: nat, m: nat | Acked(c', p, t, m)
      ensures Acked(c, p, t, m) || (p == i && t == t0)
    {
      if p != c.reigns[t].leader {
        var r :| r in c.appendReplies && AckOf(r, p, t, m);
        assert AppendOk(c.reigns, c.members, r.append);
      }
    }
  }

  lemma ProposalAcks(c: Cluster, i: Id, data: seq<byte>)
    requires NodesOk(c) && LogsInv(c) && Leads(c, i) && LeaderOk(c, c.nodes[i])
    ensures NewAcks(c, AfterProposal(c, i, data), i)
  {
    ProposalGrows(c, i, data);
    ExtensionAcks(c, AfterProposal(c, i, data), i, c.nodes[i].currentTerm);
  }

  lemma {:induction false} ProposalRetention(c: Cluster, i: Id, data: seq<byte>)
    requires ElectionInv(c) && LogsInv(c) && RetentionInv(c) && Leads(c, i)
    ensures RetentionInv(AfterProposal(c, i, data))
  {
    var c' := AfterProposal(c, i, data);
    var n := c.nodes[i];
    assert LeaderOk(c, n);
    ProposalGrows(c, i, data);
    ProposalAcks(c, i, data);
    VotersAreCurrent(c);
    assert NodeKeeps(c, n);
    ProposerKeeps(c, c', i);
    AckingStep(c, c', i);
  }

  /** A leader that extends its log still holds all it acknowledged. */
  lemma ProposerKeeps(c: Cluster, c': Cluster, i: Id)
    requires i in c.nodes && i in c'.nodes && c.nodes[i].id == i && c'.nodes[i].id == i
    requires NodeKeeps(c, c.nodes[i]) && NewAcks(c, c', i) && Grows(c.reigns, c'.reigns)
    requires c'.nodes[i].currentTerm == c.nodes[i].currentTerm && c.nodes[i].log <= c'.nodes[i].log
    requires c'.nodes[i].currentTerm in c'.reigns && c'.reigns[c'.nodes[i].currentTerm].log == c'.nodes[i].log
    ensures NodeKeeps(c', c'.nodes[i])
  {
    var n' := c'.nodes[i];
    forall t: nat, m: nat | Acked(c', i, t, m)
      ensures t <= n'.currentTerm
      ensures Upto(c', t, m) <= n'.log || Lost(c'.reigns, Upto(c', t, m), t, n'.currentTerm + 1)
    {
      if Acked(c, i, t, m) {
        assert Upto(c', t, m) == Upto(c, t, m);
        if !(Upto(c, t, m) <= c.nodes[i].log) {
          var u :| u in c.reigns && t < u < n'.currentTerm + 1 && !(Upto(c, t, m) <= c.reigns[u].base);
          assert u in c'.reigns && c'.reigns[u].base == c.reigns[u].base;
        }
      }
    }
  }

  lemma WinAcks(c: Cluster, i: Id)
    requires NodesOk(c) && LogsInv(c) && CanWin(c, i) && c.nodes[i].currentTerm !in c.reigns
    ensures NewAcks(c, AfterWin(c, i), i)
  {
    var c' := AfterWin(c, i);
    forall p, t: nat, m: nat | Acked(c', p, t, m)
      ensures Acked(c, p, t, m) || (p == i && t == c'.nodes[i].currentTerm)
    {
      if p != c'.reigns[t].leader {
        var r :| r in c.appendReplies && AckOf(r, p, t, m);
        assert AppendOk(c.reigns, c.members, r.append);
      }
    }
  }

  /** In a term without a leader, a node in that term lost nothing to that term's leader. */
  lemma NotLostHere(c: Cluster, n: NodeState)
    requires NodeKeeps(c, n) && n.currentTerm !in c.reigns
    ensures Kept(c, n.id, n.log, n.currentTerm)
  {
    forall t: nat, m: nat | Acked(c, n.id, t, m) && t < n.currentTerm
      ensures Upto(c, t, m) <= n.log || Lost(c.reigns, Upto(c, t, m), t, n.currentTerm)
    {
      if !(Upto(c, t, m) <= n.log) {
        var u :| u in c.reigns && t < u < n.currentTerm + 1 && !(Upto(c, t, m) <= c.reigns[u].base);
        assert u < n.currentTerm;
      }
    }
  }

  lemma VoteCovered(c: Cluster, n: NodeState, v: Id)
    requires NodesOk(c) && RequestsOk(c) && RepliesOk(c)
    requires forall r :: r in c.voteReplies ==> ReplyKeeps(c, r)
    requires n.id in c.nodes && n == c.nodes[n.id] && n.role == Candidate && n.currentTerm !in c.reigns
    requires Granted(c, v, n.id, n.currentTerm)
    ensures var log := VoterLog(c, v, n.id, n.currentTerm);
            Founded(log, c.reigns) && Covers(n.log, log) && Kept(c, v, log, n.currentTerm)
  {
    var r :| r in c.voteReplies && GrantsTo(r, v, n.id, n.currentTerm)
      && r.voterLog == VoterLog(c, v, n.id, n.currentTerm);
    assert ReplyKeeps(c, r);
    assert r.request in c.voteRequests && r.request == Ballot(n);
  }

  /** Each voter of a new leader voted with a log that the winner's log covers. */
  lemma ElectorateCovered(c: Cluster, i: Id, v: Id)
    requires ElectionInv(c) && RetentionInv(c) && i in c.nodes && c.nodes[i].role == Candidate
    requires Founded(c.nodes[i].log, c.reigns)
    requires c.nodes[i].currentTerm !in c.reigns && v in Electorate(c, c.nodes[i])
    ensures var log := Electorate(c, c.nodes[i])[v];
            Founded(log, c.reigns) && Covers(c.nodes[i].log, log) && Kept(c, v, log, c.nodes[i].currentTerm)
  {
    assert CandidateOk(c, c.nodes[i]) && NodeKeeps(c, c.nodes[i]);
    if v == i {
      NotLostHere(c, c.nodes[i]);
    } else {
      VoteCovered(c, c.nodes[i], v);
    }
  }

  lemma WinFrame(c: Cluster, i: Id)
    requires NodesOk(c) && CanWin(c, i) && c.nodes[i].currentTerm !in c.reigns
    ensures var c' := AfterWin(c, i);
            && c'.voteReplies == c.voteReplies && c'.nodes.Keys == c.nodes.Keys
            && (forall j :: j in c.nodes && j != i ==> c'.nodes[j] == c.nodes[j])
            && c'.nodes[i].id == i && c'.nodes[i].currentTerm == c.nodes[i].currentTerm
            && Grows(c.reigns, c'.reigns)
            && (forall t :: t in c'.reigns && t !in c.reigns ==> t == c.nodes[i].currentTerm)
            && c'.reigns[c.nodes[i].currentTerm].voters == Electorate(c, c.nodes[i])
  {}

  lemma WinnerKeeps(c: Cluster, i: Id)
    requires NodesOk(c) && LogsInv(c) && RetentionInv(c) && CanWin(c, i)
    requires c.nodes[i].currentTerm !in c.reigns
    ensures NodeKeeps(AfterWin(c, i), AfterWin(c, i).nodes[i])
  {
    WinFrame(c, i);
    WinAcks(c, i);
    assert NodeKeeps(c, c.nodes[i]);
    ProposerKeeps(c, AfterWin(c, i), i);
  }

  lemma {:induction false} ElectorateKeeps(c: Cluster, i: Id, v: Id)
    requires ElectionInv(c) && LogsInv(c) && RetentionInv(c) && CanWin(c, i)
    requires c.nodes[i].currentTerm !in c.reigns && v in Electorate(c, c.nodes[i])
    ensures var c' := AfterWin(c, i);
            && c.nodes[i].currentTerm in c'.reigns && v in c'.reigns[c.nodes[i].currentTerm].voters
            && VoterKeeps(c', c.nodes[i].currentTerm, v)
  {
    var c' := AfterWin(c, i);
    var b := c.nodes[i].currentTerm;
    assert NodeLogOk(c.reigns, c.members, c.nodes[i]);
    ElectorateCovered(c, i, v);
    var log := Electorate(c, c.nodes[i])[v];
    WinFrame(c, i);
    WinAcks(c, i);
    FoundedGrows(log, c.reigns, c'.reigns);
    KeptGrows(c, c', v, log, b, b);
  }

  lemma WinRetention(c: Cluster, i: Id)
    requires ElectionInv(c) && LogsInv(c) && RetentionInv(c) && CanWin(c, i)
    requires c.nodes[i].currentTerm !in c.reigns
    ensures RetentionInv(AfterWin(c, i))
  {
    WinFrame(c, i);
    WinAcks(c, i);
    WinnerKeeps(c, i);
    VotersAreCurrent(c);
    forall v | v in Electorate(c, c.nodes[i])
      ensures VoterKeeps(AfterWin(c, i), c.nodes[i].currentTerm, v)
    {
      ElectorateKeeps(c, i, v);
    }
    AckingStep(c, AfterWin(c, i), i);
  }

  /** The acknowledgements after a request was handled. */
  lemma ReceiveAppendAcks(c: Cluster, a: Append)
    requires NodesOk(c) && LogsInv(c) && CanAppend(c, a)
    ensures var c' := AfterAppend(c, a);
            forall p, t: nat, m: nat :: Acked(c', p, t, m) ==>
              || Acked(c, p, t, m)
              || (&& HandleAppend(c.nodes[a.to], a.request).1.success
                  && a.request.term >= c.nodes[a.to].currentTerm
                  && p == a.to && t == a.request.term && m <= a.request.prevIndex + |a.request.entries|)
  {
    var c' := AfterAppend(c, a);
    var answer := HandleAppend(c.nodes[a.to], a.request).1;
    assert AppendOk(c.reigns, c.members, a);
    assert c'.appendReplies == c.appendReplies + {AppendReply(a, answer)};
    forall p, t: nat, m: nat | Acked(c', p, t, m)
      ensures || Acked(c, p, t, m)
              || (&& answer.success && a.request.term >= c.nodes[a.to].currentTerm
                  && p == a.to && t == a.request.term && m <= a.request.prevIndex + |a.request.entries|)
    {
      if p != c.reigns[t].leader {
        var r :| r in c'.appendReplies && AckOf(r, p, t, m);
        assert r in c.appendReplies || r == AppendReply(a, answer);
      }
    }
  }

  /** A request keeps an acknowledged prefix, or its own leader was elected without it. */
  lemma PrefixKept(reigns: Reigns, members: set<Id>, a: Append, log: seq<Entry>, x: seq<Entry>, t: nat, bound: nat)
    requires AppendOk(reigns, members, a) && ReignLogOk(reigns, a.request.term)
    requires Founded(log, reigns) && t < bound <= a.request.term + 1
    requires t == a.request.term ==> x <= reigns[t].log
    requires x <= log || Lost(reigns, x, t, bound)
    ensures x <= AppendedLog(log, a.request) || Lost(reigns, x, t, a.request.term + 1)
  {
    var u := a.request.term;
    if !(x <= log) {
      var w :| w in reigns && t < w < bound && !(x <= reigns[w].base);
      assert w < u + 1;
    } else if x <= reigns[u].log {
      SharedSurvives(reigns, members, a, log, x);
    } else {
      assert t < u && !(x <= reigns[u].base);
    }
  }

  /** The handler of a request keeps all the node acknowledged, or its leader was elected without it. */
  lemma ReceiverKeeps(c: Cluster, a: Append, c': Cluster, n': NodeState)
    requires NodesOk(c) && LogsInv(c) && RetentionInv(c) && CanAppend(c, a)
    requires a.request.term >= c.nodes[a.to].currentTerm
    requires c'.reigns == c.reigns
    requires n'.id == a.to && n'.currentTerm == a.request.term && n'.log == AppendedLog(c.nodes[a.to].log, a.request)
    requires forall p, t: nat, m: nat :: Acked(c', p, t, m) ==>
      || Acked(c, p, t, m)
      || (&& Accepts(c.nodes[a.to].log, a.request)
          && p == a.to && t == a.request.term && m <= a.request.prevIndex + |a.request.entries|)
    ensures NodeKeeps(c', n')
  {
    var n := c.nodes[a.to];
    var q := a.request;
    assert AppendOk(c.reigns, c.members, a) && ReignLogOk(c.reigns, q.term) && NodeLogOk(c.reigns, c.members, n);
    assert NodeKeeps(c, n);
    AppendEffect(c.reigns, c.members, a, n.log);
    forall t: nat, m: nat | Acked(c', n.id, t, m)
      ensures t <= n'.currentTerm
      ensures Upto(c', t, m) <= n'.log || Lost(c'.reigns, Upto(c', t, m), t, n'.currentTerm + 1)
    {
      var x := Upto(c, t, m);
      if Acked(c, n.id, t, m) {
        PrefixKept(c.reigns, c.members, a, n.log, x, t, n.currentTerm + 1);
      } else {
        assert x <= Vouched(c.reigns, q);
      }
    }
  }

  lemma AppendHandled(n: NodeState, q: AppendRequest)
    ensures HandleAppend(n, q).0.id == n.id
    ensures q.term < n.currentTerm ==> HandleAppend(n, q).0 == n
    ensures q.term >= n.currentTerm ==> HandleAppend(n, q).0.currentTerm == q.term
  {}

  lemma ReceiveAppendFrame(c: Cluster, a: Append)
    requires NodesOk(c) && CanAppend(c, a)
    ensures var c' := AfterAppend(c, a);
            && c'.reigns == c.reigns && c'.voteReplies == c.voteReplies && c'.nodes.Keys == c.nodes.Keys
            && (forall j :: j in c.nodes && j != a.to ==> c'.nodes[j] == c.nodes[j])
            && c'.nodes[a.to].id == a.to && c'.nodes[a.to] == HandleAppend(c.nodes[a.to], a.request).0
            && (a.request.term < c.nodes[a.to].currentTerm ==> c'.nodes[a.to] == c.nodes[a.to])
            && (a.request.term >= c.nodes[a.to].currentTerm ==> c'.nodes[a.to].currentTerm == a.request.term)
  {
    AppendHandled(c.nodes[a.to], a.request);
  }

  lemma {:induction false} ReceiveAppendRetention(c: Cluster, a: Append)
    requires ElectionInv(c) && LogsInv(c) && RetentionInv(c) && CanAppend(c, a)
    ensures RetentionInv(AfterAppend(c, a))
  {
    ReceiveAppendFrame(c, a);
    AppendNewAcks(c, a);
    VotersAreCurrent(c);
    AnyReceiverKeeps(c, a);
    AckingStep(c, AfterAppend(c, a), a.to);
  }

  lemma {:induction false} AppendNewAcks(c: Cluster, a: Append)
    requires NodesOk(c) && LogsInv(c) && CanAppend(c, a)
    ensures a.to in AfterAppend(c, a).nodes && NewAcks(c, AfterAppend(c, a), a.to)
  {
    ReceiveAppendFrame(c, a);
    ReceiveAppendAcks(c, a);
  }

  lemma {:induction false} AnyReceiverKeeps(c: Cluster, a: Append)
    requires NodesOk(c) && LogsInv(c) && RetentionInv(c) && CanAppend(c, a)
    ensures a.to in AfterAppend(c, a).nodes && NodeKeeps(AfterAppend(c, a), AfterAppend(c, a).nodes[a.to])
  {
    var c' := AfterAppend(c, a);
    var n := c.nodes[a.to];
    ReceiveAppendFrame(c, a);
    ReceiveAppendAcks(c, a);
    if a.request.term >= n.currentTerm {
      HandleAppendLog(n, a.request);
      ReceiverKeeps(c, a, c', c'.nodes[a.to]);
    } else {
      assert NodeKeeps(c, n);
      KeptGrows(c, c', a.to, n.log, n.currentTerm + 1, n.currentTerm + 1);
    }
  }
}
