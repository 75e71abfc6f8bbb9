/**
 Log matching: every log, kept or in flight, is pieced together from the logs of
 elected leaders, so two logs with the same term at a position agree up to it.
 */
module RaftLogs {
  import opened Bytes
  import opened RaftTypes
  import opened RaftHandlers
  import opened RaftCluster
  import opened RaftElection

  type Reigns = map<nat, Reign>

  /** Up to position `k` the log is the log of the leader that made the entry at `k`. */
  ghost predicate Rooted(log: seq<Entry>, k: nat, reigns: Reigns)
    requires k < |log|
  {
    var t := log[k].term;
    t in reigns && |reigns[t].base| <= k < |reigns[t].log| && log[..k + 1] == reigns[t].log[..k + 1]
  }

  ghost predicate Founded(log: seq<Entry>, reigns: Reigns) {
    WellIndexed(log) && forall k :: 1 <= k < |log| ==> Rooted(log, k, reigns)
  }

  /** A leader starts from older terms and adds entries of its own. */
  ghost predicate ReignLogOk(reigns: Reigns, t: nat)
    requires t in reigns
  {
    var r := reigns[t];
    && t >= 1
    && Founded(r.log, reigns)
    && 1 <= |r.base| && r.base <= r.log
    && (forall k :: 0 <= k < |r.base| ==> r.log[k].term < t)
    && (forall k :: |r.base| <= k < |r.log| ==> r.log[k].term == t)
  }

  ghost predicate NodeLogOk(reigns: Reigns, members: set<Id>, n: NodeState) {
    && Founded(n.log, reigns)
    && (forall k :: 0 <= k < |n.log| ==> n.log[k].term <= n.currentTerm)
    && (n.role == Leader ==>
        && n.currentTerm in reigns
        && n.log == reigns[n.currentTerm].log
        && forall p :: p in members && p != n.id && p in n.nextIndex ==> n.nextIndex[p] <= |n.log|)
  }

  /** A request carries a stretch of its leader's log and never a commit index beyond it. */
  ghost predicate AppendOk(reigns: Reigns, members: set<Id>, a: Append) {
    var q := a.request;
    && q.term in reigns
    && q.leader == reigns[q.term].leader
    && a.to in members && a.to != q.leader
    && q.prevIndex + |q.entries| < |reigns[q.term].log|
    && q.prevTerm == reigns[q.term].log[q.prevIndex].term
    && q.entries == reigns[q.term].log[q.prevIndex + 1..q.prevIndex + 1 + |q.entries|]
    && q.leaderCommit <= q.prevIndex + |q.entries|
  }

  ghost predicate LogsInv(c: Cluster) {
    && (forall i :: i in c.nodes ==> NodeLogOk(c.reigns, c.members, c.nodes[i]))
    && (forall t :: t in c.reigns ==> ReignLogOk(c.reigns, t))
    && (forall a :: a in c.appends ==> AppendOk(c.reigns, c.members, a))
    && (forall r :: r in c.appendReplies ==> r.append in c.appends)
  }

  // ---- consequences ----

  /** The log matching property. */
  lemma LogMatching(a: seq<Entry>, b: seq<Entry>, k: nat, reigns: Reigns)
    requires Founded(a, reigns) && Founded(b, reigns)
    requires k < |a| && k < |b| && a[k].term == b[k].term
    ensures a[..k + 1] == b[..k + 1]
  {
    if k >= 1 {
      assert Rooted(a, k, reigns) && Rooted(b, k, reigns);
    }
  }

  /** Terms never decrease along a log. */
  lemma TermsAscend(log: seq<Entry>, j: nat, k: nat, reigns: Reigns)
    requires Founded(log, reigns) && j <= k < |log|
    requires forall t :: t in reigns ==> ReignLogOk(reigns, t)
    ensures log[j].term <= log[k].term
  {
    if j < k {
      assert Rooted(log, k, reigns);
      var r := reigns[log[k].term];
      assert ReignLogOk(reigns, log[k].term);
      assert log[j] == log[..k + 1][j] == r.log[..k + 1][j] == r.log[j];
    }
  }

  lemma PrefixFounded(log: seq<Entry>, k: nat, reigns: Reigns)
    requires Founded(log, reigns) && 1 <= k <= |log|
    ensures Founded(log[..k], reigns)
  {
    forall j | 1 <= j < k
      ensures Rooted(log[..k], j, reigns)
    {
      assert Rooted(log, j, reigns);
      assert log[..k][..j + 1] == log[..j + 1];
    }
  }

  // ---- growth ----

  /** Reigns are only added, and a leader's log is only extended. */
  ghost predicate Grows(old': Reigns, new': Reigns) {
    forall t :: t in old' ==>
      && t in new'
      && new'[t].leader == old'[t].leader
      && new'[t].base == old'[t].base
      && new'[t].voters == old'[t].voters
      && old'[t].log <= new'[t].log
  }

  lemma FoundedGrows(log: seq<Entry>, r: Reigns, r': Reigns)
    requires Founded(log, r) && Grows(r, r')
    ensures Founded(log, r')
  {
    forall k | 1 <= k < |log|
      ensures Rooted(log, k, r')
    {
      assert Rooted(log, k, r);
      var t := log[k].term;
      assert r'[t].log[..k + 1] == r[t].log[..k + 1];
    }
  }

  lemma ReignLogGrows(r: Reigns, r': Reigns, t: nat)
    requires t in r && ReignLogOk(r, t) && Grows(r, r') && r'[t].log == r[t].log
    ensures ReignLogOk(r', t)
  {
    FoundedGrows(r[t].log, r, r');
  }

  lemma AppendGrows(r: Reigns, r': Reigns, members: set<Id>, a: Append)
    requires AppendOk(r, members, a) && Grows(r, r')
    ensures AppendOk(r', members, a)
  {
    var q := a.request;
    var m := q.prevIndex + |q.entries|;
    assert r'[q.term].log[..m + 1] == r[q.term].log[..m + 1];
    assert r'[q.term].log[q.prevIndex] == r'[q.term].log[..m + 1][q.prevIndex];
    assert r[q.term].log[q.prevIndex + 1..m + 1] == r[q.term].log[..m + 1][q.prevIndex + 1..];
    assert r'[q.term].log[q.prevIndex + 1..m + 1] == r'[q.term].log[..m + 1][q.prevIndex + 1..];
  }

  lemma NodeLogGrows(r: Reigns, r': Reigns, members: set<Id>, n: NodeState)
    requires NodeLogOk(r, members, n) && Grows(r, r')
    requires n.role == Leader ==> r'[n.currentTerm].log == r[n.currentTerm].log
    ensures NodeLogOk(r', members, n)
  {
    FoundedGrows(n.log, r, r');
  }

  // ---- the append loop ----

  /** Entries beyond the end of the log are simply added. */
  lemma {:induction false} MergeAppends(x: seq<Entry>, at: nat)
    requires at <= |x|
    ensures Merge(x[..at], at, x[at..]) == x
    decreases |x| - at
  {
    if at < |x| {
      assert x[..at] + [x[at..][0]] == x[..at + 1];
      assert x[at..][1..] == x[at + 1..];
      MergeAppends(x, at + 1);
    } else {
      assert x[..at] == x;
    }
  }

  /**
   Merging the rest of a founded log `x` into a founded log that agrees with it so far
   changes nothing if `x` is already there, and gives exactly `x` otherwise.
   */
  lemma {:induction false} MergeResult(log: seq<Entry>, x: seq<Entry>, at: nat, reigns: Reigns)
    requires Founded(log, reigns) && Founded(x, reigns)
    requires 1 <= at <= |log| && at <= |x| && log[..at] == x[..at]
    ensures Merge(log, at, x[at..]) == if x <= log then log else x
    decreases |x| - at
  {
    if at == |x| {
      assert x <= log;
    } else if at < |log| {
      assert x[at..][1..] == x[at + 1..];
      if log[at].term != x[at].term {
        assert !(x <= log);
        assert log[..at] + [x[at]] == x[..at + 1];
        MergeAppends(x, at + 1);
      } else {
        LogMatching(log, x, at, reigns);
        MergeResult(log, x, at + 1, reigns);
      }
    } else {
      assert log == x[..at];
      MergeAppends(x, at);
    }
  }

  /** The part of the leader's log that a request vouches for. */
  ghost function Vouched(reigns: Reigns, q: AppendRequest): seq<Entry>
    requires q.term in reigns && q.prevIndex + |q.entries| < |reigns[q.term].log|
  {
    reigns[q.term].log[..q.prevIndex + |q.entries| + 1]
  }

  lemma VouchedFounded(reigns: Reigns, members: set<Id>, a: Append)
    requires AppendOk(reigns, members, a) && ReignLogOk(reigns, a.request.term)
    ensures Founded(Vouched(reigns, a.request), reigns)
    ensures a.request.entries == Vouched(reigns, a.request)[a.request.prevIndex + 1..]
    ensures a.request.prevTerm == Vouched(reigns, a.request)[a.request.prevIndex].term
  {
    var q := a.request;
    PrefixFounded(reigns[q.term].log, q.prevIndex + |q.entries| + 1, reigns);
  }

  /** The log part of handling a request whose term is not too old. */
  ghost predicate Accepts(log: seq<Entry>, q: AppendRequest) {
    q.prevIndex < |log| && log[q.prevIndex].term == q.prevTerm
  }

  ghost function AppendedLog(log: seq<Entry>, q: AppendRequest): seq<Entry> {
    if Accepts(log, q) then Merge(log, q.prevIndex + 1, q.entries)
    else if q.prevIndex < |log| then log[..q.prevIndex]
    else log
  }

  lemma HandleAppendLog(n: NodeState, q: AppendRequest)
    requires q.term >= n.currentTerm
    ensures HandleAppend(n, q).0.log == AppendedLog(n.log, q)
    ensures HandleAppend(n, q).0.currentTerm == q.term
    ensures HandleAppend(n, q).1.success <==> Accepts(n.log, q)
  {}

  /**
   What a request does to the log of a node that accepts its term: nothing, a cut just
   before the position that contradicts the leader, or the vouched part itself.
   */
  lemma AppendEffect(reigns: Reigns, members: set<Id>, a: Append, log: seq<Entry>)
    requires AppendOk(reigns, members, a) && ReignLogOk(reigns, a.request.term)
    requires Founded(log, reigns)
    ensures var log' := AppendedLog(log, a.request);
            var x := Vouched(reigns, a.request);
            var p := a.request.prevIndex;
            && Founded(log', reigns)
            && (Accepts(log, a.request) ==> x <= log')
            && (|| log' == log
                || (1 <= p < |log| && log' == log[..p] && log[p] != x[p])
                || (log' == x && !(x <= log)))
  {
    var q := a.request;
    var x := Vouched(reigns, q);
    VouchedFounded(reigns, members, a);
    if q.prevIndex < |log| {
      if log[q.prevIndex].term != q.prevTerm {
        assert log[0] == x[0];
        PrefixFounded(log, q.prevIndex, reigns);
      } else {
        LogMatching(log, x, q.prevIndex, reigns);
        MergeResult(log, x, q.prevIndex + 1, reigns);
      }
    }
  }

  /** Whatever the node shares with the leader survives the request. */
  lemma SharedSurvives(reigns: Reigns, members: set<Id>, a: Append, log: seq<Entry>, shared: seq<Entry>)
    requires AppendOk(reigns, members, a) && ReignLogOk(reigns, a.request.term)
    requires Founded(log, reigns)
    requires shared <= log && shared <= reigns[a.request.term].log
    ensures shared <= AppendedLog(log, a.request)
  {
    AppendEffect(reigns, members, a, log);
    var x := Vouched(reigns, a.request);
    assert |shared| > |x| ==> x <= shared;
    assert forall p :: 0 <= p < |shared| && p < |x| ==> shared[p] == log[p] == x[p];
  }

  // ---- preservation ----

  /** A step that leaves logs and reigns alone and makes no new leader. */
  ghost predicate LogQuiet(members: set<Id>, n: NodeState, n': NodeState) {
    && n'.id == n.id
    && n'.log == n.log
    && n'.currentTerm >= n.currentTerm
    && (n'.role == Leader ==>
        && n.role == Leader && n'.currentTerm == n.currentTerm
        && forall p :: p in members && p != n.id && p in n'.nextIndex ==> n'.nextIndex[p] <= |n.log|)
  }

  lemma OneLogChanges(c: Cluster, c': Cluster, n: NodeState)
    requires LogsInv(c) && NodeLogOk(c.reigns, c.members, n)
    requires c'.members == c.members && c'.nodes == c.nodes[n.id := n]
    requires c'.reigns == c.reigns && c'.appends == c.appends
    requires forall r :: r in c'.appendReplies ==> r.append in c.appends
    ensures LogsInv(c')
  {}

  lemma TimeoutLogs(c: Cluster, i: Id)
    requires NodesOk(c) && LogsInv(c) && CanTimeout(c, i)
    ensures LogsInv(AfterTimeout(c, i))
  {
    OneLogChanges(c, AfterTimeout(c, i), StartElection(c.nodes[i]));
  }

  lemma VoteRequestLogs(c: Cluster, i: Id, q: VoteRequest)
    requires NodesOk(c) && LogsInv(c) && CanVote(c, i, q)
    ensures LogsInv(AfterVoteRequest(c, i, q))
  {
    var n := HandleVoteRequest(c.nodes[i], q).0;
    assert LogQuiet(c.members, c.nodes[i], n);
    OneLogChanges(c, AfterVoteRequest(c, i, q), n);
  }

  lemma VoteReplyLogs(c: Cluster, r: VoteReply)
    requires NodesOk(c) && LogsInv(c) && CanCount(c, r)
    ensures LogsInv(AfterVoteReply(c, r))
  {
    var n := HandleVoteAnswer(c.nodes[r.request.candidate], r.request.term, r.voter, r.answer);
    assert LogQuiet(c.members, c.nodes[r.request.candidate], n);
    OneLogChanges(c, AfterVoteReply(c, r), n);
  }

  lemma CrashLogs(c: Cluster, i: Id, d: Durable)
    requires NodesOk(c) && LogsInv(c) && i in c.nodes && KeepsLog(c.nodes[i], d)
    ensures LogsInv(AfterReboot(c, i, d))
  {
    var n := Boot(i, d);
    assert LogQuiet(c.members, c.nodes[i], n);
    OneLogChanges(c, AfterReboot(c, i, d), n);
  }

  /** The last index a request reports is its last position in the leader's log. */
  lemma LastSent(reigns: Reigns, members: set<Id>, a: Append)
    requires AppendOk(reigns, members, a) && ReignLogOk(reigns, a.request.term) && a.request.entries != []
    ensures LastIndex(a.request.entries) == a.request.prevIndex + |a.request.entries|
  {
    var q := a.request;
    var log := reigns[q.term].log;
    assert q.entries[|q.entries| - 1] == log[q.prevIndex + |q.entries|];
  }

  lemma AppendAnswerQuiet(c: Cluster, r: AppendReply, n: NodeState)
    requires AppendOk(c.reigns, c.members, r.append) && NodeLogOk(c.reigns, c.members, n)
    requires n.role == Leader ==> n.currentTerm in c.reigns && ReignLogOk(c.reigns, n.currentTerm)
    ensures LogQuiet(c.members, n, HandleAppendAnswer(n, r.append.to, r.append.request, r.answer,
                                                      Peers(c, n.id), Quorum(c.members)).0)
  {
    var q := r.append.request;
    if n.role == Leader && n.currentTerm == q.term && q.entries != [] {
      LastSent(c.reigns, c.members, r.append);
    }
  }

  lemma AppendReplyLogs(c: Cluster, r: AppendReply)
    requires NodesOk(c) && LogsInv(c) && CanLearn(c, r)
    ensures LogsInv(AfterAppendReply(c, r))
  {
    var i := r.append.request.leader;
    assert AppendOk(c.reigns, c.members, r.append);
    assert NodeLogOk(c.reigns, c.members, c.nodes[i]);
    AppendAnswerQuiet(c, r, c.nodes[i]);
    var n := HandleAppendAnswer(
      c.nodes[i], r.append.to, r.append.request, r.answer, Peers(c, i), Quorum(c.members)).0;
    assert NodeLogOk(c.reigns, c.members, n);
    OneLogChanges(c, AfterAppendReply(c, r), n);
  }

  lemma SendLogs(c: Cluster, i: Id, to: Id)
    requires NodesOk(c) && LogsInv(c) && CanSend(c, i, to) && LeaderOk(c, c.nodes[i])
    requires c.nodes[i].commitIndex < |c.nodes[i].log|
    ensures LogsInv(AfterSend(c, i, to))
  {
    var n := c.nodes[i];
    assert NodeLogOk(c.reigns, c.members, n);
    var q := BuildAppend(n, to);
    assert NextFor(n, to) <= |n.log|;
    assert AppendOk(c.reigns, c.members, Append(to, q));
  }

  /** A leader's logs after a request was handled: the terms in it are the leader's, hence not too new. */
  lemma ReceiveAppendLogs(c: Cluster, a: Append)
    requires NodesOk(c) && LogsInv(c) && CanAppend(c, a)
    requires forall i :: i in c.nodes ==> LeaderOk(c, c.nodes[i])
    ensures LogsInv(AfterAppend(c, a))
  {
    var n := c.nodes[a.to];
    var n' := HandleAppend(n, a.request).0;
    assert NodeLogOk(c.reigns, c.members, n) && LeaderOk(c, n);
    assert AppendOk(c.reigns, c.members, a);
    if a.request.term >= n.currentTerm {
      HandleAppendNode(c, a);
    }
    OneLogChanges(c, AfterAppend(c, a), n');
  }

  lemma HandleAppendRole(n: NodeState, q: AppendRequest)
    requires q.term >= n.currentTerm && (n.role == Leader ==> q.term > n.currentTerm)
    ensures HandleAppend(n, q).0.role == Follower && HandleAppend(n, q).0.id == n.id
  {}

  lemma HandleAppendNode(c: Cluster, a: Append)
    requires a.to in c.nodes && AppendOk(c.reigns, c.members, a) && ReignLogOk(c.reigns, a.request.term)
    requires NodeLogOk(c.reigns, c.members, c.nodes[a.to]) && LeaderOk(c, c.nodes[a.to]) && c.nodes[a.to].id == a.to
    requires a.request.term >= c.nodes[a.to].currentTerm
    ensures NodeLogOk(c.reigns, c.members, HandleAppend(c.nodes[a.to], a.request).0)
    ensures HandleAppend(c.nodes[a.to], a.request).0.role == Follower
  {
    HandleAppendRole(c.nodes[a.to], a.request);
    HandleAppendLog(c.nodes[a.to], a.request);
    AppendedTerms(c.reigns, c.members, a, c.nodes[a.to]);
  }

  lemma AppendedTerms(reigns: Reigns, members: set<Id>, a: Append, n: NodeState)
    requires AppendOk(reigns, members, a) && ReignLogOk(reigns, a.request.term) && Founded(n.log, reigns)
    requires forall k :: 0 <= k < |n.log| ==> n.log[k].term <= n.currentTerm <= a.request.term
    ensures Founded(AppendedLog(n.log, a.request), reigns)
    ensures var log' := AppendedLog(n.log, a.request);
            forall k :: 0 <= k < |log'| ==> log'[k].term <= a.request.term
  {
    AppendEffect(reigns, members, a, n.log);
    var x := Vouched(reigns, a.request);
    assert forall k :: 0 <= k < |x| ==> x[k].term <= a.request.term;
  }

  /** A winner's log is a sound start for its reign. */
  lemma NewReignLog(reigns: Reigns, members: set<Id>, n: NodeState, r: Reign)
    requires NodeLogOk(reigns, members, n) && n.currentTerm !in reigns && n.currentTerm >= 1
    requires r.base == r.log == n.log
    ensures Grows(reigns, reigns[n.currentTerm := r])
    ensures ReignLogOk(reigns[n.currentTerm := r], n.currentTerm)
  {
    FoundedGrows(n.log, reigns, reigns[n.currentTerm := r]);
    forall k | 0 <= k < |n.log|
      ensures n.log[k].term < n.currentTerm
    {
      assert k >= 1 ==> Rooted(n.log, k, reigns);
    }
  }

  lemma WinnerLog(reigns: Reigns, members: set<Id>, n: NodeState, r: Reign)
    requires NodeLogOk(reigns, members, n) && n.currentTerm !in reigns && n.currentTerm >= 1
    requires r.base == r.log == n.log && n.role == Candidate
    ensures NodeLogOk(reigns[n.currentTerm := r], members, TakeOffice(n, members - {n.id}))
  {
    FoundedGrows(n.log, reigns, reigns[n.currentTerm := r]);
  }

  lemma WinEffect(c: Cluster, i: Id)
    requires NodesOk(c) && CanWin(c, i)
    ensures Crowned(c, AfterWin(c, i), i)
  {}

  /** How a cluster looks after `i` won: a new reign and an office taken. */
  ghost predicate Crowned(c: Cluster, c': Cluster, i: Id)
    requires i in c.nodes
  {
    var n := c.nodes[i];
    && n.currentTerm in c'.reigns
    && c'.reigns == c.reigns[n.currentTerm := c'.reigns[n.currentTerm]]
    && c'.reigns[n.currentTerm].base == c'.reigns[n.currentTerm].log == n.log
    && c'.nodes == c.nodes[i := TakeOffice(n, c.members - {i})]
    && c'.members == c.members && c'.appends == c.appends && c'.appendReplies == c.appendReplies
  }

  lemma CrownedLogs(c: Cluster, c': Cluster, i: Id)
    requires CanWin(c, i) && c.nodes[i].id == i && Crowned(c, c', i) && NodeLogOk(c.reigns, c.members, c.nodes[i])
    requires c.nodes[i].currentTerm !in c.reigns && c.nodes[i].currentTerm >= 1
    ensures Grows(c.reigns, c'.reigns) && ReignLogOk(c'.reigns, c.nodes[i].currentTerm)
    ensures NodeLogOk(c'.reigns, c'.members, c'.nodes[i]) && c'.nodes.Keys == c.nodes.Keys
  {
    var n := c.nodes[i];
    var r := c'.reigns[n.currentTerm];
    NewReignLog(c.reigns, c.members, n, r);
    WinnerLog(c.reigns, c.members, n, r);
  }

  lemma WinLogs(c: Cluster, c': Cluster, i: Id)
    requires LogsInv(c) && CanWin(c, i) && c.nodes[i].id == i && Crowned(c, c', i)
    requires c.nodes[i].currentTerm !in c.reigns && c.nodes[i].currentTerm >= 1
    ensures LogsInv(c')
  {
    CrownedLogs(c, c', i);
    NewReignKeepsLogs(c, c', c.nodes[i], c'.reigns[c.nodes[i].currentTerm]);
  }

  lemma NewReignKeepsLogs(c: Cluster, c': Cluster, n: NodeState, r: Reign)
    requires LogsInv(c) && n.currentTerm !in c.reigns && n.id in c.nodes
    requires c'.reigns == c.reigns[n.currentTerm := r] && Grows(c.reigns, c'.reigns)
    requires ReignLogOk(c'.reigns, n.currentTerm)
    requires c'.members == c.members && c'.appends == c.appends && c'.appendReplies == c.appendReplies
    requires c'.nodes.Keys == c.nodes.Keys && NodeLogOk(c'.reigns, c'.members, c'.nodes[n.id])
    requires forall j :: j in c.nodes && j != n.id ==> c'.nodes[j] == c.nodes[j]
    ensures LogsInv(c')
  {
    forall j | j in c'.nodes
      ensures NodeLogOk(c'.reigns, c'.members, c'.nodes[j])
    {
      if j != n.id {
        assert NodeLogOk(c.reigns, c.members, c.nodes[j]);
        NodeLogGrows(c.reigns, c'.reigns, c.members, c.nodes[j]);
      }
    }
    forall t | t in c'.reigns
      ensures ReignLogOk(c'.reigns, t)
    {
      if t != n.currentTerm {
        ReignLogGrows(c.reigns, c'.reigns, t);
      }
    }
    forall a | a in c'.appends
      ensures AppendOk(c'.reigns, c'.members, a)
    {
      AppendGrows(c.reigns, c'.reigns, c.members, a);
    }
  }

  /** A leader that adds an entry of its own extends its reign soundly. */
  lemma ExtendReign(reigns: Reigns, t: nat, e: Entry)
    requires t in reigns && ReignLogOk(reigns, t) && e.index == |reigns[t].log| && e.term == t
    ensures var reigns' := reigns[t := reigns[t].(log := reigns[t].log + [e])];
            Grows(reigns, reigns') && Founded(reigns'[t].log, reigns') && ReignLogOk(reigns', t)
  {
    var log := reigns[t].log;
    var reigns' := reigns[t := reigns[t].(log := log + [e])];
    FoundedGrows(log, reigns, reigns');
    forall k | 1 <= k < |log| + 1
      ensures Rooted(log + [e], k, reigns')
    {
      if k < |log| {
        assert Rooted(log, k, reigns');
        assert (log + [e])[..k + 1] == log[..k + 1];
      }
    }
  }

  lemma ProposalGrows(c: Cluster, i: Id, data: seq<byte>)
    requires NodesOk(c) && LogsInv(c) && Leads(c, i)
    ensures var c' := AfterProposal(c, i, data);
            var t := c.nodes[i].currentTerm;
            && Grows(c.reigns, c'.reigns) && c'.reigns.Keys == c.reigns.Keys
            && t in c.reigns && c.reigns[t].log == c.nodes[i].log && c'.reigns[t].log == c'.nodes[i].log
            && c.nodes[i].log <= c'.nodes[i].log && ReignLogOk(c'.reigns, t)
            && forall u :: u in c.reigns && u != t ==> c'.reigns[u] == c.reigns[u]
  {
    assert NodeLogOk(c.reigns, c.members, c.nodes[i]);
    ProposalExtendsReign(c, i, data);
  }

  lemma ProposalExtendsReign(c: Cluster, i: Id, data: seq<byte>)
    requires Leads(c, i) && c.nodes[i].id == i && NodeLogOk(c.reigns, c.members, c.nodes[i])
    requires ReignLogOk(c.reigns, c.nodes[i].currentTerm)
    ensures var c' := AfterProposal(c, i, data);
            var t := c.nodes[i].currentTerm;
            && Grows(c.reigns, c'.reigns) && c'.reigns.Keys == c.reigns.Keys
            && c'.reigns[t].log == c'.nodes[i].log
            && c.nodes[i].log <= c'.nodes[i].log && ReignLogOk(c'.reigns, t)
            && forall u :: u in c.reigns && u != t ==> c'.reigns[u] == c.reigns[u]
  {
    var n := c.nodes[i];
    ExtendReign(c.reigns, n.currentTerm, Entry(LastIndex(n.log) + 1, n.currentTerm, data));
  }

  lemma ProposalNode(c: Cluster, i: Id, data: seq<byte>, j: Id)
    requires NodesOk(c) && LogsInv(c) && Leads(c, i) && j in c.nodes
    requires LeaderOk(c, c.nodes[i]) && LeaderOk(c, c.nodes[j])
    ensures NodeLogOk(AfterProposal(c, i, data).reigns, c.members, AfterProposal(c, i, data).nodes[j])
  {
    ProposalGrows(c, i, data);
    assert NodeLogOk(c.reigns, c.members, c.nodes[j]);
    if j != i {
      NodeLogGrows(c.reigns, AfterProposal(c, i, data).reigns, c.members, c.nodes[j]);
    }
  }

  lemma ProposalReign(c: Cluster, i: Id, data: seq<byte>, t: nat)
    requires NodesOk(c) && LogsInv(c) && Leads(c, i) && t in c.reigns
    ensures t in AfterProposal(c, i, data).reigns
    ensures ReignLogOk(AfterProposal(c, i, data).reigns, t)
  {
    ProposalGrows(c, i, data);
    assert ReignLogOk(c.reigns, t);
    if t != c.nodes[i].currentTerm {
      ReignLogGrows(c.reigns, AfterProposal(c, i, data).reigns, t);
    }
  }

  lemma ProposalLogs(c: Cluster, i: Id, data: seq<byte>)
    requires NodesOk(c) && LogsInv(c) && Leads(c, i)
    requires forall j :: j in c.nodes ==> LeaderOk(c, c.nodes[j])
    ensures LogsInv(AfterProposal(c, i, data))
  {
    var c' := AfterProposal(c, i, data);
    ProposalGrows(c, i, data);
    forall j | j in c'.nodes
      ensures NodeLogOk(c'.reigns, c'.members, c'.nodes[j])
    {
      ProposalNode(c, i, data, j);
    }
    forall t | t in c'.reigns
      ensures ReignLogOk(c'.reigns, t)
    {
      ProposalReign(c, i, data, t);
    }
    forall a | a in c'.appends
      ensures AppendOk(c'.reigns, c'.members, a)
    {
      AppendGrows(c.reigns, c'.reigns, c.members, a);
    }
  }
}
