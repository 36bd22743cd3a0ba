/** What a run of the cluster leaves behind: the elections won, the votes given
    and the prefixes acknowledged. The source stores none of it; it is what the
    safety argument is about. Leader completeness is proved here, from facts
    about one history, by induction on the term. */
module RaftHistory {
  import opened RaftTypes

  datatype Ballot = Ballot(voter: NodeId, candidate: NodeId, term: nat)

  /** `node`, while in `term`, held the first `index` entries of that term's leader. */
  datatype Ack = Ack(node: NodeId, term: nat, index: nat)

  /** `start` is the leader's log when it won, `log` what it has grown to. */
  datatype Election = Election(leader: NodeId, quorum: set<NodeId>, start: seq<Entry>, log: seq<Entry>)

  /** `votes` maps a ballot to the voter's log when it was first cast. */
  datatype History = History(elections: map<nat, Election>, votes: map<Ballot, seq<Entry>>, acks: set<Ack>)

  ghost predicate Agree(a: seq<Entry>, b: seq<Entry>, k: int) {
    0 <= k <= |a| && k <= |b| && forall j {:trigger a[j]} {:trigger b[j]} :: 0 <= j < k ==> a[j] == b[j]
  }

  function LastTermOf(log: seq<Entry>): nat {
    if log == [] then 0 else log[|log| - 1].term
  }

  /** The vote rule: `cand` is at least as up to date as `voter`. */
  predicate UpToDate(cand: seq<Entry>, voter: seq<Entry>) {
    LastTermOf(cand) > LastTermOf(voter) ||
    (LastTermOf(cand) == LastTermOf(voter) && |cand| >= |voter|)
  }

  /** The prefix of `log` up to position `k` is a prefix of the log of the
      leader whose term entry `k` carries. */
  ghost predicate Stems(h: History, log: seq<Entry>, k: nat)
    requires k < |log|
  {
    && log[k].index == k + 1
    && log[k].term in h.elections
    && Agree(log, h.elections[log[k].term].log, k + 1)
  }

  ghost predicate FromLeaders(h: History, log: seq<Entry>) {
    forall k {:trigger Stems(h, log, k)} :: 0 <= k < |log| ==> Stems(h, log, k)
  }

  /** A leader elected in a term up to `missMax` and after `t` started without
      the first `i` entries of t's leader. */
  ghost predicate Missed(h: History, t: nat, i: nat, missMax: int)
    requires t in h.elections
  {
    exists v :: t < v <= missMax && v in h.elections &&
      !Agree(h.elections[t].log, h.elections[v].start, i)
  }

  /** `log` still holds everything node `x` acknowledged in terms up to `ackMax`,
      except what some leader of a later term up to `missMax` missed. */
  ghost predicate HoldsAcked(h: History, x: NodeId, log: seq<Entry>, ackMax: int, missMax: int) {
    forall a {:trigger a in h.acks} :: a in h.acks && a.node == x && a.term <= ackMax && a.term in h.elections ==>
      Agree(h.elections[a.term].log, log, a.index) || Missed(h, a.term, a.index, missMax)
  }

  ghost predicate ElectionOk(ids: set<NodeId>, h: History, t: nat)
    requires t in h.elections
  {
    var e := h.elections[t];
    && t >= 1
    && e.leader in e.quorum && e.quorum <= ids && 2 * |e.quorum| > |ids|
    && Agree(e.start, e.log, |e.start|)
    && (forall k :: 0 <= k < |e.start| ==> e.start[k].term < t)
    && (forall k :: |e.start| <= k < |e.log| ==> e.log[k].term == t)
    && FromLeaders(h, e.log)
  }

  ghost predicate QuorumVoted(h: History, t: nat)
    requires t in h.elections
  {
    var e := h.elections[t];
    forall x {:trigger x in e.quorum} :: x in e.quorum ==>
      var b := Ballot(x, e.leader, t);
      && b in h.votes
      && FromLeaders(h, h.votes[b])
      && UpToDate(e.start, h.votes[b])
      && HoldsAcked(h, x, h.votes[b], t - 1, t - 1)
  }

  ghost predicate AcksOk(h: History) {
    forall a {:trigger a in h.acks} :: a in h.acks ==>
      a.term in h.elections && a.index <= |h.elections[a.term].log|
  }

  /** Acknowledging a prefix acknowledges every shorter one. */
  ghost predicate AcksDownward(h: History) {
    forall a, i {:trigger a in h.acks, Ack(a.node, a.term, i)} :: a in h.acks && 0 <= i <= a.index ==>
      Ack(a.node, a.term, i) in h.acks
  }

  ghost predicate HistoryOk(ids: set<NodeId>, h: History) {
    && (forall t {:trigger ElectionOk(ids, h, t)} :: t in h.elections ==> ElectionOk(ids, h, t))
    && (forall t {:trigger QuorumVoted(h, t)} :: t in h.elections ==> QuorumVoted(h, t))
    && AcksOk(h)
    && AcksDownward(h)
  }

  function AckedBy(ids: set<NodeId>, h: History, t: nat, i: nat): set<NodeId> {
    set x | x in ids && Ack(x, t, i) in h.acks
  }

  /** The leader of `t` has entry `i` of its own term on a commit quorum. */
  ghost predicate Committed(ids: set<NodeId>, h: History, t: nat, i: nat) {
    && t in h.elections
    && 1 <= i <= |h.elections[t].log|
    && h.elections[t].log[i - 1].term == t
    && 2 * |AckedBy(ids, h, t, i)| >= |ids|
  }

  lemma UnionBound(ids: set<NodeId>, a: set<NodeId>, b: set<NodeId>)
    requires a <= ids && b <= ids && a !! b
    ensures |a| + |b| <= |ids|
  {
    assert |a + b| == |a| + |b|;
    assert a + b <= ids;
    CardinalityMonotone(a + b, ids);
  }

  /** A vote quorum (more than half) meets a commit quorum (at least half). */
  lemma QuorumsMeet(ids: set<NodeId>, votes: set<NodeId>, commits: set<NodeId>) returns (x: NodeId)
    requires votes <= ids && commits <= ids
    requires 2 * |votes| > |ids| && 2 * |commits| >= |ids|
    ensures x in votes && x in commits
  {
    if votes !! commits {
      UnionBound(ids, votes, commits);
      assert false;
    }
    x :| x in votes && x in commits;
  }

  /** Two logs of the same run that hold the same term at the same index are
      identical up to that index. */
  lemma LogMatching(h: History, a: seq<Entry>, b: seq<Entry>, k: nat)
    requires FromLeaders(h, a) && FromLeaders(h, b)
    requires k < |a| && k < |b| && a[k].term == b[k].term
    ensures Agree(a, b, k + 1)
  {
    assert Stems(h, a, k) && Stems(h, b, k);
  }

  /** Terms never decrease along a log. */
  lemma TermsSorted(ids: set<NodeId>, h: History, log: seq<Entry>, j: nat, k: nat)
    requires HistoryOk(ids, h) && FromLeaders(h, log)
    requires j <= k < |log|
    ensures log[j].term <= log[k].term
  {
    assert Stems(h, log, k);
    var t := log[k].term;
    assert ElectionOk(ids, h, t);
    var e := h.elections[t];
    assert log[j] == e.log[j];
    assert j < |e.start| ==> e.log[j] == e.start[j];
  }

  /** Some voter of u's leader had acknowledged the committed prefix and, unless
      an earlier leader missed it, still held it when it voted. */
  lemma MeetingVote(ids: set<NodeId>, h: History, t: nat, i: nat, u: nat) returns (voted: seq<Entry>)
    requires HistoryOk(ids, h) && Committed(ids, h, t, i)
    requires u in h.elections && t < u
    requires !Missed(h, t, i, u - 1)
    ensures FromLeaders(h, voted)
    ensures UpToDate(h.elections[u].start, voted) && Agree(h.elections[t].log, voted, i)
  {
    var e := h.elections[u];
    assert ElectionOk(ids, h, u) && QuorumVoted(h, u);
    var x := QuorumsMeet(ids, e.quorum, AckedBy(ids, h, t, i));
    voted := h.votes[Ballot(x, e.leader, u)];
    assert HoldsAcked(h, x, voted, u - 1, u - 1);
    assert Ack(x, t, i) in h.acks;
  }

  lemma LaterLogHolds(ids: set<NodeId>, h: History, t: nat, i: nat, u: nat)
    requires HistoryOk(ids, h)
    requires t in h.elections && 1 <= i <= |h.elections[t].log|
    requires u in h.elections && t < u
    requires LastTermOf(h.elections[u].start) > t ||
             (LastTermOf(h.elections[u].start) == t && |h.elections[u].start| >= i)
    requires !Missed(h, t, i, u - 1)
    ensures Agree(h.elections[t].log, h.elections[u].start, i)
  {
    assert ElectionOk(ids, h, t) && ElectionOk(ids, h, u);
    var start := h.elections[u].start;
    assert Stems(h, h.elections[u].log, |start| - 1);
    assert h.elections[u].log[|start| - 1] == start[|start| - 1];
    var w := start[|start| - 1].term;
    assert ElectionOk(ids, h, w);
    var e := h.elections[w];
    if w > t {
      assert Agree(h.elections[t].log, e.start, i);
      assert |start| > |e.start|;
    }
  }

  /** The vote rule carries a held prefix from a voter to the winner. */
  lemma VotePassesOn(ids: set<NodeId>, h: History, t: nat, i: nat, u: nat, voted: seq<Entry>)
    requires HistoryOk(ids, h)
    requires t in h.elections && 1 <= i <= |h.elections[t].log| && h.elections[t].log[i - 1].term == t
    requires u in h.elections && t < u
    requires FromLeaders(h, voted)
    requires UpToDate(h.elections[u].start, voted) && Agree(h.elections[t].log, voted, i)
    requires !Missed(h, t, i, u - 1)
    ensures Agree(h.elections[t].log, h.elections[u].start, i)
  {
    TermsSorted(ids, h, voted, i - 1, |voted| - 1);
    assert voted[i - 1] == h.elections[t].log[i - 1];
    LaterLogHolds(ids, h, t, i, u);
  }

  /** Once a commit quorum holds entry `i` of t's leader, every leader of a later
      term started with it and everything before it. */
  lemma {:induction false} LeaderCompleteness(ids: set<NodeId>, h: History, t: nat, i: nat, u: nat)
    requires HistoryOk(ids, h) && Committed(ids, h, t, i)
    requires u in h.elections && t < u
    ensures Agree(h.elections[t].log, h.elections[u].start, i)
    decreases u
  {
    forall v | t < v < u && v in h.elections
      ensures Agree(h.elections[t].log, h.elections[v].start, i)
    {
      LeaderCompleteness(ids, h, t, i, v);
    }
    var voted := MeetingVote(ids, h, t, i, u);
    VotePassesOn(ids, h, t, i, u, voted);
  }
}
