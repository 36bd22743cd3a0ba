/** The inductive invariant of the cluster, stated about a cluster and the
    history of the run that led to it. */
module RaftInvariant {
  import opened RaftTypes
  import opened RaftNode
  import opened RaftCluster
  import opened RaftHistory

  // ---------- History ----------

  ghost predicate BallotOk(ids: set<NodeId>, h: History, b: Ballot)
    requires b in h.votes
  {
    && b.voter in ids && b.candidate in ids
    && FromLeaders(h, h.votes[b])
    && HoldsAcked(h, b.voter, h.votes[b], b.term - 1, b.term)
  }

  /** Before a term has a leader its voters vote once; the quorum that made the
      leader never votes for anybody else in that term. */
  ghost predicate BallotsOk(ids: set<NodeId>, h: History) {
    && (forall b {:trigger BallotOk(ids, h, b)} :: b in h.votes ==> BallotOk(ids, h, b))
    && (forall a, b :: a in h.votes && b in h.votes && a.voter == b.voter && a.term == b.term && a.term !in h.elections
          ==> a.candidate == b.candidate)
    && (forall b {:trigger b in h.votes} ::
          b in h.votes && b.term in h.elections && b.voter in h.elections[b.term].quorum
          ==> b.candidate == h.elections[b.term].leader)
  }

  // ---------- One member ----------

  ghost predicate LogOk(h: History, n: NodeState) {
    && n.log.snapIndex == 0 && n.log.snapTerm == 0
    && FromLeaders(h, n.log.entries)
    && forall k :: 0 <= k < |n.log.entries| ==> n.log.entries[k].term <= n.term
  }

  ghost predicate BallotsBounded(h: History, x: NodeId, term: nat) {
    forall b {:trigger b in h.votes} :: b in h.votes && (b.voter == x || b.candidate == x) ==> b.term <= term
  }

  /** While the term has no leader, `votedFor` is the only candidate the node
      ever voted for in it. */
  ghost predicate VoteKept(h: History, x: NodeId, n: NodeState) {
    n.term !in h.elections ==>
      && (forall b {:trigger b in h.votes} :: b in h.votes && b.voter == x && b.term == n.term ==> b.candidate == n.votedFor)
      && (n.role == Candidate ==> n.votedFor == x)
  }

  /** A member of the winning quorum keeps its vote and its role for the rest
      of the term, so it is never the one whose vote is forgotten. */
  ghost predicate QuorumKept(h: History, x: NodeId, n: NodeState) {
    n.term in h.elections && x in h.elections[n.term].quorum ==>
      && n.votedFor == h.elections[n.term].leader
      && n.role == (if x == h.elections[n.term].leader then Leader else Follower)
  }

  ghost predicate MatchOk(h: History, ids: set<NodeId>, n: NodeState) {
    && n.matchIndex.Keys == ids
    && forall p {:trigger n.matchIndex[p]} :: p in n.matchIndex ==> n.matchIndex[p] == 0 || Ack(p, n.term, n.matchIndex[p]) in h.acks
  }

  ghost predicate NextOk(ids: set<NodeId>, x: NodeId, n: NodeState) {
    && n.nextIndex.Keys == ids - {x}
    && forall p {:trigger n.nextIndex[p]} :: p in n.nextIndex ==> 1 <= n.nextIndex[p] <= |n.log.entries| + 1
  }

  ghost predicate LeaderOk(ids: set<NodeId>, h: History, x: NodeId, n: NodeState) {
    n.role == Leader ==>
      && n.term in h.elections
      && h.elections[n.term].leader == x
      && h.elections[n.term].log == n.log.entries
      && MatchOk(h, ids, n)
      && NextOk(ids, x, n)
  }

  ghost predicate CandidateOk(ids: set<NodeId>, h: History, x: NodeId, m: Member) {
    m.node.role == Candidate ==>
      && m.node.term >= 1 && m.node.votedFor == x
      && !m.tally.fired && m.tally.votes == 1 + |m.counted|
      && m.counted <= ids - {x}
      && Ballot(x, x, m.node.term) in h.votes
      && (forall v {:trigger v in m.counted} :: v in m.counted ==> Ballot(v, x, m.node.term) in h.votes)
      && (forall b {:trigger b in h.votes} :: b in h.votes && b.candidate == x && b.term == m.node.term ==>
            UpToDate(m.node.log.entries, h.votes[b]))
  }

  ghost predicate AcksKept(h: History, x: NodeId, n: NodeState) {
    && (forall a {:trigger a in h.acks} :: a in h.acks && a.node == x ==> a.term <= n.term)
    && HoldsAcked(h, x, n.log.entries, n.term, n.term)
  }

  /** The first `c` entries of `log` were committed by a leader of a term up to `termMax`. */
  ghost predicate CommittedPrefix(ids: set<NodeId>, h: History, log: seq<Entry>, c: nat, termMax: nat) {
    c == 0 || exists t: nat, i: nat :: t <= termMax && c <= i && Committed(ids, h, t, i) && Agree(log, h.elections[t].log, c)
  }

  ghost predicate CommitOk(ids: set<NodeId>, h: History, n: NodeState) {
    && n.commitIndex <= |n.log.entries|
    && CommittedPrefix(ids, h, n.log.entries, n.commitIndex, n.term)
  }

  ghost predicate ApplierOk(m: Member) {
    && |m.delivered| == m.node.lastApplied <= m.node.commitIndex
    && Agree(m.delivered, m.node.log.entries, |m.delivered|)
    && match m.applier
       case Idle => true
       case Locked(commit, applied) => applied == m.node.lastApplied < commit <= m.node.commitIndex
       case Sending(rest) =>
         && |m.delivered| + |rest| <= m.node.commitIndex
         && Agree(m.delivered + rest, m.node.log.entries, |m.delivered| + |rest|)
  }

  ghost predicate MemberOk(ids: set<NodeId>, h: History, x: NodeId, m: Member) {
    && LogOk(h, m.node)
    && BallotsBounded(h, x, m.node.term)
    && VoteKept(h, x, m.node)
    && QuorumKept(h, x, m.node)
    && LeaderOk(ids, h, x, m.node)
    && CandidateOk(ids, h, x, m)
    && AcksKept(h, x, m.node)
    && CommitOk(ids, h, m.node)
    && ApplierOk(m)
  }

  // ---------- The network ----------

  ghost predicate VoteCallOk(args: VoteArgs, n: NodeState) {
    && args.term <= n.term
    && (args.term == n.term && n.role == Candidate ==>
          args.lastLogIndex == |n.log.entries| && args.lastLogTerm == LastTermOf(n.log.entries))
  }

  ghost predicate VoteAnswerOk(ids: set<NodeId>, h: History, v: VoteAnswer) {
    && v.from in ids && v.args.candidate in ids && v.from != v.args.candidate
    && (v.reply.granted ==> Ballot(v.from, v.args.candidate, v.args.term) in h.votes)
  }

  /** What AppendEntries carries: a stretch of the leader's log that reaches at
      least as far as the commit index it announces. */
  ghost predicate ArgsOk(ids: set<NodeId>, h: History, to: NodeId, args: AppendArgs) {
    && to in ids
    && args.term in h.elections
    && var e := h.elections[args.term];
    && args.leader == e.leader && e.leader in ids && to != e.leader
    && var sent := args.prevLogIndex + |args.entries|;
    && args.leaderCommit <= sent <= |e.log|
    && args.entries == e.log[args.prevLogIndex..sent]
    && args.prevLogTerm == LastTermOf(e.log[..args.prevLogIndex])
    && CommittedPrefix(ids, h, e.log, args.leaderCommit, args.term)
  }

  ghost predicate AnswerOk(ids: set<NodeId>, h: History, ans: AppendAnswer) {
    && ArgsOk(ids, h, ans.from, ans.args)
    && (ans.reply.success ==> Ack(ans.from, ans.args.term, ans.args.prevLogIndex + |ans.args.entries|) in h.acks)
    && (!ans.reply.success && (ans.reply.conflictTerm != 0 || ans.reply.conflictIndex != 0) ==>
          1 <= ans.reply.conflictIndex <= ans.args.prevLogIndex)
  }

  ghost predicate VotesSent(c: Cluster) {
    forall a {:trigger a in c.net.voteCalls} :: a in c.net.voteCalls ==>
      a.candidate in c.members && VoteCallOk(a, c.members[a.candidate].node)
  }

  ghost predicate AnswersSent(c: Cluster, h: History) {
    && (forall v {:trigger v in c.net.voteAnswers} :: v in c.net.voteAnswers ==> VoteAnswerOk(c.members.Keys, h, v))
    && (forall m {:trigger m in c.net.appends} :: m in c.net.appends ==> ArgsOk(c.members.Keys, h, m.to, m.args))
    && (forall a {:trigger a in c.net.appendAnswers} :: a in c.net.appendAnswers ==> AnswerOk(c.members.Keys, h, a))
  }

  // ---------- All of it ----------

  ghost predicate MembersOk(c: Cluster, h: History) {
    forall x {:trigger MemberOk(c.members.Keys, h, x, c.members[x])} :: x in c.members ==>
      MemberOk(c.members.Keys, h, x, c.members[x])
  }

  ghost predicate Inv(c: Cluster, h: History) {
    && NOBODY !in c.members
    && HistoryOk(c.members.Keys, h)
    && BallotsOk(c.members.Keys, h)
    && MembersOk(c, h)
    && VotesSent(c)
    && AnswersSent(c, h)
  }

  // ---------- How histories grow ----------

  function AddVote(h: History, b: Ballot, log: seq<Entry>): History {
    if b in h.votes then h else h.(votes := h.votes[b := log])
  }

  function AddElection(h: History, t: nat, e: Election): History {
    h.(elections := h.elections[t := e])
  }

  function ExtendLog(h: History, t: nat, entry: Entry): History
    requires t in h.elections
  {
    var e := h.elections[t];
    h.(elections := h.elections[t := e.(log := e.log + [entry])])
  }

  /** `x` acknowledges every prefix up to `top`. */
  function AddAcks(h: History, x: NodeId, t: nat, top: nat): History {
    h.(acks := h.acks + set i: nat | i <= top :: Ack(x, t, i))
  }

  function Crown(h: History, x: NodeId, m: Member): History {
    var log := m.node.log.entries;
    AddAcks(AddElection(h, m.node.term, Election(x, m.counted + {x}, log, log)), x, m.node.term, |log|)
  }

  /** The history after one more action. */
  ghost function Record(c: Cluster, h: History, a: Action): History {
    if !Enabled(c, a) then h
    else
      match a
      case Timeout(x) =>
        AddVote(h, Ballot(x, x, c.members[x].node.term + 1), c.members[x].node.log.entries)
      case WinAlone(x) =>
        var m := AfterWinAlone(c.members[x], x, Peers(c, x));
        if c.members[x].node.role == Candidate && m.node.role == Leader then Crown(h, x, m) else h
      case AnswerVote(x, args) =>
        if HandleVote(c.members[x].node, args).1.granted
        then AddVote(h, Ballot(x, args.candidate, args.term), c.members[x].node.log.entries)
        else h
      case TakeVote(v) =>
        var x := v.args.candidate;
        var m := AfterTakeVote(c.members[x], Peers(c, x), v);
        if c.members[x].node.role == Candidate && m.node.role == Leader then Crown(h, x, m) else h
      case AnswerAppend(msg) =>
        if HandleAppend(c.members[msg.to].node, msg.args).1.success
        then AddAcks(h, msg.to, msg.args.term, msg.args.prevLogIndex + |msg.args.entries|)
        else h
      case ProposeAt(x, command) =>
        var n := c.members[x].node;
        if n.role == Leader && n.term in h.elections
        then AddAcks(ExtendLog(h, n.term, Entry(n.log.LastIndex() + 1, n.term, command)), x, n.term, n.log.LastIndex() + 1)
        else h
      case _ => h
  }

  const NO_HISTORY: History := History(map[], map[], {})

  ghost function HistoryAt(ids: set<NodeId>, run: seq<Action>, k: nat): History
    requires k <= |run|
  {
    if k == 0 then NO_HISTORY
    else Record(StateAt(ids, run, k - 1), HistoryAt(ids, run, k - 1), run[k - 1])
  }
}
