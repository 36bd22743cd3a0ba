/** Replication and delivery steps keep the invariant. */
module RaftReplicationSteps {
  import opened RaftTypes
  import opened RaftLog
  import opened RaftNode
  import opened RaftCluster
  import opened RaftHistory
  import opened RaftInvariant
  import opened RaftGrowth
  import opened RaftElectionSteps

  // ---------- Merging a leader's entries ----------

  lemma ReplacedTail(log: Log, leader: seq<Entry>, p: nat, es: seq<Entry>)
    requires log.snapIndex == 0 && Agree(log.entries, leader, p)
    requires p + |es| <= |leader| && es == leader[p..p + |es|] && es != []
    requires es[0].index == p + 1
    requires p < |log.entries| ==> log.entries[p].term != es[0].term
    ensures MergeEntries(log, es) == log.(entries := leader[..p + |es|])
  {
    assert log.entries[..p] == leader[..p];
    assert leader[..p] + es == leader[..p + |es|];
    if p == |log.entries| {
      assert log.entries == leader[..p];
    }
  }

  /** After merging, the log agrees with the leader's as far as was sent; it is
      the old log or exactly what was sent; and nothing the two logs had in
      common is lost. */
  lemma {:induction false} MergeResult(h: History, log: Log, leader: seq<Entry>, p: nat, es: seq<Entry>, common: nat)
    requires log.snapIndex == 0 && FromLeaders(h, log.entries) && FromLeaders(h, leader)
    requires p + |es| <= |leader| && es == leader[p..p + |es|]
    requires Agree(log.entries, leader, p)
    ensures var r := MergeEntries(log, es);
      && r.snapIndex == 0 && r.snapTerm == log.snapTerm
      && Agree(leader, r.entries, p + |es|)
      && (r.entries == log.entries || r.entries == leader[..p + |es|])
      && (Agree(log.entries, leader, common) ==> Agree(log.entries, r.entries, common))
    decreases |es|
  {
    if es != [] {
      assert Stems(h, leader, p) && es[0] == leader[p];
      if p < |log.entries| && log.entries[p].term == es[0].term {
        LogMatching(h, log.entries, leader, p);
        assert es[1..] == leader[p + 1..p + |es|];
        MergeResult(h, log, leader, p + 1, es[1..], common);
      } else {
        ReplacedTail(log, leader, p, es);
      }
    }
  }

  lemma FromLeadersPrefix(h: History, log: seq<Entry>, k: nat)
    requires FromLeaders(h, log) && k <= |log|
    ensures FromLeaders(h, log[..k])
  {
    forall j | 0 <= j < k ensures Stems(h, log[..k], j) {
      assert Stems(h, log, j);
    }
  }

  // ---------- What a leader of a later or equal term already has ----------

  /** Whatever a node has committed is in the log of the leader it now hears. */
  lemma LeaderHasCommitted(ids: set<NodeId>, h: History, log: seq<Entry>, c: nat, term: nat, t: nat)
    requires HistoryOk(ids, h) && CommittedPrefix(ids, h, log, c, term)
    requires t in h.elections && term <= t
    requires c <= |log|
    ensures Agree(log, h.elections[t].log, c)
  {
    if c > 0 {
      var u: nat, i: nat :| u <= term && c <= i && Committed(ids, h, u, i) && Agree(log, h.elections[u].log, c);
      if u < t {
        LeaderCompleteness(ids, h, u, i, t);
        assert ElectionOk(ids, h, t);
      }
    }
  }

  // ---------- Answering AppendEntries ----------

  /** The receiver after the term and role check. */
  function Heard(n: NodeState, args: AppendArgs): NodeState {
    (if args.term > n.term || n.role != Follower then BecomeFollower(n, args.term) else n).(leader := args.leader)
  }

  /** Stepping down in the same term happens only outside the winning quorum. */
  lemma HeardOk(ids: set<NodeId>, h: History, x: NodeId, m: Member, args: AppendArgs)
    requires HistoryOk(ids, h) && MemberOk(ids, h, x, m) && ArgsOk(ids, h, x, args)
    requires args.term >= m.node.term
    ensures MemberOk(ids, h, x, m.(node := Heard(m.node, args)))
  {
    if args.term > m.node.term || m.node.role != Follower {
      FollowerOk(ids, h, x, m, args.term, args.leader);
    } else {
      SameStoreOk(ids, h, h, x, m, m.(node := Heard(m.node, args)));
    }
  }

  /** The prefix before the entries sent is shared once its last term matches. */
  lemma PrevShared(ids: set<NodeId>, h: History, x: NodeId, n: NodeState, args: AppendArgs)
    requires LogOk(h, n) && HistoryOk(ids, h) && ArgsOk(ids, h, x, args) && PrevMatches(n.log, args)
    ensures Agree(n.log.entries, h.elections[args.term].log, args.prevLogIndex)
  {
    var p := args.prevLogIndex;
    if p > 0 {
      assert ElectionOk(ids, h, args.term);
      LogMatching(h, n.log.entries, h.elections[args.term].log, p - 1);
    }
  }

  lemma {:induction false} RunStartBounds(log: Log, index: nat, term: nat)
    requires log.snapIndex == 0 && index >= 1
    ensures 1 <= RunStart(log, index, term) <= index
  {
    if index > 1 && log.Term(index - 1) == Found(term) {
      RunStartBounds(log, index - 1, term);
    }
  }

  /** A rejection tells the leader to go back, but not below index 1. */
  lemma RejectionHint(h: History, n: NodeState, args: AppendArgs)
    requires LogOk(h, n) && args.term >= n.term && !HandleAppend(n, args).1.success
    ensures var reply := HandleAppend(n, args).1;
      1 <= reply.conflictIndex <= args.prevLogIndex && HandleAppend(n, args).0 == Heard(n, args)
  {
    LogFacts(h, n);
    RunStartBounds(n.log, args.prevLogIndex, n.log.Term(args.prevLogIndex).OrZero());
  }

  lemma AnswerAdded(c: Cluster, h: History, c': Cluster, ans: AppendAnswer)
    requires AnswersSent(c, h) && c'.members.Keys == c.members.Keys
    requires c'.net == c.net.(appendAnswers := c.net.appendAnswers + {ans}) && AnswerOk(c.members.Keys, h, ans)
    ensures AnswersSent(c', h)
  {
  }

  lemma AnswerAppendRejected(c: Cluster, h: History, msg: AppendMessage)
    requires Inv(c, h) && Enabled(c, AnswerAppend(msg))
    requires !HandleAppend(c.members[msg.to].node, msg.args).1.success
    ensures Inv(Step(c, AnswerAppend(msg)), h)
  {
    hide HistoryOk, BallotsOk, CandidateOk, AcksKept, CommitOk, ApplierOk, QuorumKept, VoteKept, MergeEntries;
    var x, args := msg.to, msg.args;
    var m := c.members[x];
    var (node, reply) := HandleAppend(m.node, args);
    assert MemberOk(c.members.Keys, h, x, m);
    if args.term >= m.node.term {
      HeardOk(c.members.Keys, h, x, m, args);
      RejectionHint(h, m.node, args);
    }
    QuietStep(c, h, x, m.(node := node));
    AnswerAdded(c.(members := c.members[x := m.(node := node)]), h, Step(c, AnswerAppend(msg)), AppendAnswer(x, args, reply));
  }

  // ---------- Accepting entries ----------

  /** `after` is `before` merged with what a leader sent. */
  ghost predicate MergedLog(leader: seq<Entry>, before: seq<Entry>, after: seq<Entry>, sent: nat) {
    && sent <= |leader| && Agree(leader, after, sent)
    && (after == before || after == leader[..sent])
    && forall k {:trigger Agree(before, leader, k)} :: Agree(before, leader, k) ==> Agree(before, after, k)
  }

  /** The member after a successful merge, in terms of what merging achieves. */
  ghost predicate Merged(h: History, m: Member, m': Member, args: AppendArgs)
    requires args.term in h.elections
  {
    && m' == m.(node := m.node.(log := m'.node.log, commitIndex := m'.node.commitIndex))
    && m'.node.commitIndex == FollowerCommit(m.node.commitIndex, args.leaderCommit, |m'.node.log.entries|)
    && m'.node.log.snapIndex == 0 && m'.node.log.snapTerm == 0
    && MergedLog(h.elections[args.term].log, m.node.log.entries, m'.node.log.entries, args.prevLogIndex + |args.entries|)
  }

  lemma MergeAll(h: History, log: Log, leader: seq<Entry>, p: nat, es: seq<Entry>)
    requires log.snapIndex == 0 && log.snapTerm == 0 && FromLeaders(h, log.entries) && FromLeaders(h, leader)
    requires p + |es| <= |leader| && es == leader[p..p + |es|]
    requires Agree(log.entries, leader, p)
    ensures var r := MergeEntries(log, es);
      && r.snapIndex == 0 && r.snapTerm == 0
      && MergedLog(leader, log.entries, r.entries, p + |es|)
  {
    var r := MergeEntries(log, es);
    MergeResult(h, log, leader, p, es, 0);
    forall k: nat | Agree(log.entries, leader, k) ensures Agree(log.entries, r.entries, k) {
      MergeResult(h, log, leader, p, es, k);
    }
  }

  lemma MergedLast(h: History, log: Log)
    requires log.snapIndex == 0 && FromLeaders(h, log.entries)
    ensures log.LastIndex() == |log.entries|
  {
    if log.entries != [] {
      assert Stems(h, log.entries, |log.entries| - 1);
    }
  }

  lemma MergedFromLeaders(h: History, log: Log, leader: seq<Entry>, before: seq<Entry>, sent: nat)
    requires log.snapIndex == 0 && FromLeaders(h, before) && FromLeaders(h, leader)
    requires MergedLog(leader, before, log.entries, sent)
    ensures FromLeaders(h, log.entries) && log.LastIndex() == |log.entries|
  {
    FromLeadersPrefix(h, leader, sent);
    MergedLast(h, log);
  }

  lemma MergeOk(ids: set<NodeId>, h: History, x: NodeId, n: NodeState, args: AppendArgs)
    requires HistoryOk(ids, h) && LogOk(h, n) && ArgsOk(ids, h, x, args) && PrevMatches(n.log, args)
    ensures var log := MergeEntries(n.log, args.entries);
      && log.snapIndex == 0 && log.snapTerm == 0 && FromLeaders(h, log.entries) && log.LastIndex() == |log.entries|
      && MergedLog(h.elections[args.term].log, n.log.entries, log.entries, args.prevLogIndex + |args.entries|)
  {
    hide MergeEntries, MergedLog, PrevMatches;
    var leader := h.elections[args.term].log;
    assert ElectionOk(ids, h, args.term);
    PrevShared(ids, h, x, n, args);
    MergeAll(h, n.log, leader, args.prevLogIndex, args.entries);
    MergedFromLeaders(h, MergeEntries(n.log, args.entries), leader, n.log.entries, args.prevLogIndex + |args.entries|);
  }

  lemma AcceptedNode(n: NodeState, args: AppendArgs)
    requires HandleAppend(n, args).1.success
    ensures args.term >= n.term && PrevMatches(n.log, args)
    ensures var log := MergeEntries(n.log, args.entries);
      HandleAppend(n, args).0 ==
        Heard(n, args).(log := log, commitIndex := FollowerCommit(n.commitIndex, args.leaderCommit, log.LastIndex()))
  {
  }

  lemma MergedTerms(ids: set<NodeId>, h: History, m: Member, m': Member, args: AppendArgs)
    requires HistoryOk(ids, h) && LogOk(h, m.node) && args.term in h.elections && Merged(h, m, m', args)
    requires m.node.term == args.term
    ensures forall k :: 0 <= k < |m'.node.log.entries| ==> m'.node.log.entries[k].term <= args.term
  {
    assert ElectionOk(ids, h, args.term);
  }

  /** What the node acknowledged before is still there, or this leader missed it. */
  lemma MergedAcks(ids: set<NodeId>, h: History, h': History, x: NodeId, m: Member, m': Member, args: AppendArgs)
    requires HistoryOk(ids, h) && AcksKept(h, x, m.node) && args.term in h.elections && Merged(h, m, m', args)
    requires m.node.term == args.term
    requires h' == AddAcks(h, x, args.term, args.prevLogIndex + |args.entries|)
    ensures AcksKept(h', x, m'.node)
  {
    var t, leader := args.term, h.elections[args.term].log;
    var before, after := m.node.log.entries, m'.node.log.entries;
    forall a | a in h'.acks && a.node == x && a.term <= t && a.term in h'.elections
      ensures Agree(h'.elections[a.term].log, after, a.index) || Missed(h', a.term, a.index, t)
    {
      if a in h.acks {
        var mine := h.elections[a.term].log;
        if Agree(mine, before, a.index) && !Missed(h, a.term, a.index, t) {
          if a.term < t {
            assert Agree(mine, h.elections[t].start, a.index);
            assert ElectionOk(ids, h, t);
          }
          assert Agree(before, leader, a.index);
        }
        if Missed(h, a.term, a.index, t) {
          MissedGrows(h, h', a.term, a.index, t);
        }
      }
    }
  }

  /** The commit index moves to what the leader announced, never past what this
      message checked, and nothing committed or delivered changes. */
  lemma MergedCommit(ids: set<NodeId>, h: History, x: NodeId, m: Member, m': Member, args: AppendArgs)
    requires HistoryOk(ids, h) && CommitOk(ids, h, m.node) && ApplierOk(m)
    requires ArgsOk(ids, h, x, args) && Merged(h, m, m', args) && m.node.term == args.term
    ensures CommitOk(ids, h, m'.node) && ApplierOk(m')
    ensures Agree(m.node.log.entries, m'.node.log.entries, m.node.commitIndex)
    ensures m.node.commitIndex <= m'.node.commitIndex
  {
    var n, n' := m.node, m'.node;
    var leader := h.elections[args.term].log;
    LeaderHasCommitted(ids, h, n.log.entries, n.commitIndex, n.term, args.term);
    assert Agree(n.log.entries, leader, n.commitIndex);
    assert Agree(n.log.entries, n'.log.entries, n.commitIndex);
    if args.leaderCommit > n.commitIndex {
      assert n'.commitIndex == args.leaderCommit;
      CommittedPrefixGrows(ids, h, h, leader, n'.log.entries, args.leaderCommit, args.term, args.term);
    } else {
      CommittedPrefixGrows(ids, h, h, n.log.entries, n'.log.entries, n.commitIndex, n.term, n.term);
    }
  }

  lemma MergedMember(ids: set<NodeId>, h: History, x: NodeId, m: Member, m': Member, args: AppendArgs)
    requires HistoryOk(ids, h) && MemberOk(ids, h, x, m) && ArgsOk(ids, h, x, args)
    requires m.node.term == args.term && m.node.role == Follower
    requires Merged(h, m, m', args) && FromLeaders(h, m'.node.log.entries)
    requires Grows(h, AddAcks(h, x, args.term, args.prevLogIndex + |args.entries|))
    ensures MemberOk(ids, AddAcks(h, x, args.term, args.prevLogIndex + |args.entries|), x, m')
  {
    var h' := AddAcks(h, x, args.term, args.prevLogIndex + |args.entries|);
    MergedTerms(ids, h, m, m', args);
    MergedAcks(ids, h, h', x, m, m', args);
    MergedCommit(ids, h, x, m, m', args);
    FromLeadersGrow(h, h', m'.node.log.entries);
    CommittedPrefixGrows(ids, h, h', m'.node.log.entries, m'.node.log.entries, m'.node.commitIndex, m'.node.term, m'.node.term);
  }

  /** The receiver once it has stepped down and merged. */
  function Accepted(m: Member, args: AppendArgs): Member {
    var log := MergeEntries(m.node.log, args.entries);
    m.(node := Heard(m.node, args).(
         log := log, commitIndex := FollowerCommit(m.node.commitIndex, args.leaderCommit, log.LastIndex())))
  }

  lemma AcceptedRecord(ids: set<NodeId>, h: History, x: NodeId, n: NodeState, args: AppendArgs)
    requires HistoryOk(ids, h) && BallotsOk(ids, h) && BallotsBounded(h, x, n.term) && ArgsOk(ids, h, x, args)
    requires args.term >= n.term
    ensures var h' := AddAcks(h, x, args.term, args.prevLogIndex + |args.entries|);
      && Grows(h, h') && HistoryOk(ids, h') && BallotsOk(ids, h')
      && Ack(x, args.term, args.prevLogIndex + |args.entries|) in h'.acks
  {
    AddAcksOk(ids, h, x, args.term, args.prevLogIndex + |args.entries|);
  }

  lemma AcceptedMerged(ids: set<NodeId>, h: History, x: NodeId, m: Member, args: AppendArgs)
    requires HistoryOk(ids, h) && LogOk(h, m.node) && ArgsOk(ids, h, x, args) && PrevMatches(m.node.log, args)
    ensures Merged(h, m.(node := Heard(m.node, args)), Accepted(m, args), args)
    ensures FromLeaders(h, Accepted(m, args).node.log.entries)
  {
    MergeOk(ids, h, x, m.node, args);
  }

  lemma AcceptedMember(ids: set<NodeId>, h: History, x: NodeId, m: Member, args: AppendArgs)
    requires HistoryOk(ids, h) && MemberOk(ids, h, x, m) && ArgsOk(ids, h, x, args)
    requires args.term >= m.node.term && PrevMatches(m.node.log, args)
    requires Grows(h, AddAcks(h, x, args.term, args.prevLogIndex + |args.entries|))
    ensures MemberOk(ids, AddAcks(h, x, args.term, args.prevLogIndex + |args.entries|), x, Accepted(m, args))
  {
    HeardOk(ids, h, x, m, args);
    AcceptedMerged(ids, h, x, m, args);
    MergedMember(ids, h, x, m.(node := Heard(m.node, args)), Accepted(m, args), args);
  }

  lemma SparedByAcks(c: Cluster, h: History, x: NodeId, t: nat, top: nat)
    requires MembersOk(c, h)
    ensures var h' := AddAcks(h, x, t, top);
      forall y {:trigger Spared(h, h', y, c.members[y].node)} :: y in c.members && y != x ==>
        Spared(h, h', y, c.members[y].node)
  {
    var h' := AddAcks(h, x, t, top);
    forall y | y in c.members && y != x ensures Spared(h, h', y, c.members[y].node) {
      assert MemberOk(c.members.Keys, h, y, c.members[y]);
    }
  }

  lemma AcceptedEffect(c: Cluster, h: History, msg: AppendMessage)
    requires Enabled(c, AnswerAppend(msg)) && HandleAppend(c.members[msg.to].node, msg.args).1.success
    ensures var m, reply := c.members[msg.to], HandleAppend(c.members[msg.to].node, msg.args).1;
      && msg.args.term >= m.node.term && PrevMatches(m.node.log, msg.args)
      && Step(c, AnswerAppend(msg)) ==
         Cluster(c.members[msg.to := Accepted(m, msg.args)],
                 c.net.(appendAnswers := c.net.appendAnswers + {AppendAnswer(msg.to, msg.args, reply)}))
      && Record(c, h, AnswerAppend(msg)) ==
         AddAcks(h, msg.to, msg.args.term, msg.args.prevLogIndex + |msg.args.entries|)
  {
    AcceptedNode(c.members[msg.to].node, msg.args);
  }

  lemma AcceptedGrows(c: Cluster, h: History, msg: AppendMessage)
    requires Inv(c, h) && Enabled(c, AnswerAppend(msg)) && msg.args.term >= c.members[msg.to].node.term
    ensures Grows(h, AddAcks(h, msg.to, msg.args.term, msg.args.prevLogIndex + |msg.args.entries|))
  {
    assert MemberOk(c.members.Keys, h, msg.to, c.members[msg.to]);
    AcceptedRecord(c.members.Keys, h, msg.to, c.members[msg.to].node, msg.args);
  }

  lemma AcceptedParts(ids: set<NodeId>, h: History, x: NodeId, m: Member, args: AppendArgs)
    requires HistoryOk(ids, h) && BallotsOk(ids, h) && MemberOk(ids, h, x, m) && ArgsOk(ids, h, x, args)
    requires args.term >= m.node.term && PrevMatches(m.node.log, args)
    ensures var h' := AddAcks(h, x, args.term, args.prevLogIndex + |args.entries|);
      && Grows(h, h') && HistoryOk(ids, h') && BallotsOk(ids, h')
      && Ack(x, args.term, args.prevLogIndex + |args.entries|) in h'.acks
      && MemberOk(ids, h', x, Accepted(m, args)) && CallsStand(m, Accepted(m, args))
  {
    hide HistoryOk, BallotsOk, ArgsOk;
    AcceptedRecord(ids, h, x, m.node, args);
    AcceptedMember(ids, h, x, m, args);
  }

  lemma AcceptedStep(c: Cluster, h: History, x: NodeId, args: AppendArgs, reply: AppendReply)
    requires Inv(c, h) && x in c.members && ArgsOk(c.members.Keys, h, x, args) && reply.success
    requires args.term >= c.members[x].node.term && PrevMatches(c.members[x].node.log, args)
    ensures var ans := AppendAnswer(x, args, reply);
      Inv(Cluster(c.members[x := Accepted(c.members[x], args)], c.net.(appendAnswers := c.net.appendAnswers + {ans})),
          AddAcks(h, x, args.term, args.prevLogIndex + |args.entries|))
  {
    hide MemberOk, BallotsOk, ArgsOk, Accepted, Grows;
    var m, ans := c.members[x], AppendAnswer(x, args, reply);
    var m' := Accepted(m, args);
    var c' := Cluster(c.members[x := m'], c.net.(appendAnswers := c.net.appendAnswers + {ans}));
    var h' := AddAcks(h, x, args.term, args.prevLogIndex + |args.entries|);
    assert MemberOk(c.members.Keys, h, x, m);
    AcceptedParts(c.members.Keys, h, x, m, args);
    SparedByAcks(c, h, x, args.term, args.prevLogIndex + |args.entries|);
    MembersStand(c, h, c', h', x, m');
    VotesStand(c, c', x, m');
    ArgsGrow(c.members.Keys, h, h', x, args);
    AnswersGrow(c, h, h');
    AnswerAdded(c, h', c', ans);
  }

  /** An accepted AppendEntries keeps the invariant. */
  lemma AnswerAppendAccepted(c: Cluster, h: History, msg: AppendMessage)
    requires Inv(c, h) && Enabled(c, AnswerAppend(msg))
    requires HandleAppend(c.members[msg.to].node, msg.args).1.success
    ensures Inv(Step(c, AnswerAppend(msg)), Record(c, h, AnswerAppend(msg)))
    ensures Grows(h, Record(c, h, AnswerAppend(msg)))
  {
    hide MemberOk, HistoryOk, BallotsOk;
    AcceptedEffect(c, h, msg);
    AcceptedGrows(c, h, msg);
    AcceptedStep(c, h, msg.to, msg.args, HandleAppend(c.members[msg.to].node, msg.args).1);
  }
}
