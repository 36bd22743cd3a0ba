/** The leader's own steps and the apply loop keep the invariant. */
module RaftLeaderSteps {
  import opened Bytes
  import opened RaftTypes
  import opened RaftLog
  import opened RaftNode
  import opened RaftCluster
  import opened RaftHistory
  import opened RaftInvariant
  import opened RaftGrowth
  import opened RaftElectionSteps

  // ---------- Sending ----------

  /** A leader never needs a snapshot here, and everything it sends is a stretch
      of its log reaching to its end. */
  lemma SentArgs(ids: set<NodeId>, h: History, x: NodeId, m: Member, peer: NodeId)
    requires MemberOk(ids, h, x, m) && m.node.role == Leader && x in ids && peer in ids && peer != x
    ensures var n := m.node;
      var sent := BuildAppend(n, x, peer);
      && sent.Some?
      && ArgsOk(ids, h, peer, sent.value)
      && sent.value.prevLogIndex + |sent.value.entries| == |n.log.entries|
  {
    var n := m.node;
    assert LeaderOk(ids, h, x, n) && NextOk(ids, x, n) && peer in n.nextIndex;
    LogFacts(h, n);
    var prev := n.nextIndex[peer] - 1;
    assert n.log.entries[prev..] == n.log.entries[prev..|n.log.entries|];
  }

  lemma MessageAdded(c: Cluster, h: History, msg: AppendMessage)
    requires Inv(c, h) && ArgsOk(c.members.Keys, h, msg.to, msg.args)
    ensures Inv(c.(net := c.net.(appends := c.net.appends + {msg})), h)
  {
  }

  lemma SendAppendStep(c: Cluster, h: History, x: NodeId, peer: NodeId)
    requires Inv(c, h) && Enabled(c, SendAppend(x, peer))
    ensures Inv(Step(c, SendAppend(x, peer)), h)
  {
    hide HistoryOk, BallotsOk, ArgsOk, ApplierOk, CandidateOk, AcksKept, CommitOk;
    assert MemberOk(c.members.Keys, h, x, c.members[x]);
    if c.members[x].node.role == Leader {
      SentArgs(c.members.Keys, h, x, c.members[x], peer);
      MessageAdded(c, h, AppendMessage(peer, BuildAppend(c.members[x].node, x, peer).value));
    }
  }

  // ---------- Committing ----------

  /** The index chosen by the leader is on a commit quorum of its term. */
  lemma QuorumIndexCommitted(ids: set<NodeId>, h: History, x: NodeId, n: NodeState, k: nat)
    requires HistoryOk(ids, h) && LogOk(h, n) && LeaderOk(ids, h, x, n) && n.role == Leader && x in ids
    requires k >= 1 && |ReachedBy(n.matchIndex, k)| >= CommitQuorum(ids - {x})
    requires n.log.Term(k) == Found(n.term)
    ensures Committed(ids, h, n.term, k)
  {
    var reached := ReachedBy(n.matchIndex, k);
    assert MatchOk(h, ids, n);
    forall p | p in reached ensures Ack(p, n.term, k) in h.acks {
      var a := Ack(p, n.term, n.matchIndex[p]);
      assert a in h.acks;
      assert Ack(a.node, a.term, k) in h.acks;
    }
    assert reached <= AckedBy(ids, h, n.term, k);
    CardinalityMonotone(reached, AckedBy(ids, h, n.term, k));
    PeerCount(ids, x);
  }

  lemma AdvanceCommitOk(ids: set<NodeId>, h: History, x: NodeId, m: Member)
    requires HistoryOk(ids, h) && MemberOk(ids, h, x, m) && m.node.role == Leader && x in ids
    ensures MemberOk(ids, h, x, m.(node := AdvanceCommit(m.node, ids - {x})))
  {
    var n := m.node;
    var n' := AdvanceCommit(n, ids - {x});
    if n' != n {
      var k := n'.commitIndex;
      assert IsQuorumIndex(n.matchIndex, CommitQuorum(ids - {x}), k);
      QuorumIndexCommitted(ids, h, x, n, k);
      assert Agree(n.log.entries, h.elections[n.term].log, k);
    }
  }

  // ---------- Replies ----------

  lemma {:induction false} BackUpBounds(log: Log, i: nat, term: nat, fallback: nat)
    ensures var r := BackUpIndex(log, i, term, fallback);
      r == fallback || 2 <= r <= i + 1
  {
    if i > log.snapIndex && log.Term(i).Found? && log.Term(i).term > term {
      BackUpBounds(log, i - 1, term, fallback);
    }
  }

  /** The leader's bookkeeping for one peer changed, within the log. */
  lemma BookkeepingOk(ids: set<NodeId>, h: History, x: NodeId, m: Member, n': NodeState)
    requires MemberOk(ids, h, x, m) && m.node.role == Leader
    requires n' == m.node.(nextIndex := n'.nextIndex, matchIndex := n'.matchIndex)
    requires MatchOk(h, ids, n') && NextOk(ids, x, n')
    ensures MemberOk(ids, h, x, m.(node := n'))
  {
  }

  lemma RejectedBack(ids: set<NodeId>, h: History, x: NodeId, m: Member, ans: AppendAnswer)
    requires MemberOk(ids, h, x, m) && m.node.role == Leader && AnswerOk(ids, h, ans)
    requires ans.args.leader == x && ans.args.term == m.node.term && !ans.reply.success
    ensures 1 <= NextAfterReject(m.node, ans.from, ans.reply) <= |m.node.log.entries| + 1
  {
    var n, reply := m.node, ans.reply;
    assert LeaderOk(ids, h, x, n) && NextOk(ids, x, n) && ans.from in n.nextIndex;
    LogFacts(h, n);
    BackUpBounds(n.log, n.log.LastIndex(), reply.conflictTerm, reply.conflictIndex);
  }

  lemma TakeRejection(ids: set<NodeId>, h: History, x: NodeId, m: Member, ans: AppendAnswer)
    requires MemberOk(ids, h, x, m) && m.node.role == Leader && AnswerOk(ids, h, ans)
    requires ans.args.leader == x && ans.args.term == m.node.term && !ans.reply.success && ans.reply.term <= m.node.term
    ensures MemberOk(ids, h, x, m.(node := HandleAppendReply(m.node, ids - {x}, ans.from, ans.args, ans.reply)))
  {
    var n' := HandleAppendReply(m.node, ids - {x}, ans.from, ans.args, ans.reply);
    RejectedBack(ids, h, x, m, ans);
    assert LeaderOk(ids, h, x, m.node) && MatchOk(h, ids, m.node) && NextOk(ids, x, m.node);
    assert n'.nextIndex.Keys == m.node.nextIndex.Keys;
    BookkeepingOk(ids, h, x, m, n');
  }

  lemma AcknowledgedOk(ids: set<NodeId>, h: History, x: NodeId, m: Member, peer: NodeId, sent: nat)
    requires HistoryOk(ids, h) && MemberOk(ids, h, x, m) && m.node.role == Leader
    requires peer in ids && peer != x && Ack(peer, m.node.term, sent) in h.acks
    ensures MemberOk(ids, h, x, m.(node := Acknowledged(m.node, peer, sent)))
  {
    var n := m.node;
    var n' := Acknowledged(n, peer, sent);
    assert LeaderOk(ids, h, x, n) && MatchOk(h, ids, n) && NextOk(ids, x, n);
    assert n.matchIndex[peer] == 0 || Ack(peer, n.term, n.matchIndex[peer]) in h.acks;
    assert n'.matchIndex.Keys == ids;
    assert n'.nextIndex.Keys == ids - {x};
    BookkeepingOk(ids, h, x, m, n');
  }

  lemma TakeSuccess(ids: set<NodeId>, h: History, x: NodeId, m: Member, ans: AppendAnswer)
    requires HistoryOk(ids, h) && MemberOk(ids, h, x, m) && x in ids && m.node.role == Leader && AnswerOk(ids, h, ans)
    requires ans.args.leader == x && ans.args.term == m.node.term && ans.reply.success && ans.reply.term <= m.node.term
    ensures MemberOk(ids, h, x, m.(node := HandleAppendReply(m.node, ids - {x}, ans.from, ans.args, ans.reply)))
  {
    hide MemberOk, AdvanceCommit, HistoryOk;
    var sent := ans.args.prevLogIndex + |ans.args.entries|;
    var n1 := Acknowledged(m.node, ans.from, sent);
    AcknowledgedOk(ids, h, x, m, ans.from, sent);
    AdvanceCommitOk(ids, h, x, m.(node := n1));
    assert HandleAppendReply(m.node, ids - {x}, ans.from, ans.args, ans.reply) == AdvanceCommit(n1, ids - {x});
  }

  lemma ReplyStands(peers: set<NodeId>, m: Member, ans: AppendAnswer)
    ensures CallsStand(m, m.(node := HandleAppendReply(m.node, peers, ans.from, ans.args, ans.reply)))
  {
  }

  lemma ReplyMember(ids: set<NodeId>, h: History, x: NodeId, m: Member, ans: AppendAnswer)
    requires HistoryOk(ids, h) && MemberOk(ids, h, x, m) && x in ids && AnswerOk(ids, h, ans) && ans.args.leader == x
    ensures MemberOk(ids, h, x, m.(node := HandleAppendReply(m.node, ids - {x}, ans.from, ans.args, ans.reply)))
  {
    var n, reply := m.node, ans.reply;
    if reply.term > n.term {
      FollowerOk(ids, h, x, m, reply.term, n.leader);
      assert BecomeFollower(n, reply.term) == BecomeFollower(n, reply.term).(leader := n.leader);
    } else if n.role != Leader || n.term != ans.args.term {
    } else if reply.success {
      TakeSuccess(ids, h, x, m, ans);
    } else {
      TakeRejection(ids, h, x, m, ans);
    }
  }

  lemma TakeAppendStep(c: Cluster, h: History, ans: AppendAnswer)
    requires Inv(c, h) && Enabled(c, TakeAppend(ans))
    ensures Inv(Step(c, TakeAppend(ans)), h)
  {
    var x := ans.args.leader;
    assert MemberOk(c.members.Keys, h, x, c.members[x]);
    ReplyMember(c.members.Keys, h, x, c.members[x], ans);
    ReplyStands(Peers(c, x), c.members[x], ans);
    var node := HandleAppendReply(c.members[x].node, Peers(c, x), ans.from, ans.args, ans.reply);
    QuietStep(c, h, x, c.members[x].(node := node));
  }

  // ---------- Proposing ----------

  /** The leader with one more entry, before the commit index moves. */
  function Proposed(m: Member, x: NodeId, entry: Entry): Member {
    m.(node := m.node.(log := m.node.log.Append([entry]), matchIndex := m.node.matchIndex[x := entry.index]))
  }

  function ProposedHistory(h: History, x: NodeId, entry: Entry): History
    requires entry.term in h.elections
  {
    AddAcks(ExtendLog(h, entry.term, entry), x, entry.term, entry.index)
  }

  lemma ProposeRecord(ids: set<NodeId>, h: History, x: NodeId, m: Member, entry: Entry)
    requires HistoryOk(ids, h) && BallotsOk(ids, h) && MemberOk(ids, h, x, m) && m.node.role == Leader
    requires entry.term == m.node.term && entry.index == |m.node.log.entries| + 1
    ensures entry.term in h.elections
    ensures var h' := ProposedHistory(h, x, entry);
      && Grows(h, h') && HistoryOk(ids, h') && BallotsOk(ids, h')
      && Ack(x, entry.term, entry.index) in h'.acks
  {
    assert LeaderOk(ids, h, x, m.node);
    ExtendLogOk(ids, h, entry.term, entry);
    var h1 := ExtendLog(h, entry.term, entry);
    AddAcksOk(ids, h1, x, entry.term, entry.index);
    GrowsTransitive(h, h1, ProposedHistory(h, x, entry));
  }

  lemma ProposedAcks(h: History, h': History, x: NodeId, n: NodeState, entry: Entry)
    requires AcksOk(h) && AcksKept(h, x, n) && Grows(h, h') && n.term in h.elections
    requires h.elections[n.term].log == n.log.entries && h'.elections[n.term].log == n.log.entries + [entry]
    requires forall t {:trigger t in h'.elections} :: t in h'.elections && t != n.term ==> t in h.elections && h'.elections[t] == h.elections[t]
    requires forall a {:trigger a in h'.acks} :: a in h'.acks && a !in h.acks ==> a.term == n.term && a.index <= |n.log.entries| + 1
    ensures AcksKept(h', x, n.(log := n.log.Append([entry])))
  {
    var log' := n.log.entries + [entry];
    forall a | a in h'.acks && a.node == x && a.term <= n.term && a.term in h'.elections
      ensures Agree(h'.elections[a.term].log, log', a.index) || Missed(h', a.term, a.index, n.term)
    {
      if a in h.acks && Missed(h, a.term, a.index, n.term) {
        MissedGrows(h, h', a.term, a.index, n.term);
      }
    }
  }

  lemma ProposedLeader(ids: set<NodeId>, h: History, h': History, x: NodeId, m: Member, entry: Entry)
    requires LeaderOk(ids, h, x, m.node) && m.node.role == Leader && x in ids && Grows(h, h')
    requires entry.term == m.node.term && entry.index == |m.node.log.entries| + 1
    requires h'.elections[entry.term].log == m.node.log.entries + [entry]
    requires Ack(x, entry.term, entry.index) in h'.acks
    ensures LeaderOk(ids, h', x, Proposed(m, x, entry).node)
  {
    assert MatchOk(h, ids, m.node) && NextOk(ids, x, m.node);
    assert Proposed(m, x, entry).node.matchIndex.Keys == ids;
  }

  lemma ProposedVotes(ids: set<NodeId>, h: History, x: NodeId, m: Member, entry: Entry)
    requires MemberOk(ids, h, x, m) && m.node.role == Leader && entry.term in h.elections
    ensures var h', m' := ProposedHistory(h, x, entry), Proposed(m, x, entry);
      && BallotsBounded(h', x, m'.node.term) && VoteKept(h', x, m'.node) && QuorumKept(h', x, m'.node)
      && CandidateOk(ids, h', x, m')
  {
  }

  lemma ProposedApplier(m: Member, x: NodeId, entry: Entry)
    requires ApplierOk(m)
    ensures ApplierOk(Proposed(m, x, entry))
  {
  }

  lemma ProposedLog(ids: set<NodeId>, h: History, x: NodeId, m: Member, entry: Entry)
    requires HistoryOk(ids, h) && BallotsOk(ids, h) && MemberOk(ids, h, x, m) && m.node.role == Leader
    requires entry.term == m.node.term && entry.index == |m.node.log.entries| + 1 && entry.term in h.elections
    ensures var h', n' := ProposedHistory(h, x, entry), Proposed(m, x, entry).node;
      LogOk(h', n') && CommitOk(ids, h', n')
  {
    hide BallotsOk, VoteKept, QuorumKept, BallotsBounded, CandidateOk, Grows, ApplierOk, AcksKept;
    var h', n := ProposedHistory(h, x, entry), m.node;
    ProposeRecord(ids, h, x, m, entry);
    assert ElectionOk(ids, h', n.term);
    CommittedPrefixGrows(ids, h, h', n.log.entries, n.log.entries + [entry], n.commitIndex, n.term, n.term);
  }

  lemma ProposedMember(ids: set<NodeId>, h: History, x: NodeId, m: Member, entry: Entry)
    requires HistoryOk(ids, h) && BallotsOk(ids, h) && MemberOk(ids, h, x, m) && m.node.role == Leader && x in ids
    requires entry.term == m.node.term && entry.index == |m.node.log.entries| + 1 && entry.term in h.elections
    ensures MemberOk(ids, ProposedHistory(h, x, entry), x, Proposed(m, x, entry))
  {
    hide BallotsOk, VoteKept, QuorumKept, BallotsBounded, CandidateOk, Grows, ApplierOk, LogOk, CommitOk;
    var h' := ProposedHistory(h, x, entry);
    ProposeRecord(ids, h, x, m, entry);
    ProposedVotes(ids, h, x, m, entry);
    ProposedLeader(ids, h, h', x, m, entry);
    ProposedAcks(h, h', x, m.node, entry);
    ProposedLog(ids, h, x, m, entry);
    ProposedApplier(m, x, entry);
  }

  lemma ProposeSpares(c: Cluster, h: History, x: NodeId, entry: Entry)
    requires MembersOk(c, h) && x in c.members && c.members[x].node.role == Leader
    requires entry.term == c.members[x].node.term && entry.term in h.elections
    ensures var h' := ProposedHistory(h, x, entry);
      forall y {:trigger Spared(h, h', y, c.members[y].node)} :: y in c.members && y != x ==>
        Spared(h, h', y, c.members[y].node)
  {
    var h' := ProposedHistory(h, x, entry);
    assert MemberOk(c.members.Keys, h, x, c.members[x]);
    forall y | y in c.members && y != x ensures Spared(h, h', y, c.members[y].node) {
      assert MemberOk(c.members.Keys, h, y, c.members[y]);
    }
  }

  lemma ProposeByLeader(c: Cluster, h: History, x: NodeId, entry: Entry, m': Member)
    requires Inv(c, h) && x in c.members && c.members[x].node.role == Leader
    requires var n := c.members[x].node;
      entry.term == n.term && entry.index == |n.log.entries| + 1 && entry.term in h.elections
    requires m' == Proposed(c.members[x], x, entry).(
                     node := AdvanceCommit(Proposed(c.members[x], x, entry).node, c.members.Keys - {x}))
    ensures Inv(c.(members := c.members[x := m']), ProposedHistory(h, x, entry))
    ensures Grows(h, ProposedHistory(h, x, entry))
  {
    var ids, m := c.members.Keys, c.members[x];
    var c', h' := c.(members := c.members[x := m']), ProposedHistory(h, x, entry);
    assert MemberOk(ids, h, x, m);
    ProposeRecord(ids, h, x, m, entry);
    ProposedMember(ids, h, x, m, entry);
    AdvanceCommitOk(ids, h', x, Proposed(m, x, entry));
    ProposeSpares(c, h, x, entry);
    MembersStand(c, h, c', h', x, m');
    VotesStand(c, c', x, m');
    AnswersGrow(c, h, h');
    assert AnswersSent(c', h');
  }

  lemma ProposeEffect(c: Cluster, h: History, x: NodeId, command: seq<Byte>)
    requires Enabled(c, ProposeAt(x, command)) && c.members[x].node.role == Leader
    requires LogOk(h, c.members[x].node) && c.members[x].node.term in h.elections
    ensures var n := c.members[x].node;
      var entry := Entry(|n.log.entries| + 1, n.term, command);
      var m1 := Proposed(c.members[x], x, entry);
      && Step(c, ProposeAt(x, command)) ==
         c.(members := c.members[x := m1.(node := AdvanceCommit(m1.node, c.members.Keys - {x}))])
      && Record(c, h, ProposeAt(x, command)) == ProposedHistory(h, x, entry)
  {
    LogFacts(h, c.members[x].node);
  }

  lemma ProposeStep(c: Cluster, h: History, x: NodeId, command: seq<Byte>)
    requires Inv(c, h) && Enabled(c, ProposeAt(x, command))
    ensures Inv(Step(c, ProposeAt(x, command)), Record(c, h, ProposeAt(x, command)))
    ensures Grows(h, Record(c, h, ProposeAt(x, command)))
  {
    hide HistoryOk, BallotsOk, ArgsOk, AnswersSent, VotesSent, AdvanceCommit, ApplierOk, CandidateOk, AcksKept;
    var m := c.members[x];
    assert MemberOk(c.members.Keys, h, x, m);
    if m.node.role == Leader {
      assert LeaderOk(c.members.Keys, h, x, m.node);
      ProposeEffect(c, h, x, command);
      var entry := Entry(|m.node.log.entries| + 1, m.node.term, command);
      var m1 := Proposed(m, x, entry);
      ProposeByLeader(c, h, x, entry, m1.(node := AdvanceCommit(m1.node, c.members.Keys - {x})));
    } else {
      QuietStep(c, h, x, m);
    }
  }

  // ---------- Delivering ----------

  /** Only the apply loop moved, and what it holds is still the node's log. */
  lemma ApplyOk(ids: set<NodeId>, h: History, x: NodeId, m: Member, m': Member)
    requires MemberOk(ids, h, x, m) && ApplierOk(m')
    requires m'.node == m.node.(lastApplied := m'.node.lastApplied) && m'.tally == m.tally && m'.counted == m.counted
    ensures MemberOk(ids, h, x, m') && CallsStand(m, m')
  {
  }

  lemma ReadEntriesOk(h: History, m: Member)
    requires LogOk(h, m.node) && ApplierOk(m) && m.applier.Locked? && m.node.commitIndex <= |m.node.log.entries|
    ensures ApplierOk(AfterReadEntries(m))
  {
    var rest := AfterReadEntries(m).applier.rest;
    assert rest == m.node.log.entries[m.applier.applied..m.applier.commit];
  }

  lemma DeliverOk(h: History, m: Member)
    requires LogOk(h, m.node) && ApplierOk(m) && m.applier.Sending?
    ensures ApplierOk(AfterDeliver(m))
  {
    var rest, k := m.applier.rest, |m.delivered|;
    if rest != [] {
      assert (m.delivered + rest)[k] == rest[0] == m.node.log.entries[k];
      assert Stems(h, m.node.log.entries, k);
      assert m.delivered + [rest[0]] + rest[1..] == m.delivered + rest;
    }
  }

  ghost predicate IsApply(a: Action) {
    a.ReadCommit? || a.ReadEntries? || a.Deliver? || a.StopDelivery?
  }

  function AfterApply(m: Member, a: Action): Member
    requires IsApply(a) && (a.ReadEntries? ==> m.applier.Locked?) && (a.Deliver? ==> m.applier.Sending?)
  {
    match a
    case ReadCommit(_) => AfterReadCommit(m)
    case ReadEntries(_) => AfterReadEntries(m)
    case Deliver(_) => AfterDeliver(m)
    case _ => m.(applier := Idle)
  }

  lemma AppliedLoop(h: History, m: Member, a: Action)
    requires LogOk(h, m.node) && ApplierOk(m) && m.node.commitIndex <= |m.node.log.entries|
    requires IsApply(a) && (a.ReadEntries? ==> m.applier.Locked?) && (a.Deliver? ==> m.applier.Sending?)
    ensures var m' := AfterApply(m, a);
      && ApplierOk(m') && m'.node == m.node.(lastApplied := m'.node.lastApplied)
      && m'.tally == m.tally && m'.counted == m.counted
  {
    match a {
      case ReadEntries(_) => ReadEntriesOk(h, m);
      case Deliver(_) => DeliverOk(h, m);
      case _ =>
    }
  }

  lemma AppliedMember(ids: set<NodeId>, h: History, x: NodeId, m: Member, a: Action)
    requires MemberOk(ids, h, x, m)
    requires IsApply(a) && (a.ReadEntries? ==> m.applier.Locked?) && (a.Deliver? ==> m.applier.Sending?)
    ensures MemberOk(ids, h, x, AfterApply(m, a)) && CallsStand(m, AfterApply(m, a))
  {
    hide AfterApply, ApplierOk, LogOk, LeaderOk, CandidateOk, CallsStand;
    assert CommitOk(ids, h, m.node);
    AppliedLoop(h, m, a);
    ApplyOk(ids, h, x, m, AfterApply(m, a));
  }

  lemma ApplyStep(c: Cluster, h: History, a: Action)
    requires Inv(c, h) && Enabled(c, a) && IsApply(a)
    ensures Inv(Step(c, a), h)
  {
    hide HistoryOk, BallotsOk, ArgsOk, MemberOk;
    var m := c.members[a.id];
    assert MemberOk(c.members.Keys, h, a.id, m);
    AppliedMember(c.members.Keys, h, a.id, m, a);
    QuietStep(c, h, a.id, AfterApply(m, a));
  }
}
