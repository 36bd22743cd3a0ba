/** Histories only grow, and what was established stays established: the parts
    of the invariant that survive any growth, and the history's own invariant
    under each kind of growth. */
module RaftGrowth {
  import opened RaftTypes
  import opened RaftNode
  import opened RaftCluster
  import opened RaftHistory
  import opened RaftInvariant

  ghost predicate Grows(h: History, h': History) {
    && (forall t {:trigger t in h.elections} :: t in h.elections ==>
          && t in h'.elections
          && h'.elections[t].leader == h.elections[t].leader
          && h'.elections[t].quorum == h.elections[t].quorum
          && h'.elections[t].start == h.elections[t].start
          && Agree(h.elections[t].log, h'.elections[t].log, |h.elections[t].log|))
    && (forall b {:trigger b in h.votes} :: b in h.votes ==> b in h'.votes && h'.votes[b] == h.votes[b])
    && h.acks <= h'.acks
  }

  lemma GrowsTransitive(a: History, b: History, c: History)
    requires Grows(a, b) && Grows(b, c)
    ensures Grows(a, c)
  {
  }

  lemma StemsGrow(h: History, h': History, log: seq<Entry>, k: nat)
    requires Grows(h, h') && k < |log| && Stems(h, log, k)
    ensures Stems(h', log, k)
  {
  }

  lemma FromLeadersGrow(h: History, h': History, log: seq<Entry>)
    requires Grows(h, h') && FromLeaders(h, log)
    ensures FromLeaders(h', log)
  {
    forall k | 0 <= k < |log| ensures Stems(h', log, k) {
      assert Stems(h, log, k);
      StemsGrow(h, h', log, k);
    }
  }

  lemma MissedGrows(h: History, h': History, t: nat, i: nat, missMax: int)
    requires Grows(h, h') && t in h.elections && i <= |h.elections[t].log|
    requires Missed(h, t, i, missMax)
    ensures Missed(h', t, i, missMax)
  {
    var v :| t < v <= missMax && v in h.elections && !Agree(h.elections[t].log, h.elections[v].start, i);
    assert !Agree(h'.elections[t].log, h'.elections[v].start, i);
  }

  lemma HoldsAckedGrows(h: History, h': History, x: NodeId, log: seq<Entry>, ackMax: int, missMax: int)
    requires Grows(h, h') && AcksOk(h) && HoldsAcked(h, x, log, ackMax, missMax)
    requires forall a {:trigger a in h'.acks} :: a in h'.acks && a.node == x && a.term <= ackMax ==> a in h.acks
    ensures HoldsAcked(h', x, log, ackMax, missMax)
  {
    forall a | a in h'.acks && a.node == x && a.term <= ackMax && a.term in h'.elections
      ensures Agree(h'.elections[a.term].log, log, a.index) || Missed(h', a.term, a.index, missMax)
    {
      assert a in h.acks;
      if Missed(h, a.term, a.index, missMax) {
        MissedGrows(h, h', a.term, a.index, missMax);
      }
    }
  }

  lemma CommittedGrows(ids: set<NodeId>, h: History, h': History, t: nat, i: nat)
    requires Grows(h, h') && Committed(ids, h, t, i)
    ensures Committed(ids, h', t, i)
  {
    CardinalityMonotone(AckedBy(ids, h, t, i), AckedBy(ids, h', t, i));
  }

  lemma CommittedPrefixGrows(ids: set<NodeId>, h: History, h': History, log: seq<Entry>, log': seq<Entry>, c: nat, term: nat, term': nat)
    requires Grows(h, h') && CommittedPrefix(ids, h, log, c, term)
    requires term <= term' && Agree(log, log', c)
    ensures CommittedPrefix(ids, h', log', c, term')
  {
    if c > 0 {
      var t: nat, i: nat :| t <= term && c <= i && Committed(ids, h, t, i) && Agree(log, h.elections[t].log, c);
      CommittedGrows(ids, h, h', t, i);
      assert Agree(log', h'.elections[t].log, c);
    }
  }

  lemma ArgsGrow(ids: set<NodeId>, h: History, h': History, to: NodeId, args: AppendArgs)
    requires Grows(h, h') && ArgsOk(ids, h, to, args)
    ensures ArgsOk(ids, h', to, args)
  {
    var log, log' := h.elections[args.term].log, h'.elections[args.term].log;
    assert log[..args.prevLogIndex] == log'[..args.prevLogIndex];
    CommittedPrefixGrows(ids, h, h', log, log', args.leaderCommit, args.term, args.term);
  }

  lemma AnswersGrow(c: Cluster, h: History, h': History)
    requires Grows(h, h') && AnswersSent(c, h)
    ensures AnswersSent(c, h')
  {
    forall m | m in c.net.appends ensures ArgsOk(c.members.Keys, h', m.to, m.args) {
      ArgsGrow(c.members.Keys, h, h', m.to, m.args);
    }
    forall a | a in c.net.appendAnswers ensures AnswerOk(c.members.Keys, h', a) {
      ArgsGrow(c.members.Keys, h, h', a.from, a.args);
    }
  }

  /** An election whose leader appended nothing stays in order. */
  lemma ElectionGrows(ids: set<NodeId>, h: History, h': History, t: nat)
    requires Grows(h, h') && t in h.elections && ElectionOk(ids, h, t)
    requires h'.elections[t].log == h.elections[t].log
    ensures ElectionOk(ids, h', t)
  {
    FromLeadersGrow(h, h', h.elections[t].log);
  }

  /** No new acknowledgement from a voter of an old ballot in an earlier term. */
  ghost predicate AcksFollowVotes(h: History, h': History) {
    forall a, b :: a in h'.acks && a !in h.acks && b in h.votes && b.voter == a.node ==> b.term <= a.term
  }

  lemma QuorumVotedGrows(h: History, h': History, t: nat)
    requires Grows(h, h') && AcksOk(h) && AcksFollowVotes(h, h') && t in h.elections && QuorumVoted(h, t)
    ensures QuorumVoted(h', t)
  {
    var e := h.elections[t];
    forall x | x in e.quorum
      ensures var b := Ballot(x, e.leader, t);
        b in h'.votes && FromLeaders(h', h'.votes[b]) && UpToDate(e.start, h'.votes[b]) &&
        HoldsAcked(h', x, h'.votes[b], t - 1, t - 1)
    {
      var b := Ballot(x, e.leader, t);
      assert b in h.votes;
      FromLeadersGrow(h, h', h.votes[b]);
      HoldsAckedGrows(h, h', x, h.votes[b], t - 1, t - 1);
    }
  }

  lemma BallotGrows(ids: set<NodeId>, h: History, h': History, b: Ballot)
    requires Grows(h, h') && AcksOk(h) && AcksFollowVotes(h, h') && b in h.votes && BallotOk(ids, h, b)
    ensures BallotOk(ids, h', b)
  {
    FromLeadersGrow(h, h', h.votes[b]);
    HoldsAckedGrows(h, h', b.voter, h.votes[b], b.term - 1, b.term);
  }

  /** All that was recorded before survives, but for elections whose log changed. */
  lemma OldRecordsGrow(ids: set<NodeId>, h: History, h': History, except: set<nat>)
    requires HistoryOk(ids, h) && BallotsOk(ids, h) && Grows(h, h') && AcksFollowVotes(h, h')
    requires forall t {:trigger t in h.elections} :: t in h.elections && t !in except ==> h'.elections[t].log == h.elections[t].log
    ensures forall t {:trigger ElectionOk(ids, h', t)} :: t in h.elections && t !in except ==> ElectionOk(ids, h', t)
    ensures forall t {:trigger QuorumVoted(h', t)} :: t in h.elections ==> QuorumVoted(h', t)
    ensures forall b {:trigger BallotOk(ids, h', b)} :: b in h.votes ==> BallotOk(ids, h', b)
  {
    forall t | t in h.elections && t !in except ensures ElectionOk(ids, h', t) {
      assert ElectionOk(ids, h, t);
      ElectionGrows(ids, h, h', t);
    }
    forall t | t in h.elections ensures QuorumVoted(h', t) {
      assert QuorumVoted(h, t);
      QuorumVotedGrows(h, h', t);
    }
    forall b | b in h.votes ensures BallotOk(ids, h', b) {
      assert BallotOk(ids, h, b);
      BallotGrows(ids, h, h', b);
    }
  }

  // ---------- Each kind of growth keeps the history in order ----------

  lemma AddVoteOk(ids: set<NodeId>, h: History, b: Ballot, log: seq<Entry>)
    requires HistoryOk(ids, h) && BallotsOk(ids, h)
    requires b.voter in ids && b.candidate in ids
    requires FromLeaders(h, log) && HoldsAcked(h, b.voter, log, b.term - 1, b.term)
    requires b.term !in h.elections ==>
      forall a {:trigger a in h.votes} :: a in h.votes && a.voter == b.voter && a.term == b.term ==> a.candidate == b.candidate
    requires b.term in h.elections && b.voter in h.elections[b.term].quorum ==> b.candidate == h.elections[b.term].leader
    ensures var h' := AddVote(h, b, log);
      Grows(h, h') && HistoryOk(ids, h') && BallotsOk(ids, h') && b in h'.votes
  {
    var h' := AddVote(h, b, log);
    OldRecordsGrow(ids, h, h', {});
    if b !in h.votes {
      FromLeadersGrow(h, h', log);
      HoldsAckedGrows(h, h', b.voter, log, b.term - 1, b.term);
      assert BallotOk(ids, h', b);
    }
  }

  /** When nobody led the term yet, the voters' logs miss nothing of it. */
  lemma NewQuorumVoted(ids: set<NodeId>, h: History, h': History, t: nat)
    requires Grows(h, h') && AcksOk(h) && BallotsOk(ids, h) && h'.acks == h.acks && h'.votes == h.votes
    requires t !in h.elections && t in h'.elections
    requires forall x {:trigger x in h'.elections[t].quorum} :: x in h'.elections[t].quorum ==>
      Ballot(x, h'.elections[t].leader, t) in h.votes &&
      UpToDate(h'.elections[t].start, h.votes[Ballot(x, h'.elections[t].leader, t)])
    ensures QuorumVoted(h', t)
  {
    var e := h'.elections[t];
    forall x | x in e.quorum
      ensures var b := Ballot(x, e.leader, t);
        b in h'.votes && FromLeaders(h', h'.votes[b]) && UpToDate(e.start, h'.votes[b]) &&
        HoldsAcked(h', x, h'.votes[b], t - 1, t - 1)
    {
      var b := Ballot(x, e.leader, t);
      assert BallotOk(ids, h, b);
      FromLeadersGrow(h, h', h.votes[b]);
      assert HoldsAcked(h, x, h.votes[b], t - 1, t - 1);
      HoldsAckedGrows(h, h', x, h.votes[b], t - 1, t - 1);
    }
  }

  lemma AddElectionOk(ids: set<NodeId>, h: History, t: nat, e: Election)
    requires HistoryOk(ids, h) && BallotsOk(ids, h)
    requires t >= 1 && t !in h.elections
    requires e.leader in e.quorum && e.quorum <= ids && 2 * |e.quorum| > |ids|
    requires e.start == e.log && FromLeaders(h, e.log)
    requires forall k :: 0 <= k < |e.log| ==> e.log[k].term < t
    requires forall x {:trigger x in e.quorum} :: x in e.quorum ==>
      Ballot(x, e.leader, t) in h.votes && UpToDate(e.log, h.votes[Ballot(x, e.leader, t)])
    ensures var h' := AddElection(h, t, e);
      Grows(h, h') && HistoryOk(ids, h') && BallotsOk(ids, h')
  {
    var h' := AddElection(h, t, e);
    assert Grows(h, h');
    FromLeadersGrow(h, h', e.log);
    OldRecordsGrow(ids, h, h', {});
    NewQuorumVoted(ids, h, h', t);
    assert ElectionOk(ids, h', t);
  }

  lemma ExtendedElection(ids: set<NodeId>, h: History, h': History, t: nat, entry: Entry)
    requires t in h.elections && ElectionOk(ids, h, t) && Grows(h, h')
    requires entry.term == t && entry.index == |h.elections[t].log| + 1
    requires h'.elections[t] == h.elections[t].(log := h.elections[t].log + [entry])
    ensures ElectionOk(ids, h', t)
  {
    var log, log' := h.elections[t].log, h'.elections[t].log;
    forall k | 0 <= k < |log'| ensures Stems(h', log', k) {
      if k < |log| {
        assert Stems(h, log, k);
        StemsGrow(h, h', log, k);
        assert log'[k] == log[k];
      }
    }
  }

  lemma ExtendLogOk(ids: set<NodeId>, h: History, t: nat, entry: Entry)
    requires HistoryOk(ids, h) && BallotsOk(ids, h)
    requires t in h.elections && entry.term == t && entry.index == |h.elections[t].log| + 1
    ensures var h' := ExtendLog(h, t, entry);
      Grows(h, h') && HistoryOk(ids, h') && BallotsOk(ids, h')
  {
    var h' := ExtendLog(h, t, entry);
    assert Grows(h, h');
    OldRecordsGrow(ids, h, h', {t});
    assert ElectionOk(ids, h, t);
    ExtendedElection(ids, h, h', t, entry);
  }

  lemma AddAcksOk(ids: set<NodeId>, h: History, x: NodeId, t: nat, top: nat)
    requires HistoryOk(ids, h) && BallotsOk(ids, h)
    requires t in h.elections && top <= |h.elections[t].log|
    requires forall b {:trigger b in h.votes} :: b in h.votes && b.voter == x ==> b.term <= t
    ensures var h' := AddAcks(h, x, t, top);
      Grows(h, h') && HistoryOk(ids, h') && BallotsOk(ids, h') && Ack(x, t, top) in h'.acks
  {
    var h' := AddAcks(h, x, t, top);
    assert Grows(h, h');
    OldRecordsGrow(ids, h, h', {});
  }

  // ---------- Members that took no part in the step ----------

  ghost predicate BallotsSpare(h: History, h': History, x: NodeId, n: NodeState) {
    forall b {:trigger b in h'.votes} :: b in h'.votes && b !in h.votes ==>
      && b.voter != x
      && (b.candidate == x ==> b.term <= n.term)
      && (b.candidate == x && b.term == n.term && n.role == Candidate ==> UpToDate(n.log.entries, h'.votes[b]))
  }

  ghost predicate AcksSpare(h: History, h': History, x: NodeId) {
    forall a {:trigger a in h'.acks} :: a in h'.acks && a.node == x ==> a in h.acks
  }

  lemma BystanderOk(ids: set<NodeId>, h: History, h': History, x: NodeId, m: Member)
    requires Grows(h, h') && AcksOk(h) && MemberOk(ids, h, x, m)
    requires BallotsSpare(h, h', x, m.node) && AcksSpare(h, h', x)
    requires QuorumKept(h', x, m.node)
    requires m.node.role == Leader ==> h'.elections[m.node.term].log == h.elections[m.node.term].log
    ensures MemberOk(ids, h', x, m)
  {
    var n := m.node;
    FromLeadersGrow(h, h', n.log.entries);
    HoldsAckedGrows(h, h', x, n.log.entries, n.term, n.term);
    CommittedPrefixGrows(ids, h, h', n.log.entries, n.log.entries, n.commitIndex, n.term, n.term);
    assert VoteKept(h', x, n);
    assert LeaderOk(ids, h', x, n);
    assert CandidateOk(ids, h', x, m);
  }
}
