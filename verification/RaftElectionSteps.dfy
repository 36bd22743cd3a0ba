/** Election steps keep the invariant. */
module RaftElectionSteps {
  import opened RaftTypes
  import opened RaftNode
  import opened RaftCluster
  import opened RaftHistory
  import opened RaftInvariant
  import opened RaftGrowth

  // ---------- Shared pieces ----------

  /** Without compaction the log's last index is its length. */
  lemma LogFacts(h: History, n: NodeState)
    requires LogOk(h, n)
    ensures n.log.LastIndex() == |n.log.entries|
    ensures n.log.LastTerm() == LastTermOf(n.log.entries)
  {
    if n.log.entries != [] {
      assert Stems(h, n.log.entries, |n.log.entries| - 1);
    }
  }

  /** A bystander may keep its place in the invariant. */
  ghost predicate Spared(h: History, h': History, y: NodeId, n: NodeState) {
    && BallotsSpare(h, h', y, n)
    && AcksSpare(h, h', y)
    && QuorumKept(h', y, n)
    && (n.role == Leader && n.term in h.elections && n.term in h'.elections ==>
          h'.elections[n.term].log == h.elections[n.term].log)
  }

  /** `m'` neither goes back in term nor changes what it asked votes with. */
  ghost predicate CallsStand(m: Member, m': Member) {
    && m.node.term <= m'.node.term
    && (m'.node.role == Candidate && m'.node.term == m.node.term ==>
          m.node.role == Candidate && m'.node.log.entries == m.node.log.entries)
  }

  lemma VotesStand(c: Cluster, c': Cluster, x: NodeId, m': Member)
    requires VotesSent(c) && x in c.members && CallsStand(c.members[x], m')
    requires c'.members == c.members[x := m'] && c'.net.voteCalls == c.net.voteCalls
    ensures VotesSent(c')
  {
  }

  lemma MembersStand(c: Cluster, h: History, c': Cluster, h': History, x: NodeId, m': Member)
    requires MembersOk(c, h) && AcksOk(h) && Grows(h, h')
    requires x in c.members && c'.members == c.members[x := m'] && MemberOk(c.members.Keys, h', x, m')
    requires forall y {:trigger Spared(h, h', y, c.members[y].node)} :: y in c.members && y != x ==> Spared(h, h', y, c.members[y].node)
    ensures MembersOk(c', h') && c'.members.Keys == c.members.Keys
  {
    assert c'.members.Keys == c.members.Keys;
    forall y | y in c.members ensures MemberOk(c.members.Keys, h', y, c'.members[y]) {
      if y != x {
        assert MemberOk(c.members.Keys, h, y, c.members[y]);
        assert Spared(h, h', y, c.members[y].node);
        BystanderOk(c.members.Keys, h, h', y, c.members[y]);
      }
    }
  }

  /** A step of one node that records nothing and sends nothing. */
  lemma QuietStep(c: Cluster, h: History, x: NodeId, m': Member)
    requires Inv(c, h) && x in c.members
    requires MemberOk(c.members.Keys, h, x, m') && CallsStand(c.members[x], m')
    ensures Inv(c.(members := c.members[x := m']), h)
  {
    var c' := c.(members := c.members[x := m']);
    forall y | y in c.members && y != x ensures Spared(h, h, y, c.members[y].node) {
      assert MemberOk(c.members.Keys, h, y, c.members[y]);
    }
    MembersStand(c, h, c', h, x, m');
    VotesStand(c, c', x, m');
  }

  /** A voter of a term's winning quorum has reached that term. */
  lemma QuorumReached(ids: set<NodeId>, h: History, x: NodeId, n: NodeState, t: nat)
    requires HistoryOk(ids, h) && BallotsBounded(h, x, n.term)
    requires t in h.elections && x in h.elections[t].quorum
    ensures t <= n.term
  {
    assert QuorumVoted(h, t);
    assert Ballot(x, h.elections[t].leader, t) in h.votes;
  }

  /** The node kept its log, commit index and deliveries, went no lower in term
      and did not newly become leader: a change of vote or role at most. */
  ghost predicate SameStore(m: Member, m': Member) {
    && m.node.term <= m'.node.term
    && m'.node.log == m.node.log
    && m'.node.commitIndex == m.node.commitIndex && m'.node.lastApplied == m.node.lastApplied
    && m'.applier == m.applier && m'.delivered == m.delivered
    && (m'.node.role == Leader ==>
          && m.node.role == Leader && m'.node.term == m.node.term
          && m'.node.nextIndex == m.node.nextIndex && m'.node.matchIndex == m.node.matchIndex)
  }

  lemma HoldsLater(h: History, x: NodeId, log: seq<Entry>, term: nat, term': nat)
    requires HoldsAcked(h, x, log, term, term) && term <= term'
    requires forall a {:trigger a in h.acks} :: a in h.acks && a.node == x ==> a.term <= term
    ensures HoldsAcked(h, x, log, term', term') && HoldsAcked(h, x, log, term' - 1, term')
  {
    forall a | a in h.acks && a.node == x && a.term <= term' && a.term in h.elections
      ensures Agree(h.elections[a.term].log, log, a.index) || Missed(h, a.term, a.index, term')
    {
    }
  }

  lemma SameStoreOk(ids: set<NodeId>, h: History, h': History, x: NodeId, m: Member, m': Member)
    requires MemberOk(ids, h, x, m) && SameStore(m, m') && Grows(h, h')
    requires AcksOk(h) && h'.acks == h.acks && h'.elections == h.elections
    ensures LogOk(h', m'.node) && LeaderOk(ids, h', x, m'.node) && AcksKept(h', x, m'.node)
    ensures CommitOk(ids, h', m'.node) && ApplierOk(m')
  {
    var n, n' := m.node, m'.node;
    FromLeadersGrow(h, h', n.log.entries);
    HoldsLater(h, x, n.log.entries, n.term, n'.term);
    HoldsAckedGrows(h, h', x, n.log.entries, n'.term, n'.term);
    CommittedPrefixGrows(ids, h, h', n.log.entries, n.log.entries, n.commitIndex, n.term, n'.term);
  }

  /** Stepping down keeps the invariant when the term is new to the node, or
      when the term has a leader the node did not help to elect. */
  lemma FollowerOk(ids: set<NodeId>, h: History, x: NodeId, m: Member, t: nat, leader: NodeId)
    requires HistoryOk(ids, h) && MemberOk(ids, h, x, m)
    requires t > m.node.term ||
      (t == m.node.term && t in h.elections && x !in h.elections[t].quorum)
    ensures MemberOk(ids, h, x, m.(node := BecomeFollower(m.node, t).(leader := leader)))
  {
    var n' := BecomeFollower(m.node, t).(leader := leader);
    SameStoreOk(ids, h, h, x, m, m.(node := n'));
    if t in h.elections && x in h.elections[t].quorum {
      QuorumReached(ids, h, x, m.node, t);
    }
  }

  // ---------- Starting an election ----------

  lemma TimeoutVote(ids: set<NodeId>, h: History, x: NodeId, m: Member)
    requires HistoryOk(ids, h) && BallotsOk(ids, h) && MemberOk(ids, h, x, m) && x in ids
    ensures var h' := AddVote(h, Ballot(x, x, m.node.term + 1), m.node.log.entries);
      && Grows(h, h') && HistoryOk(ids, h') && BallotsOk(ids, h')
      && Ballot(x, x, m.node.term + 1) !in h.votes
      && (m.node.term + 1 in h.elections ==> x !in h.elections[m.node.term + 1].quorum)
  {
    var t := m.node.term + 1;
    if t in h.elections && x in h.elections[t].quorum {
      QuorumReached(ids, h, x, m.node, t);
    }
    HoldsLater(h, x, m.node.log.entries, m.node.term, t);
    AddVoteOk(ids, h, Ballot(x, x, t), m.node.log.entries);
  }

  lemma TimeoutBallots(ids: set<NodeId>, h: History, h': History, x: NodeId, m: Member)
    requires MemberOk(ids, h, x, m) && m.node.role != Leader
    requires Ballot(x, x, m.node.term + 1) !in h.votes
    requires h' == h.(votes := h.votes[Ballot(x, x, m.node.term + 1) := m.node.log.entries])
    requires m.node.term + 1 in h.elections ==> x !in h.elections[m.node.term + 1].quorum
    ensures var m' := AfterTimeout(m, x);
      && BallotsBounded(h', x, m'.node.term) && VoteKept(h', x, m'.node) && QuorumKept(h', x, m'.node)
      && CandidateOk(ids, h', x, m')
  {
  }

  lemma TimeoutMember(ids: set<NodeId>, h: History, x: NodeId, m: Member)
    requires HistoryOk(ids, h) && BallotsOk(ids, h) && MemberOk(ids, h, x, m) && x in ids && m.node.role != Leader
    ensures MemberOk(ids, AddVote(h, Ballot(x, x, m.node.term + 1), m.node.log.entries), x, AfterTimeout(m, x))
  {
    var h' := AddVote(h, Ballot(x, x, m.node.term + 1), m.node.log.entries);
    TimeoutVote(ids, h, x, m);
    TimeoutBallots(ids, h, h', x, m);
    SameStoreOk(ids, h, h', x, m, AfterTimeout(m, x));
  }

  lemma TimeoutCalls(c: Cluster, h: History, x: NodeId)
    requires Inv(c, h) && Enabled(c, Timeout(x))
    ensures VotesSent(Step(c, Timeout(x)))
  {
    assert MemberOk(c.members.Keys, h, x, c.members[x]);
    LogFacts(h, c.members[x].node);
  }

  /** A new ballot touches only its voter and its candidate. */
  lemma SparedByVote(c: Cluster, h: History, h': History, b: Ballot)
    requires MembersOk(c, h) && b.candidate in c.members
    requires h'.elections == h.elections && h'.acks == h.acks
    requires forall a {:trigger a in h'.votes} :: a in h'.votes ==> a in h.votes || a == b
    requires b in h'.votes && b.candidate != b.voter ==>
      var n := c.members[b.candidate].node;
      b.term <= n.term && (b.term == n.term && n.role == Candidate ==> UpToDate(n.log.entries, h'.votes[b]))
    ensures forall y {:trigger Spared(h, h', y, c.members[y].node)} :: y in c.members && y != b.voter ==>
      Spared(h, h', y, c.members[y].node)
  {
    forall y | y in c.members && y != b.voter ensures Spared(h, h', y, c.members[y].node) {
      assert MemberOk(c.members.Keys, h, y, c.members[y]);
    }
  }

  /** Starting an election raises the term, records the node's vote for itself
      and sends a request that describes its log. */
  lemma TimeoutStep(c: Cluster, h: History, x: NodeId)
    requires Inv(c, h) && Enabled(c, Timeout(x))
    ensures Inv(Step(c, Timeout(x)), Record(c, h, Timeout(x)))
    ensures Grows(h, Record(c, h, Timeout(x)))
  {
    var ids, m := c.members.Keys, c.members[x];
    var c', h' := Step(c, Timeout(x)), Record(c, h, Timeout(x));
    assert MemberOk(ids, h, x, m);
    TimeoutVote(ids, h, x, m);
    TimeoutMember(ids, h, x, m);
    TimeoutCalls(c, h, x);
    SparedByVote(c, h, h', Ballot(x, x, m.node.term + 1));
    MembersStand(c, h, c', h', x, AfterTimeout(m, x));
    AnswersGrow(c, h, h');
  }

  // ---------- Answering a vote request ----------

  /** A granted vote is the voter's only one of a term without a leader, and
      goes to the leader if the voter is in the winning quorum. */
  lemma GrantRecorded(ids: set<NodeId>, h: History, x: NodeId, m: Member, candidate: NodeId)
    requires HistoryOk(ids, h) && BallotsOk(ids, h) && MemberOk(ids, h, x, m)
    requires NOBODY !in ids && x in ids && candidate in ids
    requires m.node.votedFor == NOBODY || m.node.votedFor == candidate
    ensures var h' := AddVote(h, Ballot(x, candidate, m.node.term), m.node.log.entries);
      && Grows(h, h') && HistoryOk(ids, h') && BallotsOk(ids, h')
      && Ballot(x, candidate, m.node.term) in h'.votes
  {
    var n := m.node;
    HoldsLater(h, x, n.log.entries, n.term, n.term);
    forall a | a in h.votes && a.voter == x && a.term == n.term && n.term !in h.elections
      ensures a.candidate == candidate
    {
      assert BallotOk(ids, h, a);
    }
    if n.term in h.elections && x in h.elections[n.term].quorum {
      assert ElectionOk(ids, h, n.term);
    }
    AddVoteOk(ids, h, Ballot(x, candidate, n.term), n.log.entries);
  }

  lemma GrantVotes(ids: set<NodeId>, h: History, h': History, x: NodeId, m: Member, candidate: NodeId)
    requires HistoryOk(ids, h) && BallotsOk(ids, h) && MemberOk(ids, h, x, m)
    requires NOBODY !in ids && x in ids && candidate in ids && candidate != x
    requires m.node.votedFor == NOBODY || m.node.votedFor == candidate
    requires h' == AddVote(h, Ballot(x, candidate, m.node.term), m.node.log.entries)
    ensures var m' := m.(node := m.node.(votedFor := candidate));
      && BallotsBounded(h', x, m'.node.term) && VoteKept(h', x, m'.node) && QuorumKept(h', x, m'.node)
      && CandidateOk(ids, h', x, m')
  {
    var n := m.node;
    forall a | a in h.votes && a.voter == x && a.term == n.term && n.term !in h.elections
      ensures a.candidate == candidate
    {
      assert BallotOk(ids, h, a);
    }
    if n.term in h.elections && x in h.elections[n.term].quorum {
      assert ElectionOk(ids, h, n.term);
    }
  }

  lemma GrantMember(ids: set<NodeId>, h: History, x: NodeId, m: Member, candidate: NodeId)
    requires HistoryOk(ids, h) && BallotsOk(ids, h) && MemberOk(ids, h, x, m)
    requires NOBODY !in ids && x in ids && candidate in ids && candidate != x
    requires m.node.votedFor == NOBODY || m.node.votedFor == candidate
    ensures var h' := AddVote(h, Ballot(x, candidate, m.node.term), m.node.log.entries);
      MemberOk(ids, h', x, m.(node := m.node.(votedFor := candidate)))
  {
    var h' := AddVote(h, Ballot(x, candidate, m.node.term), m.node.log.entries);
    GrantRecorded(ids, h, x, m, candidate);
    SameStoreOk(ids, h, h', x, m, m.(node := m.node.(votedFor := candidate)));
    GrantVotes(ids, h, h', x, m, candidate);
  }

  /** The voter after the term check, before the vote is decided. */
  function Caught(n: NodeState, args: VoteArgs): NodeState {
    if args.term > n.term then BecomeFollower(n, args.term) else n
  }

  lemma CaughtOk(ids: set<NodeId>, h: History, x: NodeId, m: Member, args: VoteArgs)
    requires HistoryOk(ids, h) && MemberOk(ids, h, x, m) && args.term >= m.node.term
    ensures MemberOk(ids, h, x, m.(node := Caught(m.node, args)))
  {
    if args.term > m.node.term {
      FollowerOk(ids, h, x, m, args.term, m.node.leader);
      assert BecomeFollower(m.node, args.term).(leader := m.node.leader) == BecomeFollower(m.node, args.term);
    }
  }

  /** The candidate a vote is granted to is at least as up to date as the voter. */
  lemma GrantUpToDate(c: Cluster, h: History, x: NodeId, args: VoteArgs)
    requires Inv(c, h) && Enabled(c, AnswerVote(x, args))
    requires HandleVote(c.members[x].node, args).1.granted
    ensures args.candidate in c.members
    ensures var n := c.members[args.candidate].node;
      && args.term <= n.term
      && (args.term == n.term && n.role == Candidate ==> UpToDate(n.log.entries, c.members[x].node.log.entries))
  {
    assert MemberOk(c.members.Keys, h, x, c.members[x]);
    LogFacts(h, c.members[x].node);
  }

  lemma AnswersExtended(c: Cluster, h: History, c': Cluster, v: VoteAnswer)
    requires AnswersSent(c, h) && c'.members.Keys == c.members.Keys
    requires c'.net == c.net.(voteAnswers := c.net.voteAnswers + {v}) && VoteAnswerOk(c.members.Keys, h, v)
    ensures AnswersSent(c', h)
  {
  }

  lemma GrantSpares(c: Cluster, h: History, x: NodeId, args: VoteArgs)
    requires Inv(c, h) && Enabled(c, AnswerVote(x, args))
    requires HandleVote(c.members[x].node, args).1.granted
    ensures var h' := Record(c, h, AnswerVote(x, args));
      forall y {:trigger Spared(h, h', y, c.members[y].node)} :: y in c.members && y != x ==>
        Spared(h, h', y, c.members[y].node)
  {
    var h' := Record(c, h, AnswerVote(x, args));
    GrantUpToDate(c, h, x, args);
    if h' == h {
      forall y | y in c.members && y != x ensures Spared(h, h', y, c.members[y].node) {
        assert MemberOk(c.members.Keys, h, y, c.members[y]);
      }
    } else {
      SparedByVote(c, h, h', Ballot(x, args.candidate, args.term));
    }
  }

  lemma GrantedVoter(ids: set<NodeId>, h: History, x: NodeId, m: Member, args: VoteArgs)
    requires HistoryOk(ids, h) && BallotsOk(ids, h) && MemberOk(ids, h, x, m) && NOBODY !in ids
    requires x in ids && args.candidate in ids && args.candidate != x && HandleVote(m.node, args).1.granted
    ensures var h' := AddVote(h, Ballot(x, args.candidate, args.term), m.node.log.entries);
      && Grows(h, h') && HistoryOk(ids, h') && BallotsOk(ids, h')
      && Ballot(x, args.candidate, args.term) in h'.votes
      && MemberOk(ids, h', x, m.(node := HandleVote(m.node, args).0))
  {
    hide HistoryOk, BallotsOk, MemberOk, Grows, LogUpToDate;
    CaughtOk(ids, h, x, m, args);
    var m1 := m.(node := Caught(m.node, args));
    GrantRecorded(ids, h, x, m1, args.candidate);
    GrantMember(ids, h, x, m1, args.candidate);
  }

  /** Granting a vote, possibly for the second time in a term. */
  lemma AnswerVoteGranted(c: Cluster, h: History, x: NodeId, args: VoteArgs)
    requires Inv(c, h) && Enabled(c, AnswerVote(x, args))
    requires HandleVote(c.members[x].node, args).1.granted
    ensures Inv(Step(c, AnswerVote(x, args)), Record(c, h, AnswerVote(x, args)))
    ensures Grows(h, Record(c, h, AnswerVote(x, args)))
  {
    var c', h' := Step(c, AnswerVote(x, args)), Record(c, h, AnswerVote(x, args));
    var (node, reply) := HandleVote(c.members[x].node, args);
    var m' := c.members[x].(node := node);
    GrantUpToDate(c, h, x, args);
    assert MemberOk(c.members.Keys, h, x, c.members[x]);
    GrantedVoter(c.members.Keys, h, x, c.members[x], args);
    GrantSpares(c, h, x, args);
    MembersStand(c, h, c', h', x, m');
    VotesStand(c, c', x, m');
    AnswersGrow(c, h, h');
    AnswersExtended(c, h', c', VoteAnswer(x, args, reply));
  }

  lemma AnswerVoteRefused(c: Cluster, h: History, x: NodeId, args: VoteArgs)
    requires Inv(c, h) && Enabled(c, AnswerVote(x, args))
    requires !HandleVote(c.members[x].node, args).1.granted
    ensures Inv(Step(c, AnswerVote(x, args)), h)
  {
    hide HistoryOk, BallotsOk, ArgsOk, LogUpToDate, ApplierOk, AcksKept, CommitOk;
    var m := c.members[x];
    var (node, reply) := HandleVote(m.node, args);
    assert MemberOk(c.members.Keys, h, x, m);
    if args.term >= m.node.term {
      CaughtOk(c.members.Keys, h, x, m, args);
    }
    QuietStep(c, h, x, m.(node := node));
    AnswersExtended(c, h, Step(c, AnswerVote(x, args)), VoteAnswer(x, args, reply));
  }

  // ---------- Winning ----------

  /** `x` is a candidate and `voters`, peers of it, make a vote quorum with it. */
  ghost predicate Winning(ids: set<NodeId>, h: History, x: NodeId, m: Member, voters: set<NodeId>) {
    && MemberOk(ids, h, x, m) && m.node.role == Candidate && x in ids
    && voters <= ids - {x}
    && 2 * (|voters| + 1) > |ids|
    && (forall v {:trigger v in voters} :: v in voters ==> Ballot(v, x, m.node.term) in h.votes)
  }

  lemma WinningVotes(ids: set<NodeId>, h: History, x: NodeId, m: Member, voters: set<NodeId>)
    requires Winning(ids, h, x, m, voters)
    ensures voters + {x} <= ids && 2 * |voters + {x}| > |ids|
    ensures forall v {:trigger v in voters + {x}} :: v in voters + {x} ==>
      Ballot(v, x, m.node.term) in h.votes && UpToDate(m.node.log.entries, h.votes[Ballot(v, x, m.node.term)])
  {
    assert |voters + {x}| == |voters| + 1;
  }

  /** No term has two winners: the two quorums share a voter, who voted for one
      candidate only, and a leader is no candidate. */
  lemma NoRival(ids: set<NodeId>, h: History, x: NodeId, m: Member, voters: set<NodeId>)
    requires HistoryOk(ids, h) && BallotsOk(ids, h) && Winning(ids, h, x, m, voters)
    ensures m.node.term !in h.elections
  {
    var t := m.node.term;
    if t in h.elections {
      WinningVotes(ids, h, x, m, voters);
      assert ElectionOk(ids, h, t);
      var y := QuorumsMeet(ids, h.elections[t].quorum, voters + {x});
      assert false;
    }
  }

  /** The log of a new leader carries only terms before its own. */
  lemma EarlierTerms(h: History, n: NodeState)
    requires LogOk(h, n) && n.term !in h.elections
    ensures forall k :: 0 <= k < |n.log.entries| ==> n.log.entries[k].term < n.term
  {
    forall k | 0 <= k < |n.log.entries| ensures n.log.entries[k].term < n.term {
      assert Stems(h, n.log.entries, k);
    }
  }

  function CrownVoters(h: History, x: NodeId, n: NodeState, voters: set<NodeId>): History {
    AddElection(h, n.term, Election(x, voters + {x}, n.log.entries, n.log.entries))
  }

  lemma CrownRecorded(ids: set<NodeId>, h: History, x: NodeId, m: Member, voters: set<NodeId>)
    requires HistoryOk(ids, h) && BallotsOk(ids, h) && Winning(ids, h, x, m, voters)
    ensures var h1 := CrownVoters(h, x, m.node, voters);
      var h' := AddAcks(h1, x, m.node.term, |m.node.log.entries|);
      && m.node.term !in h.elections
      && Grows(h, h') && HistoryOk(ids, h') && BallotsOk(ids, h')
      && Ack(x, m.node.term, |m.node.log.entries|) in h'.acks
  {
    var n := m.node;
    NoRival(ids, h, x, m, voters);
    WinningVotes(ids, h, x, m, voters);
    EarlierTerms(h, n);
    AddElectionOk(ids, h, n.term, Election(x, voters + {x}, n.log.entries, n.log.entries));
    var h1 := CrownVoters(h, x, n, voters);
    AddAcksOk(ids, h1, x, n.term, |n.log.entries|);
    GrowsTransitive(h, h1, AddAcks(h1, x, n.term, |n.log.entries|));
  }

  /** Voters of the new leader become the members that keep their vote. */
  lemma CrownSpares(c: Cluster, h: History, x: NodeId, voters: set<NodeId>)
    requires Inv(c, h) && x in c.members && Winning(c.members.Keys, h, x, c.members[x], voters)
    requires c.members[x].node.term !in h.elections
    ensures var n := c.members[x].node;
      var h' := AddAcks(CrownVoters(h, x, n, voters), x, n.term, |n.log.entries|);
      forall y {:trigger Spared(h, h', y, c.members[y].node)} :: y in c.members && y != x ==>
        Spared(h, h', y, c.members[y].node)
  {
    hide HistoryOk, BallotsOk, ApplierOk, AcksKept, CommitOk, AnswersSent, VotesSent, LogOk;
    var n := c.members[x].node;
    var h' := AddAcks(CrownVoters(h, x, n, voters), x, n.term, |n.log.entries|);
    forall y | y in c.members && y != x ensures Spared(h, h', y, c.members[y].node) {
      var k := c.members[y].node;
      assert MemberOk(c.members.Keys, h, y, c.members[y]);
      assert VoteKept(h, y, k) && QuorumKept(h, y, k) && LeaderOk(c.members.Keys, h, y, k);
      if k.term == n.term && y in voters {
        assert Ballot(y, x, n.term) in h.votes;
      }
    }
  }

  /** `m` has turned from candidate to leader and done nothing else. */
  ghost predicate Crowned(ids: set<NodeId>, x: NodeId, m: Member, m': Member) {
    && m'.node == BecomeLeader(m.node, x, ids - {x})
    && m'.applier == m.applier && m'.delivered == m.delivered
  }

  lemma CrownedLeader(ids: set<NodeId>, h: History, h': History, x: NodeId, m: Member, m': Member)
    requires MemberOk(ids, h, x, m) && m.node.role == Candidate && x in ids && Crowned(ids, x, m, m')
    requires m.node.term in h'.elections
    requires h'.elections[m.node.term].leader == x && h'.elections[m.node.term].log == m.node.log.entries
    requires Ack(x, m.node.term, |m.node.log.entries|) in h'.acks
    ensures LeaderOk(ids, h', x, m'.node)
  {
    LogFacts(h, m.node);
    assert m'.node.matchIndex.Keys == ids;
  }

  lemma CrownedAcks(h: History, h': History, x: NodeId, n: NodeState)
    requires AcksOk(h) && AcksKept(h, x, n) && Grows(h, h')
    requires n.term in h'.elections && h'.elections[n.term].log == n.log.entries
    requires forall a {:trigger a in h'.acks} :: a in h'.acks && a !in h.acks ==> a.term == n.term && a.index <= |n.log.entries|
    ensures AcksKept(h', x, n)
  {
    forall a | a in h'.acks && a.node == x && a.term <= n.term && a.term in h'.elections
      ensures Agree(h'.elections[a.term].log, n.log.entries, a.index) || Missed(h', a.term, a.index, n.term)
    {
      if a in h.acks && Missed(h, a.term, a.index, n.term) {
        MissedGrows(h, h', a.term, a.index, n.term);
      }
    }
  }

  lemma CrownMember(ids: set<NodeId>, h: History, x: NodeId, m: Member, voters: set<NodeId>, m': Member)
    requires HistoryOk(ids, h) && BallotsOk(ids, h) && Winning(ids, h, x, m, voters) && Crowned(ids, x, m, m')
    ensures MemberOk(ids, AddAcks(CrownVoters(h, x, m.node, voters), x, m.node.term, |m.node.log.entries|), x, m')
  {
    var n := m.node;
    var h' := AddAcks(CrownVoters(h, x, n, voters), x, n.term, |n.log.entries|);
    CrownRecorded(ids, h, x, m, voters);
    CrownedLeader(ids, h, h', x, m, m');
    CrownedAcks(h, h', x, n);
    FromLeadersGrow(h, h', n.log.entries);
    CommittedPrefixGrows(ids, h, h', n.log.entries, n.log.entries, n.commitIndex, n.term, n.term);
    assert VoteKept(h, x, n);
  }

  lemma CrownStep(c: Cluster, h: History, x: NodeId, voters: set<NodeId>, m': Member)
    requires Inv(c, h) && x in c.members && Winning(c.members.Keys, h, x, c.members[x], voters)
    requires Crowned(c.members.Keys, x, c.members[x], m')
    ensures var n := c.members[x].node;
      var h' := AddAcks(CrownVoters(h, x, n, voters), x, n.term, |n.log.entries|);
      Inv(c.(members := c.members[x := m']), h') && Grows(h, h')
  {
    var m := c.members[x];
    var c' := c.(members := c.members[x := m']);
    var h' := AddAcks(CrownVoters(h, x, m.node, voters), x, m.node.term, |m.node.log.entries|);
    CrownRecorded(c.members.Keys, h, x, m, voters);
    CrownMember(c.members.Keys, h, x, m, voters, m');
    CrownSpares(c, h, x, voters);
    MembersStand(c, h, c', h', x, m');
    VotesStand(c, c', x, m');
    AnswersGrow(c, h, h');
    assert AnswersSent(c', h');
  }

  lemma PeerCount(ids: set<NodeId>, x: NodeId)
    requires x in ids
    ensures |ids - {x}| + 1 == |ids|
  {
  }

  lemma WinAloneStep(c: Cluster, h: History, x: NodeId)
    requires Inv(c, h) && Enabled(c, WinAlone(x))
    ensures Inv(Step(c, WinAlone(x)), Record(c, h, WinAlone(x)))
    ensures Grows(h, Record(c, h, WinAlone(x)))
  {
    hide HistoryOk, BallotsOk, ArgsOk, ApplierOk, AcksKept, CommitOk, AnswersSent, VotesSent, Fill;
    var ids, m := c.members.Keys, c.members[x];
    var m' := AfterWinAlone(m, x, Peers(c, x));
    assert MemberOk(ids, h, x, m);
    if m.node.role == Candidate && m'.node.role == Leader {
      PeerCount(ids, x);
      assert m.counted == {};
      assert Winning(ids, h, x, m, {});
      CrownStep(c, h, x, {}, m');
    } else {
      assert m' == m;
      QuietStep(c, h, x, m');
    }
  }

  lemma CountedVoter(ids: set<NodeId>, h: History, x: NodeId, m: Member, v: VoteAnswer)
    requires MemberOk(ids, h, x, m) && x == v.args.candidate && x in ids && VoteAnswerOk(ids, h, v)
    requires v.args.term == m.node.term ==> v.from !in m.counted
    requires AfterTakeVote(m, ids - {x}, v).tally.votes > m.tally.votes
    ensures var m' := AfterTakeVote(m, ids - {x}, v);
      && m.node.role == Candidate
      && (m'.node.role == Leader ==> Winning(ids, h, x, m, m'.counted) && Crowned(ids, x, m, m'))
      && (m'.node.role != Leader ==> m'.node == m.node && MemberOk(ids, h, x, m'))
  {
    PeerCount(ids, x);
    var m' := AfterTakeVote(m, ids - {x}, v);
    assert |m'.counted| == |m.counted| + 1;
  }

  /** A reply that does not make a leader: the node steps down, ignores it or
      counts one more voter. */
  lemma TakeVoteMember(ids: set<NodeId>, h: History, x: NodeId, m: Member, v: VoteAnswer)
    requires HistoryOk(ids, h) && MemberOk(ids, h, x, m) && x == v.args.candidate && x in ids && VoteAnswerOk(ids, h, v)
    requires v.args.term == m.node.term ==> v.from !in m.counted
    requires !(m.node.role == Candidate && AfterTakeVote(m, ids - {x}, v).node.role == Leader)
    ensures var m' := AfterTakeVote(m, ids - {x}, v);
      MemberOk(ids, h, x, m') && CallsStand(m, m')
  {
    var m' := AfterTakeVote(m, ids - {x}, v);
    if v.reply.term > m.node.term {
      FollowerOk(ids, h, x, m, v.reply.term, m.node.leader);
      assert m' == m.(node := BecomeFollower(m.node, v.reply.term).(leader := m.node.leader));
    } else if m'.tally.votes == m.tally.votes {
      assert m' == m;
    } else {
      CountedVoter(ids, h, x, m, v);
    }
  }

  /** Counting one reply steps down, changes nothing, adds a voter, or wins. */
  lemma TakeVoteStep(c: Cluster, h: History, v: VoteAnswer)
    requires Inv(c, h) && Enabled(c, TakeVote(v))
    ensures Inv(Step(c, TakeVote(v)), Record(c, h, TakeVote(v)))
    ensures Grows(h, Record(c, h, TakeVote(v)))
  {
    hide MemberOk, HistoryOk, BallotsOk;
    var x := v.args.candidate;
    var ids, m := c.members.Keys, c.members[x];
    var m' := AfterTakeVote(m, Peers(c, x), v);
    assert MemberOk(ids, h, x, m);
    if m.node.role == Candidate && m'.node.role == Leader {
      CountedVoter(ids, h, x, m, v);
      CrownStep(c, h, x, m'.counted, m');
    } else {
      TakeVoteMember(ids, h, x, m, v);
      QuietStep(c, h, x, m');
    }
  }
}
