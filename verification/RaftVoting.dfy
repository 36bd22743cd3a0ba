/** A candidate that hears the leader of its own term forgets its vote and may
    vote again. Exactly when that happens, that it does happen, and that it can
    only happen once the term has a leader. */
module RaftVoting {
  import opened RaftTypes
  import opened RaftNode
  import opened RaftCluster
  import opened RaftHistory
  import opened RaftInvariant
  import opened RaftSafety
  import opened RaftRuns

  // ---------- When a vote is forgotten ----------

  ghost predicate Forgets(n: NodeState, n': NodeState) {
    n'.term == n.term && n.votedFor != NOBODY && n'.votedFor != n.votedFor
  }

  ghost predicate HeardWhileCandidate(c: Cluster, a: Action, x: NodeId)
    requires x in c.members
  {
    && a.AnswerAppend? && Enabled(c, a) && a.message.to == x
    && a.message.args.term == c.members[x].node.term
    && c.members[x].node.role == Candidate
  }

  lemma ForgetsAnswering(ids: set<NodeId>, h: History, x: NodeId, m: Member, args: AppendArgs)
    requires MemberOk(ids, h, x, m) && ArgsOk(ids, h, x, args) && NOBODY !in ids && x in ids
    ensures Forgets(m.node, HandleAppend(m.node, args).0) <==> args.term == m.node.term && m.node.role == Candidate
  {
    assert LeaderOk(ids, h, x, m.node) && CandidateOk(ids, h, x, m);
  }

  lemma ElectionsRemember(c: Cluster, a: Action, x: NodeId)
    requires x in c.members && IsElection(a)
    ensures !Forgets(c.members[x].node, Step(c, a).members[x].node)
  {
  }

  lemma OthersRemember(c: Cluster, a: Action, x: NodeId)
    requires x in c.members && !IsElection(a) && (a.AnswerAppend? ==> a.message.to != x)
    ensures !Forgets(c.members[x].node, Step(c, a).members[x].node)
  {
  }

  /** In every run, a step makes a node forget the vote of its current term if
      and only if it hears AppendEntries of that term while a candidate. */
  lemma VoteForgottenIff(ids: set<NodeId>, run: seq<Action>, k: nat, x: NodeId)
    requires NOBODY !in ids && k < |run| && x in ids
    ensures Forgets(MemberAt(ids, run, k, x).node, MemberAt(ids, run, k + 1, x).node)
       <==> HeardWhileCandidate(StateAt(ids, run, k), run[k], x)
  {
    var c, h, a := StateAt(ids, run, k), HistoryAt(ids, run, k), run[k];
    RunInv(ids, run, k);
    if a.AnswerAppend? && a.message.to == x {
      if Enabled(c, a) {
        RunMember(ids, run, k, x);
        ForgetsAnswering(ids, h, x, c.members[x], a.message.args);
      }
    } else if IsElection(a) {
      ElectionsRemember(c, a, x);
    } else {
      OthersRemember(c, a, x);
    }
  }

  // ---------- Two votes in one term need a leader ----------

  /** By moment `k`, `x` has voted for `y` in term `t`: it granted a request, or
      stood itself. */
  ghost predicate HasVoted(ids: set<NodeId>, run: seq<Action>, k: nat, x: NodeId, y: NodeId, t: nat)
    requires k <= |run| && x in ids
  {
    || (exists v :: v in StateAt(ids, run, k).net.voteAnswers && v.from == x && v.reply.granted &&
          v.args.candidate == y && v.args.term == t)
    || (y == x && exists i: nat :: i <= k && MemberAt(ids, run, i, x).node.role == Candidate && MemberAt(ids, run, i, x).node.term == t)
  }

  lemma VoteRecorded(ids: set<NodeId>, run: seq<Action>, k: nat, x: NodeId, y: NodeId, t: nat)
    requires NOBODY !in ids && k <= |run| && x in ids && HasVoted(ids, run, k, x, y, t)
    ensures Ballot(x, y, t) in HistoryAt(ids, run, k).votes
  {
    var h := HistoryAt(ids, run, k);
    RunInv(ids, run, k);
    if v :| v in StateAt(ids, run, k).net.voteAnswers && v.from == x && v.reply.granted &&
            v.args.candidate == y && v.args.term == t {
      assert VoteAnswerOk(ids, h, v);
    } else {
      var i: nat :| i <= k && MemberAt(ids, run, i, x).node.role == Candidate && MemberAt(ids, run, i, x).node.term == t;
      RunMember(ids, run, i, x);
      assert CandidateOk(ids, HistoryAt(ids, run, i), x, MemberAt(ids, run, i, x));
      RunGrows(ids, run, i, k);
    }
  }

  lemma NewElectionHasLeader(c: Cluster, h: History, a: Action, t: nat) returns (y: NodeId)
    requires Inv(c, h) && t !in h.elections && t in Record(c, h, a).elections
    ensures y in c.members && Step(c, a).members[y].node.role == Leader && Step(c, a).members[y].node.term == t
  {
    y := if a.WinAlone? then a.id else a.vote.args.candidate;
  }

  /** A term on record was led by somebody at some moment. */
  lemma {:induction false} ElectionHappened(ids: set<NodeId>, run: seq<Action>, k: nat, t: nat) returns (j: nat, y: NodeId)
    requires NOBODY !in ids && k <= |run| && t in HistoryAt(ids, run, k).elections
    ensures j <= k && y in ids && MemberAt(ids, run, j, y).node.role == Leader && MemberAt(ids, run, j, y).node.term == t
    decreases k
  {
    if t in HistoryAt(ids, run, k - 1).elections {
      j, y := ElectionHappened(ids, run, k - 1, t);
    } else {
      RunInv(ids, run, k - 1);
      j := k;
      y := NewElectionHasLeader(StateAt(ids, run, k - 1), HistoryAt(ids, run, k - 1), run[k - 1], t);
    }
  }

  /** A node votes for two candidates in one term only if that term already has,
      or had, a leader. */
  lemma SecondVoteNeedsLeader(ids: set<NodeId>, run: seq<Action>, k: nat, x: NodeId, y: NodeId, z: NodeId, t: nat)
    returns (j: nat, leader: NodeId)
    requires NOBODY !in ids && k <= |run| && x in ids && y != z
    requires HasVoted(ids, run, k, x, y, t) && HasVoted(ids, run, k, x, z, t)
    ensures j <= k && leader in ids
    ensures MemberAt(ids, run, j, leader).node.role == Leader && MemberAt(ids, run, j, leader).node.term == t
  {
    VoteRecorded(ids, run, k, x, y, t);
    VoteRecorded(ids, run, k, x, z, t);
    RunInv(ids, run, k);
    j, leader := ElectionHappened(ids, run, k, t);
  }

  // ---------- Two votes in one term need forgetting ----------

  /** All votes of `x` in term `t` are for one candidate, who is `votedFor` while
      that term lasts. */
  ghost predicate OneChoice(h: History, x: NodeId, n: NodeState, t: nat) {
    && (forall a, b :: a in h.votes && b in h.votes && a.voter == b.voter == x && a.term == b.term == t ==> a.candidate == b.candidate)
    && (n.term == t ==>
          forall b {:trigger b in h.votes} :: b in h.votes && b.voter == x && b.term == t ==> b.candidate == n.votedFor)
  }

  /** A new vote is the node's new `votedFor`, in its new term. */
  lemma NewVote(c: Cluster, h: History, a: Action, x: NodeId, b: Ballot)
    requires x in c.members && b in Record(c, h, a).votes && b !in h.votes && b.voter == x
    ensures var n' := Step(c, a).members[x].node; b.term == n'.term && b.candidate == n'.votedFor
  {
  }

  lemma OneChoiceStep(c: Cluster, h: History, a: Action, x: NodeId, t: nat)
    requires Inv(c, h) && x in c.members && OneChoice(h, x, c.members[x].node, t)
    requires c.members[x].node.term == t ==> !Forgets(c.members[x].node, Step(c, a).members[x].node)
    ensures OneChoice(Record(c, h, a), x, Step(c, a).members[x].node, t)
  {
    hide Step, Record;
    var n, n', h' := c.members[x].node, Step(c, a).members[x].node, Record(c, h, a);
    StepOnward(c, h, a, x);
    assert MemberOk(c.members.Keys, h, x, c.members[x]);
    forall b | b in h'.votes && b.voter == x && b.term == t
      ensures b in h.votes || (n'.term == t && b.candidate == n'.votedFor)
      ensures b in h.votes && n'.term == t ==> b.candidate == n'.votedFor
    {
      if b !in h.votes {
        NewVote(c, h, a, x, b);
      } else {
        assert BallotOk(c.members.Keys, h, b);
      }
    }
  }

  /** While `x` is in term `t`, step `j` is AppendEntries reaching it as a candidate. */
  ghost predicate ForgetsAt(ids: set<NodeId>, run: seq<Action>, j: nat, x: NodeId, t: nat)
    requires j < |run| && x in ids
  {
    MemberAt(ids, run, j, x).node.term == t && HeardWhileCandidate(StateAt(ids, run, j), run[j], x)
  }

  lemma NoVotesYet(x: NodeId, n: NodeState, t: nat)
    ensures OneChoice(NO_HISTORY, x, n, t)
  {
  }

  lemma {:induction false} OneChoiceAt(ids: set<NodeId>, run: seq<Action>, k: nat, x: NodeId, t: nat)
    requires NOBODY !in ids && k <= |run| && x in ids
    requires forall j :: 0 <= j < k ==> !ForgetsAt(ids, run, j, x, t)
    ensures OneChoice(HistoryAt(ids, run, k), x, MemberAt(ids, run, k, x).node, t)
  {
    hide Step, Record, HeardWhileCandidate, Forgets, Inv, OneChoice, Initial;
    if k == 0 {
      NoVotesYet(x, MemberAt(ids, run, 0, x).node, t);
    } else {
      OneChoiceAt(ids, run, k - 1, x, t);
      RunInv(ids, run, k - 1);
      VoteForgottenIff(ids, run, k - 1, x);
      assert !ForgetsAt(ids, run, k - 1, x, t);
      OneChoiceStep(StateAt(ids, run, k - 1), HistoryAt(ids, run, k - 1), run[k - 1], x, t);
    }
  }

  /** A node votes for two candidates in one term only if it forgot a vote of that
      term: some earlier AppendEntries of the term reached it as a candidate.
      Without such a step it votes at most once in the term. */
  lemma SecondVoteNeedsForgetting(ids: set<NodeId>, run: seq<Action>, k: nat, x: NodeId, y: NodeId, z: NodeId, t: nat)
    returns (j: nat)
    requires NOBODY !in ids && k <= |run| && x in ids && y != z
    requires HasVoted(ids, run, k, x, y, t) && HasVoted(ids, run, k, x, z, t)
    ensures j < k && ForgetsAt(ids, run, j, x, t)
  {
    hide HasVoted, ForgetsAt, HistoryAt;
    VoteRecorded(ids, run, k, x, y, t);
    VoteRecorded(ids, run, k, x, z, t);
    if i: nat :| i < k && ForgetsAt(ids, run, i, x, t) {
      j := i;
    } else {
      OneChoiceAt(ids, run, k, x, t);
      assert false;
    }
  }

  // ---------- It does happen ----------

  const A: NodeId := "a"
  const B: NodeId := "b"
  const C: NodeId := "c"
  const CALL: VoteArgs := VoteArgs(1, A, 0, 0)
  const GRANT: VoteAnswer := VoteAnswer(B, CALL, VoteReply(1, true))
  const HEARTBEAT: AppendMessage := AppendMessage(C, AppendArgs(1, A, 0, 0, [], 0))

  /** a and c both stand in term 1; b makes a the leader; a's heartbeat makes c
      step down; a's delayed vote request then reaches c. */
  const REVOTE: seq<Action> :=
    [Timeout(A), Timeout(C), AnswerVote(B, CALL), TakeVote(GRANT), SendAppend(A, C), AnswerAppend(HEARTBEAT), AnswerVote(C, CALL)]

  const ALL: set<NodeId> := {A, B, C}
  const STANDING: NodeState := FRESH.(term := 1, role := Candidate)

  lemma BothStand()
    ensures var c := StateAt(ALL, REVOTE, 2);
      && c.members[A] == Member(STANDING.(votedFor := A), Tally(1, false), {}, Idle, [])
      && c.members[B].node == FRESH
      && c.members[C].node == STANDING.(votedFor := C)
      && CALL in c.net.voteCalls
  {
    var c0 := StateAt(ALL, REVOTE, 0);
    assert c0.members[A].node == c0.members[B].node == c0.members[C].node == FRESH;
    var c1 := StateAt(ALL, REVOTE, 1);
    assert c1 == Step(c0, Timeout(A));
    assert c1.members[C].node == FRESH;
    assert StateAt(ALL, REVOTE, 2) == Step(c1, Timeout(C));
  }

  lemma OneIsGranted()
    ensures var c := StateAt(ALL, REVOTE, 3);
      && c.members[A] == Member(STANDING.(votedFor := A), Tally(1, false), {}, Idle, [])
      && c.members[C].node == STANDING.(votedFor := C)
      && CALL in c.net.voteCalls && GRANT in c.net.voteAnswers
  {
    BothStand();
    assert StateAt(ALL, REVOTE, 3) == Step(StateAt(ALL, REVOTE, 2), AnswerVote(B, CALL));
    assert HandleVote(FRESH, CALL).1 == VoteReply(1, true);
  }

  lemma OneWins()
    ensures var c := StateAt(ALL, REVOTE, 4);
      && c.members[A].node == BecomeLeader(STANDING.(votedFor := A), A, {B, C})
      && c.members[C].node == STANDING.(votedFor := C)
      && CALL in c.net.voteCalls
  {
    hide HandleVote, HandleAppend, HandleAppendReply, BuildAppend, Propose, StartElection, Fill;
    OneIsGranted();
    var c3 := StateAt(ALL, REVOTE, 3);
    assert Peers(c3, A) == {B, C} && VoteQuorum({B, C}) == 2;
    assert StateAt(ALL, REVOTE, 4) == Step(c3, TakeVote(GRANT));
  }

  lemma OtherStepsDown()
    ensures var c := StateAt(ALL, REVOTE, 6);
      && c.members[C].node == FRESH.(term := 1, leader := A)
      && CALL in c.net.voteCalls
  {
    hide HandleVote, HandleAppendReply, Propose, StartElection, CountVote, ElectAlone, Fill;
    OneWins();
    var c4, c5 := StateAt(ALL, REVOTE, 4), StateAt(ALL, REVOTE, 5);
    assert c5 == Step(c4, SendAppend(A, C));
    assert HEARTBEAT in c5.net.appends;
    assert StateAt(ALL, REVOTE, 6) == Step(c5, AnswerAppend(HEARTBEAT));
  }

  /** In this run c votes for itself and for a, both in term 1. */
  lemma VotesTwiceInOneTerm()
    ensures HasVoted(ALL, REVOTE, |REVOTE|, C, C, 1) && HasVoted(ALL, REVOTE, |REVOTE|, C, A, 1)
  {
    BothStand();
    assert MemberAt(ALL, REVOTE, 2, C).node.role == Candidate && MemberAt(ALL, REVOTE, 2, C).node.term == 1;
    OtherStepsDown();
    var c6 := StateAt(ALL, REVOTE, 6);
    assert StateAt(ALL, REVOTE, 7) == Step(c6, AnswerVote(C, CALL));
    assert VoteAnswer(C, CALL, VoteReply(1, true)) in StateAt(ALL, REVOTE, 7).net.voteAnswers;
  }
}
