/** What each section of a node decides and answers, exactly and in terms of the
    entries of its log, and what that makes true of leaders in every run. */
module RaftExact {
  import opened RaftTypes
  import opened RaftLog
  import opened RaftNode
  import opened RaftCluster
  import opened RaftHistory
  import opened RaftInvariant
  import opened RaftElectionSteps
  import opened RaftSafety

  lemma PlainLog(h: History, n: NodeState)
    requires LogOk(h, n)
    ensures n.log.Plain()
  {
    forall i | 0 <= i < |n.log.entries| ensures n.log.entries[i].index == i + 1 {
      assert Stems(h, n.log.entries, i);
    }
  }

  function Max(a: nat, b: nat): nat {
    if a > b then a else b
  }

  // ---------- Voting ----------

  /** A vote is granted if and only if the term allows it, no other candidate
      has the vote, and the candidate's log `cand` is at least as up to date.
      The reply carries the greater term in every case. */
  lemma VoteGrantedIff(n: NodeState, args: VoteArgs, cand: seq<Entry>)
    requires n.log.Plain() && args.lastLogIndex == |cand| && args.lastLogTerm == LastTermOf(cand)
    ensures var (n', reply) := HandleVote(n, args);
      && (reply.granted <==>
            && (args.term > n.term || (args.term == n.term && (n.votedFor == NOBODY || n.votedFor == args.candidate)))
            && UpToDate(cand, n.log.entries))
      && reply.term == Max(args.term, n.term)
      && n' == n.(term := reply.term,
                  role := if args.term > n.term then Follower else n.role,
                  votedFor := if reply.granted then args.candidate else if args.term > n.term then NOBODY else n.votedFor)
  {
    assert n.log.LastIndex() == |n.log.entries| && n.log.LastTerm() == LastTermOf(n.log.entries);
  }

  lemma StepAt(ids: set<NodeId>, run: seq<Action>, k: nat)
    requires k < |run|
    ensures StateAt(ids, run, k + 1) == Step(StateAt(ids, run, k), run[k])
  {
  }

  /** Once a reply is taken, a candidate of that term is leader if and only if the
      voters counted make a majority together with itself. */
  lemma WinsExactly(ids: set<NodeId>, run: seq<Action>, k: nat, v: VoteAnswer)
    requires NOBODY !in ids && k < |run| && run[k] == TakeVote(v) && v.args.candidate in ids
    requires Enabled(StateAt(ids, run, k), run[k]) && v.reply.granted
    requires var n := MemberAt(ids, run, k, v.args.candidate).node;
      n.role == Candidate && n.term == v.args.term && v.reply.term <= n.term
    ensures var m, m' := MemberAt(ids, run, k, v.args.candidate), MemberAt(ids, run, k + 1, v.args.candidate);
      && v.from !in m.counted && m'.counted == m.counted + {v.from} && m'.node.term == m.node.term
      && m'.node.log == m.node.log
      && m'.node.role == (if 2 * (|m'.counted| + 1) > |ids| then Leader else Candidate)
  {
    hide Fill, StateAt, HistoryAt;
    var x := v.args.candidate;
    var m := MemberAt(ids, run, k, x);
    RunMember(ids, run, k, x);
    assert CandidateOk(ids, HistoryAt(ids, run, k), x, m);
    PeerCount(ids, x);
    StepAt(ids, run, k);
    assert |m.counted + {v.from}| == |m.counted| + 1;
  }

  /** A cluster of one elects its candidate. */
  lemma AloneWins(ids: set<NodeId>, run: seq<Action>, k: nat, x: NodeId)
    requires NOBODY !in ids && k < |run| && ids == {x} && run[k] == WinAlone(x)
    requires MemberAt(ids, run, k, x).node.role == Candidate
    ensures var n, n' := MemberAt(ids, run, k, x).node, MemberAt(ids, run, k + 1, x).node;
      n'.role == Leader && n'.term == n.term && n'.log == n.log && n'.leader == x
  {
    hide Fill, StateAt, HistoryAt;
    var m := MemberAt(ids, run, k, x);
    RunMember(ids, run, k, x);
    assert CandidateOk(ids, HistoryAt(ids, run, k), x, m);
    assert m.counted == {};
    assert Peers(StateAt(ids, run, k), x) == {};
    StepAt(ids, run, k);
  }

  /** Taking a vote reply: a newer term makes the node step down, a refusal or a
      stale reply does nothing, and a vote is counted. */
  lemma VoteReplyTaken(n: NodeState, id: NodeId, peers: set<NodeId>, term: nat, tally: Tally, reply: VoteReply)
    ensures var (n', tally') := CountVote(n, id, peers, term, tally, reply);
      && (reply.term > n.term ==> n' == n.(role := Follower, term := reply.term, votedFor := NOBODY) && tally' == tally)
      && (reply.term <= n.term && (!reply.granted || n.role != Candidate || n.term != term) ==> n' == n && tally' == tally)
      && (reply.term <= n.term && reply.granted && n.role == Candidate && n.term == term ==>
            tally'.votes == tally.votes + 1 && n'.term == n.term && n'.log == n.log && n'.votedFor == n.votedFor)
  {
    hide Fill, VoteQuorum;
  }

  /** A new leader assumes its peers have its whole log and knows of nothing they
      hold, and has all of it itself. */
  lemma LeaderStarts(n: NodeState, id: NodeId, peers: set<NodeId>)
    requires n.role == Candidate && n.log.Plain() && id !in peers
    ensures var n' := BecomeLeader(n, id, peers);
      && n'.role == Leader && n'.leader == id
      && n' == n.(role := Leader, leader := id, nextIndex := n'.nextIndex, matchIndex := n'.matchIndex)
      && n'.nextIndex.Keys == peers && n'.matchIndex.Keys == peers + {id} && n'.matchIndex[id] == |n.log.entries|
      && forall p :: p in peers ==> n'.nextIndex[p] == |n.log.entries| + 1 && n'.matchIndex[p] == 0
  {
    hide Fill;
  }

  // ---------- Appending ----------

  /** AppendEntries is accepted if and only if it is not stale and the entry
      before the ones it carries is in the log. Whoever hears it follows its
      sender, and the reply carries the greater term in every case. */
  lemma AppendAcceptedIff(n: NodeState, args: AppendArgs)
    requires n.log.Plain()
    ensures var (n', reply) := HandleAppend(n, args);
      && (reply.success <==>
            && args.term >= n.term
            && (args.prevLogIndex == 0 ||
                (args.prevLogIndex <= |n.log.entries| && n.log.entries[args.prevLogIndex - 1].term == args.prevLogTerm)))
      && reply.term == n'.term == Max(args.term, n.term)
      && (args.term < n.term ==> n' == n)
      && (args.term >= n.term ==> n'.role == Follower && n'.leader == args.leader)
      && (!reply.success ==> n'.log == n.log && n'.commitIndex == n.commitIndex)
  {
    hide MergeEntries, ConflictHint;
  }

  lemma SentFrom(log: Log, full: seq<Entry>, next: nat)
    requires Represents(log, full) && 1 <= next <= |full| + 1
    ensures log.Term(next - 1) ==
      if 1 < next <= log.snapIndex then Compacted else Found(if next == 1 then 0 else full[next - 2].term)
    ensures log.Slice(next, log.LastIndex() + 1) == if next <= log.snapIndex then [] else full[next - 1..]
  {
    TermRepresents(log, full, next - 1);
    SliceRepresents(log, full, next, |full| + 1);
    LastRepresents(log, full);
  }

  /** What a leader sends, also from a compacted log that stands for `full`: no
      request if the entry before the next one is compacted away, and otherwise
      everything from the next entry on, or nothing if that is compacted. */
  lemma RequestExact(n: NodeState, id: NodeId, peer: NodeId, full: seq<Entry>)
    requires Represents(n.log, full) && n.role == Leader && peer in n.nextIndex && 1 <= n.nextIndex[peer] <= |full| + 1
    ensures var call, next := BuildAppend(n, id, peer), n.nextIndex[peer];
      && (call.None? <==> 1 < next <= n.log.snapIndex)
      && (call.Some? ==>
            call.value == AppendArgs(n.term, id, next - 1, if next == 1 then 0 else full[next - 2].term,
                                     if next <= n.log.snapIndex then [] else full[next - 1..], n.commitIndex))
  {
    hide Represents, Log.Term, Log.Slice, Log.LastIndex;
    SentFrom(n.log, full, n.nextIndex[peer]);
  }

  /** Entries that start in the compacted part are all put behind the log. */
  lemma CompactedIsAppended(log: Log, es: seq<Entry>)
    requires es != [] && 0 < es[0].index < log.snapIndex
    ensures MergeEntries(log, es) == log.(entries := log.entries + es)
  {
  }

  /** Taking a reply: a newer term makes the leader step down, a stale reply does
      nothing, and an accepted request is recorded as far as it reached, with the
      next one starting right behind what the peer is known to have. */
  lemma ReplyTaken(n: NodeState, peers: set<NodeId>, peer: NodeId, args: AppendArgs, reply: AppendReply)
    requires peer in n.matchIndex
    ensures var n' := HandleAppendReply(n, peers, peer, args, reply);
      var reached := Max(n.matchIndex[peer], args.prevLogIndex + |args.entries|);
      && (reply.term > n.term ==> n' == n.(role := Follower, term := reply.term, votedFor := NOBODY))
      && (reply.term <= n.term && (n.role != Leader || n.term != args.term) ==> n' == n)
      && (reply.term <= n.term && n.role == Leader && n.term == args.term && reply.success ==>
            && n'.matchIndex == n.matchIndex[peer := reached] && n'.nextIndex == n.nextIndex[peer := reached + 1]
            && n' == n.(matchIndex := n'.matchIndex, nextIndex := n'.nextIndex, commitIndex := n'.commitIndex))
  {
    hide QuorumIndex, NextAfterReject;
  }

  // ---------- Committing ----------

  lemma ReachedShrinks(m: map<NodeId, nat>, i: nat, k: nat)
    requires i <= k
    ensures |ReachedBy(m, k)| <= |ReachedBy(m, i)|
  {
    CardinalityMonotone(ReachedBy(m, k), ReachedBy(m, i));
  }

  /** Half the cluster, rounded up, has reached `k`, as `s` shows, and nowhere
      beyond it. Then the commit index moves to `k` if that is forward and an
      entry of the current term; otherwise it stays. Nothing else changes. */
  lemma CommitExact(n: NodeState, peers: set<NodeId>, k: nat, s: set<NodeId>)
    requires n.log.snapIndex == 0
    requires s <= n.matchIndex.Keys && |s| >= (|peers| + 2) / 2 && forall p :: p in s ==> n.matchIndex[p] >= k
    requires forall t: set<NodeId> {:trigger |t|} ::
      t <= n.matchIndex.Keys && (forall p :: p in t ==> n.matchIndex[p] > k) ==> |t| < (|peers| + 2) / 2
    ensures AdvanceCommit(n, peers) ==
      if k > n.commitIndex && k <= |n.log.entries| && n.log.entries[k - 1].term == n.term
      then n.(commitIndex := k) else n
  {
    var q := CommitQuorum(peers);
    CardinalityMonotone(s, n.matchIndex.Keys);
    assert |n.matchIndex.Keys| == |n.matchIndex|;
    var c := QuorumIndex(n.matchIndex, q);
    CardinalityMonotone(s, ReachedBy(n.matchIndex, k));
    assert k <= c;
    assert |ReachedBy(n.matchIndex, c)| >= q;
    assert c == k;
  }

  /** With too few recorded indexes nothing is committed. */
  lemma CommitNeedsQuorum(n: NodeState, peers: set<NodeId>)
    requires |n.matchIndex| < (|peers| + 2) / 2
    ensures AdvanceCommit(n, peers) == n
  {
  }

  /** A leader has recorded its own log, and an entry of its term is committed if
      and only if a commit quorum is recorded to have it. */
  ghost predicate CommitCurrent(ids: set<NodeId>, x: NodeId, n: NodeState) {
    n.role == Leader ==>
      && x in n.matchIndex && n.matchIndex[x] == |n.log.entries|
      && forall i {:trigger ReachedBy(n.matchIndex, i)} :: 1 <= i <= |n.log.entries| && n.log.entries[i - 1].term == n.term ==>
           (i <= n.commitIndex <==> |ReachedBy(n.matchIndex, i)| >= CommitQuorum(ids - {x}))
  }

  ghost predicate TermsAscend(log: seq<Entry>, top: nat) {
    && (forall i, j :: 0 <= i <= j < |log| ==> log[i].term <= log[j].term)
    && forall i :: 0 <= i < |log| ==> log[i].term <= top
  }

  /** Before the commit index moves it is enough that what is committed is
      recorded; afterwards both directions hold. */
  lemma AdvanceExact(ids: set<NodeId>, x: NodeId, n: NodeState)
    requires x in ids && n.log.snapIndex == 0 && TermsAscend(n.log.entries, n.term)
    requires n.matchIndex.Keys == ids && n.matchIndex[x] == |n.log.entries|
    requires forall p :: p in ids ==> n.matchIndex[p] <= |n.log.entries|
    requires forall i {:trigger ReachedBy(n.matchIndex, i)} ::
      1 <= i <= |n.log.entries| && n.log.entries[i - 1].term == n.term && i <= n.commitIndex ==>
      |ReachedBy(n.matchIndex, i)| >= CommitQuorum(ids - {x})
    ensures CommitCurrent(ids, x, AdvanceCommit(n, ids - {x}))
  {
    PeerCount(ids, x);
    var q := CommitQuorum(ids - {x});
    assert |n.matchIndex.Keys| == |n.matchIndex|;
    var k := QuorumIndex(n.matchIndex, q);
    assert k <= |n.log.entries| by {
      var p :| p in ReachedBy(n.matchIndex, k);
    }
    var n' := AdvanceCommit(n, ids - {x});
    forall i | 1 <= i <= |n.log.entries| && n.log.entries[i - 1].term == n.term
      ensures i <= n'.commitIndex <==> |ReachedBy(n.matchIndex, i)| >= q
    {
      if |ReachedBy(n.matchIndex, i)| >= q {
        assert i <= k;
        assert n.log.entries[i - 1].term <= n.log.entries[k - 1].term;
      }
      if i <= k {
        ReachedShrinks(n.matchIndex, i, k);
      }
    }
  }

  /** Only counting votes makes leaders. */
  lemma AnswersLead(c: Cluster, a: Action, x: NodeId)
    requires x in c.members && c.members[x].node.role == Candidate && Step(c, a).members[x].node.role == Leader
    ensures Enabled(c, a) && ((a.WinAlone? && a.id == x) || (a.TakeVote? && a.vote.args.candidate == x))
    ensures a.TakeVote? ==>
      var m' := AfterTakeVote(c.members[x], c.members.Keys - {x}, a.vote);
      Step(c, a).members[x] == m' && m'.tally.votes > c.members[x].tally.votes
  {
    hide Fill, LogUpToDate, QuorumIndex, MergeEntries, ConflictHint, BuildAppend, NextAfterReject;
  }

  /** Who becomes leader is the first of its term. */
  lemma NewLeaderTerm(c: Cluster, h: History, a: Action, x: NodeId)
    requires Inv(c, h) && x in c.members && c.members[x].node.role == Candidate
    requires Step(c, a).members[x].node.role == Leader
    ensures c.members[x].node.term !in h.elections
    ensures Step(c, a).members[x].node == BecomeLeader(c.members[x].node, x, c.members.Keys - {x})
  {
    hide HistoryOk, BallotsOk, ArgsOk, ApplierOk, AcksKept, CommitOk, Fill, HandleVote, HandleAppend, LogUpToDate;
    var ids, m := c.members.Keys, c.members[x];
    assert MemberOk(ids, h, x, m);
    PeerCount(ids, x);
    if a.WinAlone? {
      assert m.counted == {};
      assert Winning(ids, h, x, m, {});
      NoRival(ids, h, x, m, {});
    } else {
      AnswersLead(c, a, x);
      var v := a.vote;
      CountedVoter(ids, h, x, m, v);
      NoRival(ids, h, x, m, AfterTakeVote(m, ids - {x}, v).counted);
    }
  }

  lemma StartsCurrent(ids: set<NodeId>, h: History, x: NodeId, n: NodeState)
    requires LogOk(h, n) && n.role == Candidate && n.term !in h.elections
    ensures CommitCurrent(ids, x, BecomeLeader(n, x, ids - {x}))
  {
    hide Fill;
    LogFacts(h, n);
    EarlierTerms(h, n);
  }

  lemma LeaderTables(ids: set<NodeId>, h: History, x: NodeId, n: NodeState)
    requires HistoryOk(ids, h) && LogOk(h, n) && LeaderOk(ids, h, x, n) && n.role == Leader
    ensures n.log.snapIndex == 0 && TermsAscend(n.log.entries, n.term)
    ensures n.matchIndex.Keys == ids && forall p :: p in ids ==> n.matchIndex[p] <= |n.log.entries|
  {
    forall i, j | 0 <= i <= j < |n.log.entries| ensures n.log.entries[i].term <= n.log.entries[j].term {
      TermsSorted(ids, h, n.log.entries, i, j);
    }
    forall p | p in ids ensures n.matchIndex[p] <= |n.log.entries| {
      assert n.matchIndex[p] == 0 || Ack(p, n.term, n.matchIndex[p]) in h.acks;
    }
  }

  lemma ReachedGrows(m: map<NodeId, nat>, m': map<NodeId, nat>, i: nat)
    requires m.Keys == m'.Keys && forall p :: p in m ==> m[p] <= m'[p]
    ensures |ReachedBy(m, i)| <= |ReachedBy(m', i)|
  {
    CardinalityMonotone(ReachedBy(m, i), ReachedBy(m', i));
  }

  /** A leader that records more, for the same log or a longer one, and then moves
      its commit index. */
  lemma RecordedMore(ids: set<NodeId>, h: History, x: NodeId, n: NodeState, n1: NodeState)
    requires HistoryOk(ids, h) && LogOk(h, n) && LeaderOk(ids, h, x, n) && n.role == Leader && x in ids
    requires CommitCurrent(ids, x, n) && n.commitIndex <= |n.log.entries|
    requires n1.role == Leader && n1.term == n.term && n1.commitIndex == n.commitIndex && n1.log.snapIndex == 0
    requires n.log.entries <= n1.log.entries && TermsAscend(n1.log.entries, n1.term)
    requires n1.matchIndex.Keys == ids && n1.matchIndex[x] == |n1.log.entries|
    requires forall p :: p in ids ==> n.matchIndex[p] <= n1.matchIndex[p] <= |n1.log.entries|
    ensures CommitCurrent(ids, x, AdvanceCommit(n1, ids - {x}))
  {
    hide HistoryOk, AdvanceCommit;
    LeaderTables(ids, h, x, n);
    forall i | 1 <= i <= |n1.log.entries| && n1.log.entries[i - 1].term == n1.term && i <= n1.commitIndex
      ensures |ReachedBy(n1.matchIndex, i)| >= CommitQuorum(ids - {x})
    {
      ReachedGrows(n.matchIndex, n1.matchIndex, i);
    }
    AdvanceExact(ids, x, n1);
  }

  lemma ProposeCurrent(ids: set<NodeId>, h: History, x: NodeId, n: NodeState, entry: Entry)
    requires HistoryOk(ids, h) && LogOk(h, n) && LeaderOk(ids, h, x, n) && n.role == Leader && x in ids
    requires CommitCurrent(ids, x, n) && n.commitIndex <= |n.log.entries|
    requires entry.term == n.term && entry.index == |n.log.entries| + 1
    ensures CommitCurrent(ids, x, AdvanceCommit(n.(log := n.log.Append([entry]), matchIndex := n.matchIndex[x := entry.index]), ids - {x}))
  {
    hide HistoryOk, AdvanceCommit, CommitCurrent;
    LeaderTables(ids, h, x, n);
    RecordedMore(ids, h, x, n, n.(log := n.log.Append([entry]), matchIndex := n.matchIndex[x := entry.index]));
  }

  lemma SuccessCurrent(ids: set<NodeId>, h: History, x: NodeId, n: NodeState, peer: NodeId, sent: nat)
    requires HistoryOk(ids, h) && LogOk(h, n) && LeaderOk(ids, h, x, n) && n.role == Leader && x in ids
    requires CommitCurrent(ids, x, n) && n.commitIndex <= |n.log.entries|
    requires peer in ids && peer != x && sent <= |n.log.entries|
    ensures CommitCurrent(ids, x, AdvanceCommit(Acknowledged(n, peer, sent), ids - {x}))
  {
    hide HistoryOk, AdvanceCommit, ReachedBy;
    LeaderTables(ids, h, x, n);
    RecordedMore(ids, h, x, n, Acknowledged(n, peer, sent));
  }

  lemma ReplyCurrent(ids: set<NodeId>, h: History, x: NodeId, n: NodeState, ans: AppendAnswer)
    requires HistoryOk(ids, h) && LogOk(h, n) && LeaderOk(ids, h, x, n) && x in ids && CommitCurrent(ids, x, n)
    requires n.commitIndex <= |n.log.entries| && AnswerOk(ids, h, ans) && ans.args.leader == x
    ensures CommitCurrent(ids, x, HandleAppendReply(n, ids - {x}, ans.from, ans.args, ans.reply))
  {
    hide HistoryOk, AdvanceCommit, Acknowledged, NextAfterReject;
    if n.role == Leader && n.term == ans.args.term && ans.reply.term <= n.term && ans.reply.success {
      SuccessCurrent(ids, h, x, n, ans.from, ans.args.prevLogIndex + |ans.args.entries|);
    }
  }

  /** What the other actions leave of a leader. */
  ghost predicate SameLead(n: NodeState, n': NodeState) {
    n'.role == Leader ==>
      && n.role == Leader && n'.term == n.term && n'.log == n.log
      && n'.matchIndex == n.matchIndex && n'.commitIndex == n.commitIndex
  }

  lemma VotersLead(c: Cluster, a: Action, x: NodeId)
    requires x in c.members && (a.Timeout? || a.AnswerVote?)
    ensures SameLead(c.members[x].node, Step(c, a).members[x].node)
  {
    hide LogUpToDate;
  }

  lemma CountersLead(c: Cluster, a: Action, x: NodeId)
    requires x in c.members && (a.WinAlone? || a.TakeVote?)
    requires c.members[x].node.role != Candidate || Step(c, a).members[x].node.role != Leader
    ensures SameLead(c.members[x].node, Step(c, a).members[x].node)
  {
    hide Fill, VoteQuorum;
  }

  lemma FollowersLead(c: Cluster, a: Action, x: NodeId)
    requires x in c.members && (a.SendAppend? || a.AnswerAppend?)
    ensures SameLead(c.members[x].node, Step(c, a).members[x].node)
  {
    hide MergeEntries, ConflictHint, BuildAppend, PrevMatches, FollowerCommit;
  }

  lemma AppliersLead(c: Cluster, a: Action, x: NodeId)
    requires x in c.members && (a.ReadCommit? || a.ReadEntries? || a.Deliver? || a.StopDelivery?)
    ensures SameLead(c.members[x].node, Step(c, a).members[x].node)
  {
  }

  lemma OthersLead(c: Cluster, a: Action, x: NodeId)
    requires x in c.members && !a.TakeAppend? && !a.ProposeAt?
    requires c.members[x].node.role != Candidate || Step(c, a).members[x].node.role != Leader
    ensures SameLead(c.members[x].node, Step(c, a).members[x].node)
  {
    hide Step;
    match a {
      case Timeout(_) => VotersLead(c, a, x);
      case AnswerVote(_, _) => VotersLead(c, a, x);
      case WinAlone(_) => CountersLead(c, a, x);
      case TakeVote(_) => CountersLead(c, a, x);
      case SendAppend(_, _) => FollowersLead(c, a, x);
      case AnswerAppend(_) => FollowersLead(c, a, x);
      case _ => AppliersLead(c, a, x);
    }
  }

  lemma CurrentStep(c: Cluster, h: History, a: Action, x: NodeId)
    requires Inv(c, h) && x in c.members && CommitCurrent(c.members.Keys, x, c.members[x].node)
    ensures CommitCurrent(c.members.Keys, x, Step(c, a).members[x].node)
  {
    hide HistoryOk, AdvanceCommit, HandleAppendReply, ReachedBy, BecomeLeader, CommitQuorum;
    var ids, n := c.members.Keys, c.members[x].node;
    assert MemberOk(ids, h, x, c.members[x]);
    assert CommitOk(ids, h, n);
    if n.role == Candidate && Step(c, a).members[x].node.role == Leader {
      NewLeaderTerm(c, h, a, x);
      StartsCurrent(ids, h, x, n);
    } else if a.TakeAppend? {
      if Enabled(c, a) && a.answer.args.leader == x {
        ReplyCurrent(ids, h, x, n, a.answer);
      }
    } else if a.ProposeAt? {
      if Enabled(c, a) && a.id == x && n.role == Leader {
        LogFacts(h, n);
        ProposeCurrent(ids, h, x, n, Entry(|n.log.entries| + 1, n.term, a.command));
      }
    } else {
      OthersLead(c, a, x);
    }
  }

  lemma NobodyLeads(ids: set<NodeId>, run: seq<Action>, x: NodeId)
    requires x in ids
    ensures CommitCurrent(ids, x, MemberAt(ids, run, 0, x).node)
  {
  }

  lemma {:induction false} CurrentAt(ids: set<NodeId>, run: seq<Action>, k: nat, x: NodeId)
    requires NOBODY !in ids && k <= |run| && x in ids
    ensures CommitCurrent(ids, x, MemberAt(ids, run, k, x).node)
  {
    hide Step, CommitCurrent, Inv;
    if k == 0 {
      NobodyLeads(ids, run, x);
    } else {
      CurrentAt(ids, run, k - 1, x);
      RunInv(ids, run, k - 1);
      CurrentStep(StateAt(ids, run, k - 1), HistoryAt(ids, run, k - 1), run[k - 1], x);
    }
  }

  /** In every reachable state a leader has committed an entry of its own term if
      and only if at least half of all nodes, itself included, are recorded to
      have it; and it has recorded all of its own log. */
  lemma CommitIffQuorum(ids: set<NodeId>, run: seq<Action>, k: nat, x: NodeId, i: nat)
    requires NOBODY !in ids && k <= |run| && x in ids && MemberAt(ids, run, k, x).node.role == Leader
    requires 1 <= i <= |LogAt(ids, run, k, x)|
    requires LogAt(ids, run, k, x)[i - 1].term == MemberAt(ids, run, k, x).node.term
    ensures var n := MemberAt(ids, run, k, x).node;
      && n.matchIndex.Keys == ids && n.matchIndex[x] == |n.log.entries|
      && (i <= n.commitIndex <==> 2 * |set p | p in ids && n.matchIndex[p] >= i| >= |ids|)
  {
    hide StateAt, HistoryAt;
    var n := MemberAt(ids, run, k, x).node;
    RunMember(ids, run, k, x);
    assert LeaderOk(ids, HistoryAt(ids, run, k), x, n);
    CurrentAt(ids, run, k, x);
    PeerCount(ids, x);
    assert ReachedBy(n.matchIndex, i) == set p | p in ids && n.matchIndex[p] >= i;
  }
}
