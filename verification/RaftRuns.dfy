/** What every run keeps from one moment to the next, and what the departures
    of this Raft from the textbook do and do not change. */
module RaftRuns {
  import opened Options
  import opened RaftTypes
  import opened RaftLog
  import opened RaftNode
  import opened RaftCluster
  import opened RaftHistory
  import opened RaftInvariant
  import opened RaftElectionSteps
  import opened RaftReplicationSteps
  import opened RaftLeaderSteps
  import opened RaftSafety

  // ---------- Committed entries are never touched ----------

  /** `m'` is at least as far as `m` and kept all that was committed. */
  ghost predicate Onward(m: Member, m': Member) {
    && m.node.term <= m'.node.term
    && m.node.commitIndex <= m'.node.commitIndex
    && Agree(m.node.log.entries, m'.node.log.entries, m.node.commitIndex)
    && m.delivered <= m'.delivered
  }

  lemma AcceptedOnward(ids: set<NodeId>, h: History, x: NodeId, m: Member, args: AppendArgs)
    requires HistoryOk(ids, h) && MemberOk(ids, h, x, m) && ArgsOk(ids, h, x, args)
    requires HandleAppend(m.node, args).1.success
    ensures Onward(m, m.(node := HandleAppend(m.node, args).0))
  {
    AcceptedNode(m.node, args);
    HeardOk(ids, h, x, m, args);
    AcceptedMerged(ids, h, x, m, args);
    MergedCommit(ids, h, x, m.(node := Heard(m.node, args)), Accepted(m, args), args);
  }

  lemma AnswerAppendOnward(c: Cluster, h: History, msg: AppendMessage)
    requires Inv(c, h) && Enabled(c, AnswerAppend(msg))
    ensures Onward(c.members[msg.to], Step(c, AnswerAppend(msg)).members[msg.to])
  {
    hide HistoryOk, BallotsOk, LeaderOk, CandidateOk, AcksKept, VoteKept, QuorumKept, MergeEntries, ConflictHint;
    var m := c.members[msg.to];
    assert MemberOk(c.members.Keys, h, msg.to, m);
    assert CommitOk(c.members.Keys, h, m.node);
    if HandleAppend(m.node, msg.args).1.success {
      AcceptedOnward(c.members.Keys, h, msg.to, m, msg.args);
    }
  }

  ghost predicate IsElection(a: Action) {
    a.Timeout? || a.WinAlone? || a.AnswerVote? || a.TakeVote?
  }

  lemma ElectionOnward(c: Cluster, a: Action, x: NodeId)
    requires x in c.members && IsElection(a)
    requires c.members[x].node.commitIndex <= |c.members[x].node.log.entries|
    ensures Onward(c.members[x], Step(c, a).members[x])
  {
    hide Fill, LogUpToDate, VoteRequest, VoteQuorum;
  }

  lemma SenderOnward(c: Cluster, a: Action, x: NodeId)
    requires x in c.members && (a.SendAppend? || a.ProposeAt?)
    requires c.members[x].node.commitIndex <= |c.members[x].node.log.entries|
    ensures Onward(c.members[x], Step(c, a).members[x])
  {
    hide BuildAppend;
  }

  lemma TakeAppendOnward(c: Cluster, a: Action, x: NodeId)
    requires x in c.members && a.TakeAppend?
    requires c.members[x].node.commitIndex <= |c.members[x].node.log.entries|
    ensures Onward(c.members[x], Step(c, a).members[x])
  {
    hide QuorumIndex, NextAfterReject, BackUpIndex;
  }

  lemma ApplyOnward(c: Cluster, a: Action, x: NodeId)
    requires x in c.members && IsApply(a)
    requires c.members[x].node.commitIndex <= |c.members[x].node.log.entries|
    ensures Onward(c.members[x], Step(c, a).members[x])
  {
  }

  lemma StepOnward(c: Cluster, h: History, a: Action, x: NodeId)
    requires Inv(c, h) && x in c.members
    ensures Onward(c.members[x], Step(c, a).members[x])
  {
    assert MemberOk(c.members.Keys, h, x, c.members[x]);
    assert CommitOk(c.members.Keys, h, c.members[x].node);
    if a.AnswerAppend? {
      if Enabled(c, a) && x == a.message.to {
        AnswerAppendOnward(c, h, a.message);
      }
    } else if IsElection(a) {
      ElectionOnward(c, a, x);
    } else if IsApply(a) {
      ApplyOnward(c, a, x);
    } else if a.TakeAppend? {
      TakeAppendOnward(c, a, x);
    } else {
      SenderOnward(c, a, x);
    }
  }

  lemma {:induction false} OnwardChain(trace: seq<Member>, j: nat, k: nat)
    requires j <= k < |trace|
    requires trace[j].node.commitIndex <= |trace[j].node.log.entries|
    requires forall i {:trigger trace[i]} :: 0 <= i < |trace| - 1 ==> Onward(trace[i], trace[i + 1])
    ensures Onward(trace[j], trace[k])
    decreases k
  {
    if j < k {
      OnwardChain(trace, j, k - 1);
      assert Onward(trace[k - 1], trace[k - 1 + 1]);
    }
  }

  lemma OnwardAt(ids: set<NodeId>, run: seq<Action>, k: nat, x: NodeId)
    requires NOBODY !in ids && k < |run| && x in ids
    ensures Onward(MemberAt(ids, run, k, x), MemberAt(ids, run, k + 1, x))
  {
    RunInv(ids, run, k);
    StepOnward(StateAt(ids, run, k), HistoryAt(ids, run, k), run[k], x);
  }

  /** The committed prefix is never touched: commit indexes and terms never
      decrease, no entry at or below a commit index is ever truncated or
      replaced, and deliveries only get longer. */
  lemma CommittedForever(ids: set<NodeId>, run: seq<Action>, j: nat, k: nat, x: NodeId)
    requires NOBODY !in ids && j <= k <= |run| && x in ids
    ensures Onward(MemberAt(ids, run, j, x), MemberAt(ids, run, k, x))
  {
    var trace := seq(|run| + 1, i requires 0 <= i <= |run| => MemberAt(ids, run, i, x));
    forall i | 0 <= i < |trace| - 1 ensures Onward(trace[i], trace[i + 1]) {
      OnwardAt(ids, run, i, x);
    }
    CommitRecorded(ids, run, j, j, x);
    OnwardChain(trace, j, k);
  }

  // ---------- What leaders announce and believe ----------

  /** Every AppendEntries ever sent announces a commit index no further than the
      entries it carries, so a follower that bounds it by its whole log still
      commits nothing this message did not check. */
  lemma AnnouncedCommitCarried(ids: set<NodeId>, run: seq<Action>, k: nat, msg: AppendMessage)
    requires NOBODY !in ids && k <= |run| && msg in StateAt(ids, run, k).net.appends
    ensures msg.to in ids
    ensures var args, n := msg.args, MemberAt(ids, run, k, msg.to).node;
      var sent := args.prevLogIndex + |args.entries|;
      && args.leaderCommit <= sent
      && (HandleAppend(n, args).1.success ==>
            && |HandleAppend(n, args).0.log.entries| >= sent
            && HandleAppend(n, args).0.commitIndex == if args.leaderCommit > n.commitIndex then args.leaderCommit else n.commitIndex)
  {
    var h, args := HistoryAt(ids, run, k), msg.args;
    RunInv(ids, run, k);
    assert ArgsOk(ids, h, msg.to, args);
    var m := MemberAt(ids, run, k, msg.to);
    RunMember(ids, run, k, msg.to);
    if HandleAppend(m.node, args).1.success {
      AcceptedNode(m.node, args);
      AcceptedMerged(ids, h, msg.to, m, args);
      MergeOk(ids, h, msg.to, m.node, args);
    }
  }

  /** `matchIndex` is true: a peer still in the leader's term holds the leader's
      log up to it. */
  lemma MatchIndexHeld(ids: set<NodeId>, run: seq<Action>, k: nat, x: NodeId, p: NodeId)
    requires NOBODY !in ids && k <= |run| && x in ids && p in ids
    requires MemberAt(ids, run, k, x).node.role == Leader
    requires MemberAt(ids, run, k, p).node.term == MemberAt(ids, run, k, x).node.term
    ensures var n := MemberAt(ids, run, k, x).node;
      && p in n.matchIndex && n.matchIndex[p] <= |n.log.entries|
      && n.log.entries[..n.matchIndex[p]] <= LogAt(ids, run, k, p)
  {
    var h, n := HistoryAt(ids, run, k), MemberAt(ids, run, k, x).node;
    RunMember(ids, run, k, x);
    RunMember(ids, run, k, p);
    assert LeaderOk(ids, h, x, n) && MatchOk(h, ids, n);
    assert AcksKept(h, p, MemberAt(ids, run, k, p).node);
    if n.matchIndex[p] > 0 {
      assert Ack(p, n.term, n.matchIndex[p]) in h.acks;
      assert Agree(n.log.entries, LogAt(ids, run, k, p), n.matchIndex[p]);
    }
  }

  // ---------- Reading the log without the node lock ----------

  /** The log between the truncation and the append of one AppendEntries, if it
      comes to that: the two take the log lock separately. */
  function Halfway(log: Log, es: seq<Entry>): Option<Log> {
    if es == [] then None
    else
      match log.Term(es[0].index)
      case Found(t) =>
        if t != es[0].term then Some(log.TruncateAfter(es[0].index)) else Halfway(log, es[1..])
      case _ => None
  }

  /** It is the part of the log before the first conflict, and that conflict is
      there in the result. */
  lemma {:induction false} HalfwayIs(log: Log, es: seq<Entry>) returns (i: nat)
    requires log.snapIndex == 0 && Halfway(log, es).Some?
    requires forall k :: 0 <= k < |es| ==> es[k].index >= 1
    ensures i < |log.entries| && Halfway(log, es).value == log.(entries := log.entries[..i])
    ensures var merged := MergeEntries(log, es);
      && i < |merged.entries| && merged.entries[i].term != log.entries[i].term && merged.entries[..i] == log.entries[..i]
      && merged.snapIndex == 0
  {
    if log.Term(es[0].index).term != es[0].term {
      i := es[0].index - 1;
    } else {
      i := HalfwayIs(log, es[1..]);
    }
  }

  lemma SameSlice(a: Log, b: Log, from: nat, to: nat)
    requires a.snapIndex == b.snapIndex == 0 && 1 <= from && to <= |a.entries| + 1
    requires a.entries <= b.entries
    ensures a.Slice(from, to) == b.Slice(from, to)
  {
  }

  lemma SentIndexes(ids: set<NodeId>, h: History, x: NodeId, args: AppendArgs, k: nat)
    requires HistoryOk(ids, h) && ArgsOk(ids, h, x, args) && k < |args.entries|
    ensures args.entries[k].index >= 1
  {
    assert ElectionOk(ids, h, args.term);
    assert Stems(h, h.elections[args.term].log, args.prevLogIndex + k);
  }

  lemma HalfwayCommitted(ids: set<NodeId>, h: History, x: NodeId, m: Member, args: AppendArgs)
    requires HistoryOk(ids, h) && MemberOk(ids, h, x, m) && ArgsOk(ids, h, x, args)
    requires HandleAppend(m.node, args).1.success && Halfway(m.node.log, args.entries).Some?
    ensures var half, after := Halfway(m.node.log, args.entries).value, HandleAppend(m.node, args).0.log;
      && half.snapIndex == after.snapIndex == 0 && m.node.commitIndex <= |half.entries|
      && half.entries <= m.node.log.entries && half.entries <= after.entries
  {
    hide HistoryOk, ArgsOk, HandleAppend, MergeEntries, Halfway, PrevMatches;
    AcceptedOnward(ids, h, x, m, args);
    AcceptedNode(m.node, args);
    forall k | 0 <= k < |args.entries| ensures args.entries[k].index >= 1 {
      SentIndexes(ids, h, x, args, k);
    }
    assert LogOk(h, m.node);
    var i := HalfwayIs(m.node.log, args.entries);
  }

  /** The apply loop reads the log without the node lock, so it can read it while
      AppendEntries has truncated it and not yet appended. It then reads just
      what it would have read before, or after. */
  lemma ReadWhileMerging(ids: set<NodeId>, run: seq<Action>, k: nat, msg: AppendMessage)
    requires NOBODY !in ids && k <= |run| && msg in StateAt(ids, run, k).net.appends && msg.to in ids
    requires MemberAt(ids, run, k, msg.to).applier.Locked?
    requires var n := MemberAt(ids, run, k, msg.to).node;
      HandleAppend(n, msg.args).1.success && Halfway(n.log, msg.args.entries).Some?
    ensures var m := MemberAt(ids, run, k, msg.to);
      var half, from, to := Halfway(m.node.log, msg.args.entries).value, m.applier.applied + 1, m.applier.commit + 1;
      && half.Slice(from, to) == m.node.log.Slice(from, to)
      && half.Slice(from, to) == HandleAppend(m.node, msg.args).0.log.Slice(from, to)
  {
    hide HandleAppend, Halfway, HistoryAt, StateAt;
    var h, m := HistoryAt(ids, run, k), MemberAt(ids, run, k, msg.to);
    RunInv(ids, run, k);
    assert ArgsOk(ids, h, msg.to, msg.args);
    RunMember(ids, run, k, msg.to);
    HalfwayCommitted(ids, h, msg.to, m, msg.args);
    var half, from, to := Halfway(m.node.log, msg.args.entries).value, m.applier.applied + 1, m.applier.commit + 1;
    SameSlice(half, m.node.log, from, to);
    SameSlice(half, HandleAppend(m.node, msg.args).0.log, from, to);
  }

  /** The term a node reads for compacting up to `lastApplied` is still that
      entry's term at any later moment, when the log lock is taken again. */
  lemma CompactionTermStands(ids: set<NodeId>, run: seq<Action>, j: nat, k: nat, x: NodeId)
    requires NOBODY !in ids && j <= k <= |run| && x in ids
    ensures var before, after := MemberAt(ids, run, j, x).node, MemberAt(ids, run, k, x).node;
      after.log.Term(before.lastApplied) == before.log.Term(before.lastApplied) && before.log.Term(before.lastApplied).Found?
  {
    hide StateAt, HistoryAt, HistoryOk, LeaderOk, CandidateOk, AcksKept, VoteKept, QuorumKept, CommittedPrefix, ApplierOk, FromLeaders;
    DeliveryStream(ids, run, j, x);
    CommittedForever(ids, run, j, k, x);
    RunMember(ids, run, j, x);
    RunMember(ids, run, k, x);
  }

  // ---------- The two quorum sizes ----------

  /** For a cluster of any size two vote quorums meet, and a vote quorum meets a
      commit quorum, although a commit quorum is a majority only if the number
      of nodes is odd. */
  lemma QuorumArithmetic(ids: set<NodeId>, x: NodeId, votes: set<NodeId>, others: set<NodeId>)
    returns (y: NodeId)
    requires x in ids && votes <= ids && others <= ids
    requires |votes| >= VoteQuorum(ids - {x})
    requires |others| >= VoteQuorum(ids - {x}) || |others| >= CommitQuorum(ids - {x})
    ensures y in votes && y in others
    ensures 2 * VoteQuorum(ids - {x}) > |ids|
    ensures 2 * CommitQuorum(ids - {x}) > |ids| <==> |ids| % 2 == 1
  {
    PeerCount(ids, x);
    y := QuorumsMeet(ids, votes, others);
  }
}
