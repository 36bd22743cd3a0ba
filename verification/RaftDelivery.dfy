/** The apply loop over whole passes: what it takes in, and that a pass nobody
    stops ends with everything delivered that was committed when it began. */
module RaftDelivery {
  import opened RaftTypes
  import opened RaftNode
  import opened RaftCluster
  import opened RaftInvariant
  import opened RaftLeaderSteps
  import opened RaftExact
  import opened RaftSafety

  /** A pass begins whenever something committed is not applied yet. */
  lemma PassStarts(ids: set<NodeId>, run: seq<Action>, k: nat, x: NodeId)
    requires k < |run| && x in ids && run[k] == ReadCommit(x) && MemberAt(ids, run, k, x).applier.Idle?
    ensures var m := MemberAt(ids, run, k, x);
      MemberAt(ids, run, k + 1, x) == m.(applier :=
        if m.node.lastApplied < m.node.commitIndex then Locked(m.node.commitIndex, m.node.lastApplied) else Idle)
  {
    hide StateAt;
    StepAt(ids, run, k);
  }

  /** It takes in all that is committed and not yet delivered. */
  lemma PassReads(ids: set<NodeId>, run: seq<Action>, k: nat, x: NodeId)
    requires NOBODY !in ids && k < |run| && x in ids && run[k] == ReadEntries(x) && MemberAt(ids, run, k, x).applier.Locked?
    ensures var m, m' := MemberAt(ids, run, k, x), MemberAt(ids, run, k + 1, x);
      && m'.applier.Sending? && m' == m.(applier := m'.applier) && m.applier.commit <= |m.node.log.entries|
      && m.delivered + m'.applier.rest == m.node.log.entries[..m.applier.commit]
  {
    hide StateAt, HistoryAt;
    var h, m := HistoryAt(ids, run, k), MemberAt(ids, run, k, x);
    RunMember(ids, run, k, x);
    StepAt(ids, run, k);
    assert CommitOk(ids, h, m.node) && ApplierOk(m);
    PlainLog(h, m.node);
    assert MemberAt(ids, run, k + 1, x).applier.rest == m.node.log.entries[m.applier.applied..m.applier.commit];
  }

  /** It delivers one entry after the other, and ends when none is left. */
  lemma PassDelivers(ids: set<NodeId>, run: seq<Action>, k: nat, x: NodeId)
    requires NOBODY !in ids && k < |run| && x in ids && run[k] == Deliver(x) && MemberAt(ids, run, k, x).applier.Sending?
    ensures var m, m' := MemberAt(ids, run, k, x), MemberAt(ids, run, k + 1, x);
      var rest := m.applier.rest;
      && m'.node == m.node.(lastApplied := |m'.delivered|)
      && (rest != [] ==> m' == m.(applier := Sending(rest[1..]), delivered := m.delivered + [rest[0]], node := m'.node))
      && (rest == [] ==> m' == m.(applier := if |m.node.log.entries| < 10_000 then Idle else m.applier))
  {
    hide StateAt, HistoryAt;
    var h, m := HistoryAt(ids, run, k), MemberAt(ids, run, k, x);
    RunMember(ids, run, k, x);
    StepAt(ids, run, k);
    assert ApplierOk(m);
    var rest := m.applier.rest;
    if rest != [] {
      assert (m.delivered + rest)[|m.delivered|] == rest[0] == m.node.log.entries[|m.delivered|];
      PlainLog(h, m.node);
    }
  }

  // ---------- Nobody else touches the loop ----------

  ghost predicate SameLoop(m: Member, m': Member) {
    m'.applier == m.applier && m'.delivered == m.delivered && m'.node.lastApplied == m.node.lastApplied
  }

  lemma ElectionLoop(c: Cluster, a: Action, x: NodeId)
    requires x in c.members && (a.Timeout? || a.WinAlone? || a.AnswerVote? || a.TakeVote?)
    ensures SameLoop(c.members[x], Step(c, a).members[x])
  {
    hide Fill, LogUpToDate, VoteQuorum;
  }

  lemma ReplyLoop(n: NodeState, peers: set<NodeId>, ans: AppendAnswer)
    ensures HandleAppendReply(n, peers, ans.from, ans.args, ans.reply).lastApplied == n.lastApplied
  {
    hide QuorumIndex, NextAfterReject;
  }

  lemma AppendLoop(c: Cluster, a: Action, x: NodeId)
    requires x in c.members && (a.SendAppend? || a.AnswerAppend? || a.TakeAppend? || a.ProposeAt?)
    ensures SameLoop(c.members[x], Step(c, a).members[x])
  {
    hide BuildAppend, MergeEntries, ConflictHint, PrevMatches, FollowerCommit, NextAfterReject, QuorumIndex, Acknowledged;
    if a.TakeAppend? && Enabled(c, a) {
      ReplyLoop(c.members[a.answer.args.leader].node, Peers(c, a.answer.args.leader), a.answer);
    } else {
      hide HandleAppendReply;
    }
  }

  lemma AppliersLoop(c: Cluster, a: Action, x: NodeId)
    requires x in c.members && IsApply(a) && a.id != x
    ensures SameLoop(c.members[x], Step(c, a).members[x])
  {
  }

  lemma OthersLoop(c: Cluster, a: Action, x: NodeId)
    requires x in c.members && !(IsApply(a) && a.id == x)
    ensures SameLoop(c.members[x], Step(c, a).members[x])
  {
    hide Step;
    match a {
      case Timeout(_) => ElectionLoop(c, a, x);
      case WinAlone(_) => ElectionLoop(c, a, x);
      case AnswerVote(_, _) => ElectionLoop(c, a, x);
      case TakeVote(_) => ElectionLoop(c, a, x);
      case SendAppend(_, _) => AppendLoop(c, a, x);
      case AnswerAppend(_) => AppendLoop(c, a, x);
      case TakeAppend(_) => AppendLoop(c, a, x);
      case ProposeAt(_, _) => AppendLoop(c, a, x);
      case _ => AppliersLoop(c, a, x);
    }
  }

  // ---------- Whole passes ----------

  /** What the node's own loop can do in the middle of a pass. */
  lemma SendingStep(ids: set<NodeId>, run: seq<Action>, k: nat, x: NodeId)
    requires NOBODY !in ids && k < |run| && x in ids && IsApply(run[k]) && run[k].id == x
    requires MemberAt(ids, run, k, x).applier.Sending?
    ensures var m, m' := MemberAt(ids, run, k, x), MemberAt(ids, run, k + 1, x);
      var rest := m.applier.rest;
      && (run[k].Deliver? && rest != [] ==> m'.delivered == m.delivered + [rest[0]] && m'.applier == Sending(rest[1..]))
      && (run[k].Deliver? && rest == [] ==> m'.delivered == m.delivered && m'.applier in {m.applier, Idle})
      && (!run[k].Deliver? ==>
            m'.delivered == m.delivered && (m'.applier == m.applier || (run[k].StopDelivery? && m'.applier.Idle?)))
  {
    hide StateAt;
    StepAt(ids, run, k);
  }

  /** While a pass goes on, what it has delivered and what is left stay the same
      together. */
  lemma {:induction false} PassHolds(ids: set<NodeId>, run: seq<Action>, j: nat, k: nat, x: NodeId)
    requires NOBODY !in ids && j < k <= |run| && x in ids
    requires forall i :: j < i <= k ==> MemberAt(ids, run, i, x).applier.Sending?
    ensures var m, m' := MemberAt(ids, run, j + 1, x), MemberAt(ids, run, k, x);
      m'.delivered + m'.applier.rest == m.delivered + m.applier.rest
    decreases k
  {
    hide StateAt, Step;
    if j + 1 < k {
      PassHolds(ids, run, j, k - 1, x);
      var m, m', a := MemberAt(ids, run, k - 1, x), MemberAt(ids, run, k, x), run[k - 1];
      StepAt(ids, run, k - 1);
      if IsApply(a) && a.id == x {
        SendingStep(ids, run, k - 1, x);
        if a.Deliver? && m.applier.rest != [] {
          assert m.delivered + [m.applier.rest[0]] + m.applier.rest[1..] == m.delivered + m.applier.rest;
        }
      } else {
        OthersLoop(StateAt(ids, run, k - 1), a, x);
      }
    }
  }

  /** A pass that nobody stops ends with everything delivered that was committed
      when it began: exactly the log up to that index. */
  lemma PassCompletes(ids: set<NodeId>, run: seq<Action>, j: nat, k: nat, x: NodeId)
    requires NOBODY !in ids && j + 1 < k <= |run| && x in ids
    requires MemberAt(ids, run, j, x).applier.Locked? && run[j] == ReadEntries(x)
    requires forall i :: j < i < k ==> MemberAt(ids, run, i, x).applier.Sending?
    requires MemberAt(ids, run, k, x).applier.Idle? && run[k - 1] != StopDelivery(x)
    ensures var m, commit := MemberAt(ids, run, k, x), MemberAt(ids, run, j, x).applier.commit;
      && |m.delivered| == m.node.lastApplied == commit <= |m.node.log.entries|
      && m.delivered == m.node.log.entries[..commit]
  {
    hide StateAt, Step;
    PassReads(ids, run, j, x);
    PassHolds(ids, run, j, k - 1, x);
    var m, a := MemberAt(ids, run, k - 1, x), run[k - 1];
    StepAt(ids, run, k - 1);
    if IsApply(a) && a.id == x {
      SendingStep(ids, run, k - 1, x);
    } else {
      OthersLoop(StateAt(ids, run, k - 1), a, x);
    }
    DeliveryStream(ids, run, k, x);
  }
}
