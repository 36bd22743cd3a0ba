/** No reachable state is stuck: from each of them, any majority can by itself
    elect a leader, commit a command and deliver it everywhere in the majority. */
module RaftProgress {
  import opened Bytes
  import opened Options
  import opened RaftTypes
  import opened RaftNode
  import opened RaftCluster
  import opened RaftHistory
  import opened RaftInvariant
  import opened RaftElectionSteps
  import opened RaftReplicationSteps
  import opened RaftLeaderSteps
  import opened RaftSafety
  import opened RaftBackup
  import opened RaftExact
  import opened RaftDelivery

  // ---------- Continuing a run ----------

  /** The state a run leads to. */
  ghost function Now(ids: set<NodeId>, run: seq<Action>): (c: Cluster)
    ensures c.members.Keys == ids
  {
    StateAt(ids, run, |run|)
  }

  ghost function Who(ids: set<NodeId>, run: seq<Action>, x: NodeId): Member
    requires x in ids
  {
    Now(ids, run).members[x]
  }

  lemma {:induction false} SamePrefix(ids: set<NodeId>, run: seq<Action>, run': seq<Action>, k: nat)
    requires k <= |run| && k <= |run'| && run[..k] == run'[..k]
    ensures StateAt(ids, run, k) == StateAt(ids, run', k)
  {
    hide Step;
    if k > 0 {
      assert run[..k - 1] == run[..k][..k - 1] == run'[..k - 1];
      assert run[k - 1] == run[..k][k - 1] == run'[..k][k - 1] == run'[k - 1];
      SamePrefix(ids, run, run', k - 1);
    }
  }

  lemma NowStep(ids: set<NodeId>, run: seq<Action>, a: Action)
    ensures Now(ids, run + [a]) == Step(Now(ids, run), a)
    ensures StateAt(ids, run + [a], |run|) == Now(ids, run)
  {
    hide Step;
    var longer := run + [a];
    assert longer[..|run|] == run == run[..|run|];
    SamePrefix(ids, run, longer, |run|);
    assert longer[|longer| - 1] == a;
  }

  lemma NowOk(ids: set<NodeId>, run: seq<Action>, x: NodeId)
    requires NOBODY !in ids && x in ids
    ensures HistoryOk(ids, HistoryAt(ids, run, |run|))
    ensures MemberOk(ids, HistoryAt(ids, run, |run|), x, Who(ids, run, x))
    ensures Who(ids, run, x).node.commitIndex <= |Who(ids, run, x).node.log.entries|
  {
    hide StateAt, HistoryAt;
    RunMember(ids, run, |run|, x);
    assert CommitOk(ids, HistoryAt(ids, run, |run|), Who(ids, run, x).node);
  }

  /** `run'` goes on from `run`, and only nodes in `s` take part in it. */
  ghost predicate Continues(ids: set<NodeId>, run: seq<Action>, run': seq<Action>, s: set<NodeId>) {
    && run <= run'
    && forall z {:trigger Who(ids, run', z)} :: z in ids && z !in s ==> Who(ids, run', z) == Who(ids, run, z)
  }

  lemma Chained(ids: set<NodeId>, a: seq<Action>, b: seq<Action>, c: seq<Action>, s: set<NodeId>, t: set<NodeId>, u: set<NodeId>)
    requires Continues(ids, a, b, s) && Continues(ids, b, c, t) && s <= u && t <= u
    ensures Continues(ids, a, c, u)
  {
    hide Who;
    forall z | z in ids && z !in u ensures Who(ids, c, z) == Who(ids, a, z) {
      assert Who(ids, c, z) == Who(ids, b, z);
    }
  }

  // ---------- One exchange of AppendEntries ----------

  lemma SendStep(c: Cluster, x: NodeId, p: NodeId, args: AppendArgs)
    requires x in c.members && p in c.members && p != x && BuildAppend(c.members[x].node, x, p) == Some(args)
    ensures Step(c, SendAppend(x, p)) == c.(net := c.net.(appends := c.net.appends + {AppendMessage(p, args)}))
  {
    hide BuildAppend;
  }

  lemma AnswerStep(c: Cluster, msg: AppendMessage)
    requires msg in c.net.appends && msg.to in c.members
    ensures var (node, reply) := HandleAppend(c.members[msg.to].node, msg.args);
      Step(c, AnswerAppend(msg)) ==
      Cluster(c.members[msg.to := c.members[msg.to].(node := node)],
              c.net.(appendAnswers := c.net.appendAnswers + {AppendAnswer(msg.to, msg.args, reply)}))
  {
    hide HandleAppend;
  }

  lemma TakeStep(c: Cluster, ans: AppendAnswer)
    requires ans in c.net.appendAnswers && ans.args.leader in c.members
    ensures var x := ans.args.leader;
      Step(c, TakeAppend(ans)) ==
      c.(members := c.members[x := c.members[x].(
           node := HandleAppendReply(c.members[x].node, c.members.Keys - {x}, ans.from, ans.args, ans.reply))])
  {
    hide HandleAppendReply;
  }

  /** One exchange between a leader and a peer, as three actions. */
  lemma ExchangeRun(ids: set<NodeId>, run: seq<Action>, x: NodeId, p: NodeId) returns (run': seq<Action>)
    requires NOBODY !in ids && x in ids && p in ids && x != p && Who(ids, run, x).node.role == Leader
    ensures Continues(ids, run, run', {x, p})
    ensures var (n', f', _) := Exchange(Who(ids, run, x).node, x, ids - {x}, p, Who(ids, run, p).node);
      && Who(ids, run', x) == Who(ids, run, x).(node := n')
      && Who(ids, run', p) == Who(ids, run, p).(node := f')
  {
    hide Step, StateAt, HistoryAt, HandleAppend, HandleAppendReply, MemberOk, ArgsOk;
    var c, n, f := Now(ids, run), Who(ids, run, x).node, Who(ids, run, p).node;
    NowOk(ids, run, x);
    SentArgs(ids, HistoryAt(ids, run, |run|), x, Who(ids, run, x), p);
    var args := BuildAppend(n, x, p).value;
    var msg, ans := AppendMessage(p, args), AppendAnswer(p, args, HandleAppend(f, args).1);
    var a, b, d := SendAppend(x, p), AnswerAppend(msg), TakeAppend(ans);
    NowStep(ids, run, a);
    SendStep(c, x, p, args);
    NowStep(ids, run + [a], b);
    AnswerStep(Now(ids, run + [a]), msg);
    NowStep(ids, run + [a] + [b], d);
    TakeStep(Now(ids, run + [a] + [b]), ans);
    run' := run + [a] + [b] + [d];
  }

  // ---------- Catching up ----------

  /** The leader and the peer after an exchange that was accepted. */
  ghost predicate CaughtUp(n: NodeState, f: NodeState, p: NodeId, n': NodeState, f': NodeState) {
    && n'.role == Leader && n'.term == n.term && n'.log == n.log && n'.commitIndex >= n.commitIndex
    && n'.matchIndex == n.matchIndex[p := |n.log.entries|]
    && f'.term == n.term && n.log.entries <= f'.log.entries && f'.commitIndex >= n.commitIndex
    && |f'.log.entries| <= Max(|f.log.entries|, |n.log.entries|)
  }

  lemma AcceptedFollower(ids: set<NodeId>, h: History, p: NodeId, f: Member, args: AppendArgs, log: seq<Entry>)
    requires HistoryOk(ids, h) && MemberOk(ids, h, p, f) && ArgsOk(ids, h, p, args) && HandleAppend(f.node, args).1.success
    requires h.elections[args.term].log == log && args.prevLogIndex + |args.entries| == |log|
    ensures var f' := HandleAppend(f.node, args).0;
      && f'.term == args.term && log <= f'.log.entries && f'.commitIndex >= args.leaderCommit
      && |f'.log.entries| <= Max(|f.node.log.entries|, |log|)
  {
    hide HistoryOk, MergeEntries, LeaderOk, CandidateOk, AcksKept, CommitOk, ApplierOk, VoteKept, QuorumKept;
    AcceptedNode(f.node, args);
    MergeOk(ids, h, p, f.node, args);
  }

  lemma CommitForward(n: NodeState, peers: set<NodeId>, p: NodeId, args: AppendArgs, reply: AppendReply)
    ensures HandleAppendReply(n, peers, p, args, reply).commitIndex >= n.commitIndex
  {
    hide QuorumIndex, NextAfterReject;
  }

  lemma AcceptedExchange(ids: set<NodeId>, h: History, x: NodeId, m: Member, p: NodeId, f: Member)
    requires HistoryOk(ids, h) && MemberOk(ids, h, x, m) && MemberOk(ids, h, p, f) && x in ids && p in ids && x != p
    requires m.node.role == Leader && f.node.term <= m.node.term
    requires p in m.node.nextIndex && m.node.nextIndex[p] <= CommonPrefix(m.node.log.entries, f.node.log.entries) + 1
    ensures var (n', f', _) := Exchange(m.node, x, ids - {x}, p, f.node);
      CaughtUp(m.node, f.node, p, n', f')
  {
    hide HistoryOk, HandleAppend, HandleAppendReply, CommonPrefix, AcksKept, CommitOk, ApplierOk, VoteKept, QuorumKept, CandidateOk;
    var n := m.node;
    assert LeaderOk(ids, h, x, n) && NextOk(ids, x, n);
    LeaderTables(ids, h, x, n);
    assert Probing(ids, h, x, n, p, f.node);
    ProbeSent(ids, h, x, n, p, f.node);
    SentArgs(ids, h, x, m, p);
    var args := BuildAppend(n, x, p).value;
    AcceptedFollower(ids, h, p, f, args, n.log.entries);
    PlainLog(h, f.node);
    AppendAcceptedIff(f.node, args);
    ReplyTaken(n, ids - {x}, p, args, HandleAppend(f.node, args).1);
    CommitForward(n, ids - {x}, p, args, HandleAppend(f.node, args).1);
  }

  /** Any leader can bring any peer that is not ahead of it in term up to date. */
  lemma {:induction false} CatchUp(ids: set<NodeId>, run: seq<Action>, x: NodeId, p: NodeId) returns (run': seq<Action>)
    requires NOBODY !in ids && x in ids && p in ids && x != p
    requires Who(ids, run, x).node.role == Leader && Who(ids, run, p).node.term <= Who(ids, run, x).node.term
    ensures Continues(ids, run, run', {x, p})
    ensures CaughtUp(Who(ids, run, x).node, Who(ids, run, p).node, p, Who(ids, run', x).node, Who(ids, run', p).node)
    decreases Lookup(Who(ids, run, x).node.nextIndex, p)
  {
    hide Now, HistoryAt, Exchange, HistoryOk, CommonPrefix;
    var h, m, f := HistoryAt(ids, run, |run|), Who(ids, run, x), Who(ids, run, p);
    NowOk(ids, run, x);
    NowOk(ids, run, p);
    assert LeaderOk(ids, h, x, m.node) && NextOk(ids, x, m.node) && p in m.node.nextIndex;
    run' := ExchangeRun(ids, run, x, p);
    if m.node.nextIndex[p] <= CommonPrefix(m.node.log.entries, f.node.log.entries) + 1 {
      AcceptedExchange(ids, h, x, m, p, f);
    } else {
      assert Probing(ids, h, x, m.node, p, f.node);
      ProbeRejected(ids, h, x, m.node, p, f.node);
      var run1 := run';
      run' := CatchUp(ids, run1, x, p);
      Chained(ids, run, run1, run', {x, p}, {x, p}, {x, p});
    }
  }

  /** The leader after bringing `s` up to date, and each of them. */
  ghost predicate AllCaughtUp(ids: set<NodeId>, run: seq<Action>, x: NodeId, s: set<NodeId>, run': seq<Action>)
    requires x in ids && s <= ids
  {
    var n, n' := Who(ids, run, x).node, Who(ids, run', x).node;
    && n'.role == Leader && n'.term == n.term && n'.log == n.log && n'.commitIndex >= n.commitIndex
    && n'.matchIndex.Keys == n.matchIndex.Keys
    && (forall p {:trigger n'.matchIndex[p]} :: p in n'.matchIndex ==> n'.matchIndex[p] == if p in s then |n.log.entries| else n.matchIndex[p])
    && (forall p {:trigger Who(ids, run', p)} :: p in s ==>
          var f, f' := Who(ids, run, p).node, Who(ids, run', p).node;
          && f'.term == n.term && n.log.entries <= f'.log.entries && f'.commitIndex >= n.commitIndex
          && |f'.log.entries| <= Max(|f.log.entries|, |n.log.entries|))
  }

  lemma OneMoreCaught(ids: set<NodeId>, run: seq<Action>, run1: seq<Action>, run': seq<Action>, x: NodeId, s: set<NodeId>, p: NodeId)
    requires x in ids && s <= ids - {x} && p in s && p in Who(ids, run, x).node.matchIndex
    requires Continues(ids, run, run1, {x, p}) && Continues(ids, run1, run', s - {p} + {x})
    requires CaughtUp(Who(ids, run, x).node, Who(ids, run, p).node, p, Who(ids, run1, x).node, Who(ids, run1, p).node)
    requires AllCaughtUp(ids, run1, x, s - {p}, run')
    ensures AllCaughtUp(ids, run, x, s, run')
  {
    hide Who;
    var n := Who(ids, run, x).node;
    assert Who(ids, run', p) == Who(ids, run1, p);
    forall q | q in s
      ensures var f, f' := Who(ids, run, q).node, Who(ids, run', q).node;
        && f'.term == n.term && n.log.entries <= f'.log.entries && f'.commitIndex >= n.commitIndex
        && |f'.log.entries| <= Max(|f.log.entries|, |n.log.entries|)
    {
      if q != p {
        assert Who(ids, run1, q) == Who(ids, run, q);
      }
    }
  }

  lemma {:induction false} CatchUpAll(ids: set<NodeId>, run: seq<Action>, x: NodeId, s: set<NodeId>) returns (run': seq<Action>)
    requires NOBODY !in ids && x in ids && s <= ids - {x} && Who(ids, run, x).node.role == Leader
    requires forall p {:trigger Who(ids, run, p)} :: p in s ==> Who(ids, run, p).node.term <= Who(ids, run, x).node.term
    ensures Continues(ids, run, run', s + {x})
    ensures AllCaughtUp(ids, run, x, s, run')
    decreases s
  {
    hide Now, HistoryAt, HistoryOk;
    if s == {} {
      run' := run;
    } else {
      var p :| p in s;
      NowOk(ids, run, x);
      assert LeaderOk(ids, HistoryAt(ids, run, |run|), x, Who(ids, run, x).node) && p in Who(ids, run, x).node.matchIndex;
      var run1 := CatchUp(ids, run, x, p);
      forall q | q in s - {p} ensures Who(ids, run1, q).node.term <= Who(ids, run1, x).node.term {
        assert Who(ids, run1, q) == Who(ids, run, q);
      }
      run' := CatchUpAll(ids, run1, x, s - {p});
      Chained(ids, run, run1, run', {x, p}, s - {p} + {x}, s + {x});
      OneMoreCaught(ids, run, run1, run', x, s, p);
    }
  }

  /** Once as many are up to date as make a commit quorum with the leader, it has
      committed its whole log, if the last entry is of its own term. */
  lemma AllCommitted(ids: set<NodeId>, run: seq<Action>, x: NodeId, s: set<NodeId>)
    requires NOBODY !in ids && x in ids && s <= ids - {x} && 2 * (|s| + 1) >= |ids|
    requires var n := Who(ids, run, x).node;
      && n.role == Leader && n.log.entries != [] && n.log.entries[|n.log.entries| - 1].term == n.term
      && forall p :: p in s ==> p in n.matchIndex && n.matchIndex[p] == |n.log.entries|
    ensures var n := Who(ids, run, x).node; n.commitIndex == |n.log.entries|
  {
    hide StateAt, HistoryAt, MemberOk, HistoryOk;
    var n := Who(ids, run, x).node;
    NowOk(ids, run, x);
    CommitIffQuorum(ids, run, |run|, x, |n.log.entries|);
    var reached := set p | p in ids && n.matchIndex[p] >= |n.log.entries|;
    CardinalityMonotone(s + {x}, reached);
    assert |s + {x}| == |s| + 1;
  }

  // ---------- Delivering ----------

  lemma ApplyAlone(c: Cluster, a: Action, z: NodeId)
    requires IsApply(a) && z in c.members && z != a.id
    ensures Step(c, a).members[z] == c.members[z]
  {
  }

  lemma ApplyRun(ids: set<NodeId>, run: seq<Action>, a: Action)
    requires IsApply(a)
    ensures Continues(ids, run, run + [a], {a.id})
  {
    hide Step, StateAt;
    NowStep(ids, run, a);
    forall z | z in ids && z != a.id ensures Who(ids, run + [a], z) == Who(ids, run, z) {
      ApplyAlone(Now(ids, run), a, z);
    }
  }

  /** A pass in the middle of sending can be finished. */
  lemma {:induction false} FinishPass(ids: set<NodeId>, run: seq<Action>, x: NodeId) returns (run': seq<Action>)
    requires NOBODY !in ids && x in ids && Who(ids, run, x).applier.Sending?
    requires |Who(ids, run, x).node.log.entries| < 10_000
    ensures Continues(ids, run, run', {x})
    ensures var m, m' := Who(ids, run, x), Who(ids, run', x);
      && m'.applier.Idle? && m'.delivered == m.delivered + m.applier.rest
      && m'.node == m.node.(lastApplied := |m'.delivered|)
    decreases |Who(ids, run, x).applier.rest|
  {
    hide StateAt, Step;
    var m := Who(ids, run, x);
    var run1 := run + [Deliver(x)];
    NowStep(ids, run, Deliver(x));
    ApplyRun(ids, run, Deliver(x));
    PassDelivers(ids, run1, |run|, x);
    if m.applier.rest == [] {
      run' := run1;
    } else {
      run' := FinishPass(ids, run1, x);
      Chained(ids, run, run1, run', {x}, {x}, {x});
      assert m.delivered + [m.applier.rest[0]] + m.applier.rest[1..] == m.delivered + m.applier.rest;
    }
  }

  /** A pass that has begun can be finished, with everything delivered that was
      committed when it began. */
  lemma FinishLocked(ids: set<NodeId>, run: seq<Action>, x: NodeId) returns (run': seq<Action>)
    requires NOBODY !in ids && x in ids && Who(ids, run, x).applier.Locked?
    requires |Who(ids, run, x).node.log.entries| < 10_000
    ensures Continues(ids, run, run', {x})
    ensures var m, m' := Who(ids, run, x), Who(ids, run', x);
      && m'.applier.Idle? && m.applier.commit <= |m.node.log.entries|
      && m'.delivered == m.node.log.entries[..m.applier.commit]
      && m'.node == m.node.(lastApplied := m.applier.commit)
  {
    hide StateAt, Step;
    var run1 := run + [ReadEntries(x)];
    NowStep(ids, run, ReadEntries(x));
    ApplyRun(ids, run, ReadEntries(x));
    PassReads(ids, run1, |run|, x);
    run' := FinishPass(ids, run1, x);
    Chained(ids, run, run1, run', {x}, {x}, {x});
  }

  /** Whatever its apply loop is doing, a node can finish that first. */
  lemma Rest(ids: set<NodeId>, run: seq<Action>, x: NodeId) returns (run': seq<Action>)
    requires NOBODY !in ids && x in ids && |Who(ids, run, x).node.log.entries| < 10_000
    ensures Continues(ids, run, run', {x})
    ensures var m, m' := Who(ids, run, x), Who(ids, run', x);
      m'.applier.Idle? && m'.node == m.node.(lastApplied := m'.node.lastApplied)
  {
    hide Now;
    match Who(ids, run, x).applier {
      case Idle => run' := run;
      case Locked(_, _) => run' := FinishLocked(ids, run, x);
      case Sending(_) => run' := FinishPass(ids, run, x);
    }
  }

  /** Any node can deliver all it has committed. */
  lemma DeliverAll(ids: set<NodeId>, run: seq<Action>, x: NodeId) returns (run': seq<Action>)
    requires NOBODY !in ids && x in ids && |Who(ids, run, x).node.log.entries| < 10_000
    ensures Continues(ids, run, run', {x})
    ensures var m, m' := Who(ids, run, x), Who(ids, run', x);
      && m'.node == m.node.(lastApplied := m'.node.lastApplied)
      && m.node.commitIndex <= |m.node.log.entries|
      && m'.delivered == m.node.log.entries[..m.node.commitIndex]
  {
    hide StateAt, Step;
    var run1 := Rest(ids, run, x);
    var m1 := Who(ids, run1, x);
    DeliveryStream(ids, run1, |run1|, x);
    run' := run1;
    if m1.node.lastApplied < m1.node.commitIndex {
      var run2 := run1 + [ReadCommit(x)];
      NowStep(ids, run1, ReadCommit(x));
      ApplyRun(ids, run1, ReadCommit(x));
      PassStarts(ids, run2, |run1|, x);
      run' := FinishLocked(ids, run2, x);
      Chained(ids, run1, run2, run', {x}, {x}, {x});
      Chained(ids, run, run1, run', {x}, {x}, {x});
    }
  }

  /** `y` has delivered all it had committed, and kept its log. */
  ghost predicate HasDelivered(ids: set<NodeId>, run: seq<Action>, run': seq<Action>, y: NodeId)
    requires y in ids
  {
    var n, m' := Who(ids, run, y).node, Who(ids, run', y);
    && n.commitIndex <= |n.log.entries| && m'.node.log == n.log && m'.node.commitIndex == n.commitIndex
    && m'.delivered == n.log.entries[..n.commitIndex]
  }

  lemma {:induction false} DeliverEverywhere(ids: set<NodeId>, run: seq<Action>, s: set<NodeId>) returns (run': seq<Action>)
    requires NOBODY !in ids && s <= ids
    requires forall y {:trigger Who(ids, run, y)} :: y in s ==> |Who(ids, run, y).node.log.entries| < 10_000
    ensures Continues(ids, run, run', s)
    ensures forall y {:trigger HasDelivered(ids, run, run', y)} :: y in s ==> HasDelivered(ids, run, run', y)
    decreases s
  {
    hide Now;
    run' := run;
    if s != {} {
      var x :| x in s;
      var run1 := DeliverAll(ids, run, x);
      assert forall y :: y in s - {x} ==> Who(ids, run1, y) == Who(ids, run, y);
      run' := DeliverEverywhere(ids, run1, s - {x});
      Chained(ids, run, run1, run', {x}, s - {x}, s);
      assert Who(ids, run', x) == Who(ids, run1, x);
      forall y | y in s ensures HasDelivered(ids, run, run', y) {
        assert y != x ==> HasDelivered(ids, run1, run', y);
      }
    }
  }

  // ---------- Electing ----------

  /** Votes and time-outs leave logs and commit indexes alone. */
  ghost predicate SameLogs(ids: set<NodeId>, run: seq<Action>, run': seq<Action>) {
    forall y {:trigger Who(ids, run', y)} :: y in ids ==>
      && Who(ids, run', y).node.log == Who(ids, run, y).node.log
      && Who(ids, run', y).node.commitIndex == Who(ids, run, y).node.commitIndex
  }

  lemma SameLogsChained(ids: set<NodeId>, a: seq<Action>, b: seq<Action>, c: seq<Action>)
    requires SameLogs(ids, a, b) && SameLogs(ids, b, c)
    ensures SameLogs(ids, a, c)
  {
    hide Who;
    forall y | y in ids
      ensures Who(ids, c, y).node.log == Who(ids, a, y).node.log && Who(ids, c, y).node.commitIndex == Who(ids, a, y).node.commitIndex
    {
      assert Who(ids, b, y) == Who(ids, b, y);
    }
  }

  lemma Bystander(ids: set<NodeId>, run: seq<Action>, run': seq<Action>, s: set<NodeId>, z: NodeId)
    requires Continues(ids, run, run', s) && z in ids && z !in s
    ensures Who(ids, run', z) == Who(ids, run, z)
  {
    hide Who;
  }

  lemma TimeoutStands(c: Cluster, x: NodeId)
    requires x in c.members && c.members[x].node.role != Leader
    ensures var m, c' := c.members[x], Step(c, Timeout(x));
      && c'.members == c.members[x := c'.members[x]]
      && c'.members[x].node == m.node.(role := Candidate, term := m.node.term + 1, votedFor := x, leader := NOBODY)
      && c'.members[x].counted == {}
      && VoteRequest(c'.members[x].node, x) in c'.net.voteCalls
  {
  }

  lemma StandRun(ids: set<NodeId>, run: seq<Action>, x: NodeId)
    requires x in ids && Who(ids, run, x).node.role != Leader
    ensures var run', n := run + [Timeout(x)], Who(ids, run, x).node;
      && Continues(ids, run, run', {x}) && SameLogs(ids, run, run')
      && Who(ids, run', x).node == n.(role := Candidate, term := n.term + 1, votedFor := x, leader := NOBODY)
      && Who(ids, run', x).counted == {}
      && VoteRequest(Who(ids, run', x).node, x) in Now(ids, run').net.voteCalls
  {
    hide Step, StateAt, VoteRequest;
    NowStep(ids, run, Timeout(x));
    TimeoutStands(Now(ids, run), x);
  }

  /** A node that is not leader can time out until no term is ahead of it. */
  lemma {:induction false} RaiseTerm(ids: set<NodeId>, run: seq<Action>, x: NodeId, t: nat) returns (run': seq<Action>)
    requires x in ids && Who(ids, run, x).node.role != Leader
    ensures Continues(ids, run, run', {x}) && SameLogs(ids, run, run')
    ensures Who(ids, run', x).node.role != Leader && Who(ids, run', x).node.term >= t
    decreases t - Who(ids, run, x).node.term
  {
    hide Now, VoteRequest;
    run' := run;
    if Who(ids, run, x).node.term < t {
      StandRun(ids, run, x);
      var run1 := run + [Timeout(x)];
      run' := RaiseTerm(ids, run1, x, t);
      Chained(ids, run, run1, run', {x}, {x}, {x});
    }
  }

  lemma VoteStep(c: Cluster, q: NodeId, call: VoteArgs)
    requires q in c.members && q != call.candidate && call in c.net.voteCalls
    ensures var (node, reply) := HandleVote(c.members[q].node, call);
      var c' := Step(c, AnswerVote(q, call));
      && c'.members == c.members[q := c.members[q].(node := node)] && c'.net.voteCalls == c.net.voteCalls
      && VoteAnswer(q, call, reply) in c'.net.voteAnswers
  {
    hide HandleVote;
  }

  lemma CountStep(c: Cluster, v: VoteAnswer)
    requires Enabled(c, TakeVote(v))
    ensures var x, c' := v.args.candidate, Step(c, TakeVote(v));
      && c'.members == c.members[x := c'.members[x]] && c'.net == c.net
      && c'.members[x].node.commitIndex == c.members[x].node.commitIndex
  {
    hide Fill, VoteQuorum;
  }

  /** A voter that is behind in term and not ahead in its log grants its vote. */
  lemma VoteRun(ids: set<NodeId>, run: seq<Action>, x: NodeId, q: NodeId) returns (run': seq<Action>, v: VoteAnswer)
    requires NOBODY !in ids && x in ids && q in ids && q != x
    requires var m, f := Who(ids, run, x), Who(ids, run, q).node;
      && f.term < m.node.term && UpToDate(m.node.log.entries, f.log.entries)
      && VoteRequest(m.node, x) in Now(ids, run).net.voteCalls
    ensures Continues(ids, run, run', {q}) && SameLogs(ids, run, run')
    ensures Who(ids, run', x) == Who(ids, run, x) && Who(ids, run', q).node.term == Who(ids, run, x).node.term
    ensures var m := Who(ids, run, x);
      && v == VoteAnswer(q, VoteRequest(m.node, x), VoteReply(m.node.term, true))
      && v in Now(ids, run').net.voteAnswers && v.args in Now(ids, run').net.voteCalls
  {
    hide Step, StateAt, HistoryAt, HandleVote, HistoryOk, UpToDate, LeaderOk, CandidateOk, AcksKept, CommitOk, ApplierOk;
    var h, m, f := HistoryAt(ids, run, |run|), Who(ids, run, x), Who(ids, run, q).node;
    NowOk(ids, run, x);
    NowOk(ids, run, q);
    LogFacts(h, m.node);
    PlainLog(h, f);
    var call := VoteRequest(m.node, x);
    VoteGrantedIff(f, call, m.node.log.entries);
    NowStep(ids, run, AnswerVote(q, call));
    VoteStep(Now(ids, run), q, call);
    run', v := run + [AnswerVote(q, call)], VoteAnswer(q, call, HandleVote(f, call).1);
  }

  /** One more voter that is behind in term and not ahead in its log votes for the
      candidate and is counted. */
  lemma GainVote(ids: set<NodeId>, run: seq<Action>, x: NodeId, q: NodeId) returns (run': seq<Action>)
    requires NOBODY !in ids && x in ids && q in ids && q != x
    requires var m, f := Who(ids, run, x), Who(ids, run, q).node;
      && m.node.role == Candidate && q !in m.counted && f.term < m.node.term
      && UpToDate(m.node.log.entries, f.log.entries)
      && VoteRequest(m.node, x) in Now(ids, run).net.voteCalls
    ensures Continues(ids, run, run', {x, q}) && SameLogs(ids, run, run')
    ensures var m, m' := Who(ids, run, x), Who(ids, run', x);
      && m'.counted == m.counted + {q} && m'.node.term == m.node.term && Who(ids, run', q).node.term == m.node.term
      && m'.node.role == (if 2 * (|m'.counted| + 1) > |ids| then Leader else Candidate)
      && VoteRequest(m'.node, x) in Now(ids, run').net.voteCalls
  {
    hide Step, StateAt, UpToDate;
    var run1, v := VoteRun(ids, run, x, q);
    NowStep(ids, run1, TakeVote(v));
    run' := run1 + [TakeVote(v)];
    assert Enabled(Now(ids, run1), TakeVote(v));
    WinsExactly(ids, run', |run1|, v);
    CountStep(Now(ids, run1), v);
    assert Continues(ids, run1, run', {x});
    Chained(ids, run, run1, run', {q}, {x}, {x, q});
  }

  /** A candidate whose remaining possible voters make a majority can win. */
  lemma {:induction false} Gather(ids: set<NodeId>, run: seq<Action>, x: NodeId, s: set<NodeId>) returns (run': seq<Action>)
    requires NOBODY !in ids && x in ids && s <= ids - {x} && s != {}
    requires var m := Who(ids, run, x);
      && m.node.role == Candidate && s !! m.counted && 2 * (|s| + |m.counted| + 1) > |ids|
      && VoteRequest(m.node, x) in Now(ids, run).net.voteCalls
    requires forall q {:trigger Who(ids, run, q)} :: q in s ==>
      Who(ids, run, q).node.term < Who(ids, run, x).node.term &&
      UpToDate(Who(ids, run, x).node.log.entries, Who(ids, run, q).node.log.entries)
    ensures Continues(ids, run, run', s + {x}) && SameLogs(ids, run, run')
    ensures Who(ids, run', x).node.role == Leader && Who(ids, run', x).node.term == Who(ids, run, x).node.term
    ensures forall q {:trigger Who(ids, run', q)} :: q in s ==> Who(ids, run', q).node.term <= Who(ids, run, x).node.term
    decreases s
  {
    hide Now, VoteRequest, UpToDate;
    var q :| q in s;
    var run1 := GainVote(ids, run, x, q);
    assert forall z :: z in s - {q} ==> Who(ids, run1, z) == Who(ids, run, z);
    assert |s| == |s - {q}| + 1 && |Who(ids, run, x).counted + {q}| == |Who(ids, run, x).counted| + 1;
    if Who(ids, run1, x).node.role == Leader {
      run' := run1;
      Chained(ids, run, run1, run1, {x, q}, {}, s + {x});
    } else {
      assert s - {q} != {};
      run' := Gather(ids, run1, x, s - {q});
      Chained(ids, run, run1, run', {x, q}, s - {q} + {x}, s + {x});
      assert Who(ids, run', q) == Who(ids, run1, q);
      assert SameLogs(ids, run, run');
    }
  }

  lemma AloneStep(c: Cluster, x: NodeId)
    requires x in c.members
    ensures Step(c, WinAlone(x)).members[x].node.commitIndex == c.members[x].node.commitIndex
  {
    hide Fill, VoteQuorum;
  }

  lemma AloneRun(ids: set<NodeId>, run: seq<Action>, x: NodeId)
    requires NOBODY !in ids && ids == {x} && Who(ids, run, x).node.role == Candidate
    ensures var run' := run + [WinAlone(x)];
      && Continues(ids, run, run', {x}) && SameLogs(ids, run, run')
      && Who(ids, run', x).node.role == Leader && Who(ids, run', x).node.term == Who(ids, run, x).node.term
  {
    hide StateAt, Step;
    NowStep(ids, run, WinAlone(x));
    AloneWins(ids, run + [WinAlone(x)], |run|, x);
    AloneStep(Now(ids, run), x);
  }

  /** A node that is not leader can be elected by any peers that make a majority
      with it, are not ahead of it in term and have no more up-to-date log. */
  lemma Elect(ids: set<NodeId>, run: seq<Action>, x: NodeId, s: set<NodeId>) returns (run': seq<Action>)
    requires NOBODY !in ids && x in ids && s <= ids - {x} && 2 * (|s| + 1) > |ids|
    requires Who(ids, run, x).node.role != Leader
    requires forall q {:trigger Who(ids, run, q)} :: q in s ==>
      Who(ids, run, q).node.term <= Who(ids, run, x).node.term &&
      UpToDate(Who(ids, run, x).node.log.entries, Who(ids, run, q).node.log.entries)
    ensures Continues(ids, run, run', s + {x}) && SameLogs(ids, run, run')
    ensures Who(ids, run', x).node.role == Leader && Who(ids, run', x).node.term == Who(ids, run, x).node.term + 1
    ensures forall q {:trigger Who(ids, run', q)} :: q in s ==> Who(ids, run', q).node.term <= Who(ids, run', x).node.term
  {
    hide Now, Who, VoteRequest, UpToDate, Continues, SameLogs;
    StandRun(ids, run, x);
    var run1 := run + [Timeout(x)];
    if s == {} {
      PeerCount(ids, x);
      assert ids - {x} == {};
      assert ids == {x};
      run' := run1 + [WinAlone(x)];
      AloneRun(ids, run1, x);
      Chained(ids, run, run1, run', {x}, {x}, s + {x});
    } else {
      forall z | z in s ensures Who(ids, run1, z) == Who(ids, run, z) {
        Bystander(ids, run, run1, {x}, z);
      }
      run' := Gather(ids, run1, x, s);
      Chained(ids, run, run1, run', {x}, s + {x}, s + {x});
    }
    SameLogsChained(ids, run, run1, run');
  }

  /** A leader that learns of a newer term steps down. */
  lemma StepDown(ids: set<NodeId>, run: seq<Action>, x: NodeId, q: NodeId) returns (run': seq<Action>)
    requires NOBODY !in ids && x in ids && q in ids
    requires Who(ids, run, x).node.role == Leader && Who(ids, run, q).node.term > Who(ids, run, x).node.term
    ensures Continues(ids, run, run', {x}) && SameLogs(ids, run, run')
    ensures Who(ids, run', x).node.role == Follower && Who(ids, run', x).node.term == Who(ids, run, q).node.term
  {
    hide Now, HistoryAt, HandleAppend, HandleAppendReply, HistoryOk, AcksKept, ApplierOk, CandidateOk;
    var h, m, f := HistoryAt(ids, run, |run|), Who(ids, run, x), Who(ids, run, q).node;
    NowOk(ids, run, x);
    NowOk(ids, run, q);
    assert LeaderOk(ids, h, x, m.node) && q in m.node.matchIndex;
    PlainLog(h, f);
    SentArgs(ids, h, x, m, q);
    var args := BuildAppend(m.node, x, q).value;
    AppendAcceptedIff(f, args);
    ReplyTaken(m.node, ids - {x}, q, args, HandleAppend(f, args).1);
    run' := ExchangeRun(ids, run, x, q);
  }

  // ---------- No reachable state is stuck ----------

  /** Some node has the most up-to-date log. */
  lemma {:induction false} BestLog(ids: set<NodeId>, run: seq<Action>, s: set<NodeId>) returns (x: NodeId)
    requires s <= ids && s != {}
    ensures x in s
    ensures forall y {:trigger Who(ids, run, y)} :: y in s ==> UpToDate(Who(ids, run, x).node.log.entries, Who(ids, run, y).node.log.entries)
    decreases s
  {
    hide Who;
    var z :| z in s;
    if s == {z} {
      x := z;
    } else {
      x := BestLog(ids, run, s - {z});
      if !UpToDate(Who(ids, run, x).node.log.entries, Who(ids, run, z).node.log.entries) {
        x := z;
      }
    }
  }

  lemma {:induction false} HighestTerm(ids: set<NodeId>, run: seq<Action>, s: set<NodeId>) returns (t: nat)
    requires s <= ids
    ensures forall y {:trigger Who(ids, run, y)} :: y in s ==> Who(ids, run, y).node.term <= t
    decreases s
  {
    hide Who;
    t := 0;
    if s != {} {
      var z :| z in s;
      t := HighestTerm(ids, run, s - {z});
      t := Max(t, Who(ids, run, z).node.term);
    }
  }

  lemma Unchanged(ids: set<NodeId>, run: seq<Action>, s: set<NodeId>)
    ensures Continues(ids, run, run, s) && SameLogs(ids, run, run)
  {
  }

  /** A node that is leader behind somebody else's term can give that up. */
  lemma Yield(ids: set<NodeId>, run: seq<Action>, x: NodeId, s: set<NodeId>, t: nat) returns (run': seq<Action>)
    requires NOBODY !in ids && s <= ids && x in s
    requires forall y {:trigger Who(ids, run, y)} :: y in s ==> Who(ids, run, y).node.term <= t
    requires Who(ids, run, x).node.role == Leader ==> exists q :: q in s && Who(ids, run, q).node.term > Who(ids, run, x).node.term
    ensures Continues(ids, run, run', {x}) && SameLogs(ids, run, run')
    ensures Who(ids, run', x).node.role != Leader && Who(ids, run', x).node.term >= t
  {
    hide Now, Who, Continues, SameLogs;
    var run1 := run;
    if Who(ids, run, x).node.role == Leader {
      var q :| q in s && Who(ids, run, q).node.term > Who(ids, run, x).node.term;
      run1 := StepDown(ids, run, x, q);
    } else {
      Unchanged(ids, run, {x});
    }
    run' := RaiseTerm(ids, run1, x, t);
    Chained(ids, run, run1, run', {x}, {x}, {x});
    SameLogsChained(ids, run, run1, run');
  }

  lemma LogStays(ids: set<NodeId>, run: seq<Action>, run': seq<Action>, y: NodeId)
    requires SameLogs(ids, run, run') && y in ids
    ensures Who(ids, run', y).node.log == Who(ids, run, y).node.log
  {
    hide Who;
  }

  /** Any majority can have a leader that nobody in it is ahead of. */
  lemma Lead(ids: set<NodeId>, run: seq<Action>, s: set<NodeId>) returns (run': seq<Action>, x: NodeId)
    requires NOBODY !in ids && s <= ids && 2 * |s| > |ids|
    ensures Continues(ids, run, run', s) && SameLogs(ids, run, run')
    ensures x in s && Who(ids, run', x).node.role == Leader
    ensures forall y {:trigger Who(ids, run', y)} :: y in s ==> Who(ids, run', y).node.term <= Who(ids, run', x).node.term
  {
    hide Now, Who, Continues, SameLogs, UpToDate;
    x := BestLog(ids, run, s);
    var t := HighestTerm(ids, run, s);
    if Who(ids, run, x).node.role == Leader && forall y :: y in s ==> Who(ids, run, y).node.term <= Who(ids, run, x).node.term {
      run' := run;
      Unchanged(ids, run, s);
    } else {
      var run1 := Yield(ids, run, x, s, t);
      forall q | q in s - {x}
        ensures Who(ids, run1, q).node.term <= Who(ids, run1, x).node.term
        ensures UpToDate(Who(ids, run1, x).node.log.entries, Who(ids, run1, q).node.log.entries)
      {
        Bystander(ids, run, run1, {x}, q);
        LogStays(ids, run, run1, x);
      }
      assert |s| == |s - {x}| + 1;
      run' := Elect(ids, run1, x, s - {x});
      Chained(ids, run, run1, run', {x}, s - {x} + {x}, s);
      SameLogsChained(ids, run, run1, run');
    }
  }

  lemma ProposeLeads(c: Cluster, h: History, x: NodeId, command: seq<Byte>)
    requires x in c.members && c.members[x].node.role == Leader && LogOk(h, c.members[x].node)
    ensures var c', n := Step(c, ProposeAt(x, command)), c.members[x].node;
      && c'.members == c.members[x := c'.members[x]]
      && c'.members[x].node.role == Leader && c'.members[x].node.term == n.term
      && c'.members[x].node.log.entries == n.log.entries + [Entry(|n.log.entries| + 1, n.term, command)]
  {
    hide QuorumIndex, CommitQuorum;
    LogFacts(h, c.members[x].node);
  }

  lemma ProposeRun(ids: set<NodeId>, run: seq<Action>, x: NodeId, command: seq<Byte>)
    requires NOBODY !in ids && x in ids && Who(ids, run, x).node.role == Leader
    ensures var run', n := run + [ProposeAt(x, command)], Who(ids, run, x).node;
      && Continues(ids, run, run', {x})
      && Who(ids, run', x).node.role == Leader && Who(ids, run', x).node.term == n.term
      && Who(ids, run', x).node.log.entries == n.log.entries + [Entry(|n.log.entries| + 1, n.term, command)]
  {
    hide StateAt, HistoryAt, Step, HistoryOk, LogOk;
    NowOk(ids, run, x);
    NowStep(ids, run, ProposeAt(x, command));
    ProposeLeads(Now(ids, run), HistoryAt(ids, run, |run|), x, command);
  }

  lemma MatchKeys(ids: set<NodeId>, run: seq<Action>, x: NodeId)
    requires NOBODY !in ids && x in ids && Who(ids, run, x).node.role == Leader
    ensures Who(ids, run, x).node.matchIndex.Keys == ids
  {
    hide Now, HistoryAt;
    NowOk(ids, run, x);
    assert LeaderOk(ids, HistoryAt(ids, run, |run|), x, Who(ids, run, x).node);
  }

  /** A leader can have its whole log, ending in an entry of its own term, committed
      by itself and by any peers that make a majority with it and are not ahead. */
  lemma CommitEverywhere(ids: set<NodeId>, run: seq<Action>, x: NodeId, s: set<NodeId>) returns (run': seq<Action>)
    requires NOBODY !in ids && x in ids && s <= ids - {x} && 2 * (|s| + 1) > |ids|
    requires var n := Who(ids, run, x).node;
      n.role == Leader && n.log.entries != [] && n.log.entries[|n.log.entries| - 1].term == n.term
    requires forall p {:trigger Who(ids, run, p)} :: p in s ==> Who(ids, run, p).node.term <= Who(ids, run, x).node.term
    ensures Continues(ids, run, run', s + {x})
    ensures Who(ids, run', x).node.log == Who(ids, run, x).node.log
    ensures forall y {:trigger Who(ids, run', y)} :: y in s + {x} ==>
      var log, n' := Who(ids, run, x).node.log.entries, Who(ids, run', y).node;
      && log <= n'.log.entries && n'.commitIndex >= |log|
      && |n'.log.entries| <= Max(|Who(ids, run, y).node.log.entries|, |log|)
  {
    hide Now, HistoryAt;
    var n := Who(ids, run, x).node;
    var run1 := CatchUpAll(ids, run, x, s);
    MatchKeys(ids, run1, x);
    AllCommitted(ids, run1, x, s);
    run' := CatchUpAll(ids, run1, x, s);
    Chained(ids, run, run1, run', s + {x}, s + {x}, s + {x});
  }

  lemma AllDelivered(ids: set<NodeId>, run2: seq<Action>, run3: seq<Action>, run': seq<Action>, x: NodeId, s: set<NodeId>)
    requires s <= ids && x in s && Who(ids, run3, x).node.log == Who(ids, run2, x).node.log
    requires forall y {:trigger Who(ids, run3, y)} :: y in s ==>
      var log, n' := Who(ids, run2, x).node.log.entries, Who(ids, run3, y).node;
      log <= n'.log.entries && n'.commitIndex >= |log|
    requires forall y {:trigger HasDelivered(ids, run3, run', y)} :: y in s ==> HasDelivered(ids, run3, run', y)
    ensures Who(ids, run', x).node.log == Who(ids, run2, x).node.log
    ensures forall y {:trigger Who(ids, run', y)} :: y in s ==> Who(ids, run2, x).node.log.entries <= Who(ids, run', y).delivered
  {
    hide Who;
    assert HasDelivered(ids, run3, run', x);
    forall y | y in s ensures Who(ids, run2, x).node.log.entries <= Who(ids, run', y).delivered {
      assert HasDelivered(ids, run3, run', y);
      assert Who(ids, run3, y) == Who(ids, run3, y);
    }
  }

  /** Progress: from every reachable state, and for every majority of the nodes
      whose logs are short of compaction, the run can go on, without any other
      node taking part, so that some leader in the majority appends the command
      to its log and everybody in the majority delivers that whole log. */
  lemma NeverStuck(ids: set<NodeId>, run: seq<Action>, s: set<NodeId>, command: seq<Byte>)
    returns (run': seq<Action>, x: NodeId)
    requires NOBODY !in ids && s <= ids && 2 * |s| > |ids|
    requires forall y {:trigger Who(ids, run, y)} :: y in s ==> |Who(ids, run, y).node.log.entries| + 1 < 10_000
    ensures Continues(ids, run, run', s) && x in s
    ensures var before, log := Who(ids, run, x).node.log.entries, Who(ids, run', x).node.log.entries;
      && |log| == |before| + 1 && log[..|before|] == before && log[|before|].command == command
      && forall y {:trigger Who(ids, run', y)} :: y in s ==> log <= Who(ids, run', y).delivered
  {
    hide Now, Who, Continues, SameLogs;
    var run1: seq<Action>;
    run1, x := Lead(ids, run, s);
    var run2 := run1 + [ProposeAt(x, command)];
    ProposeRun(ids, run1, x, command);
    var rest := s - {x};
    assert |s| == |rest| + 1;
    forall p | p in rest
      ensures Who(ids, run2, p).node.term <= Who(ids, run2, x).node.term
    {
      Bystander(ids, run1, run2, {x}, p);
    }
    var run3 := CommitEverywhere(ids, run2, x, rest);
    forall y | y in s ensures |Who(ids, run3, y).node.log.entries| < 10_000 {
      LogStays(ids, run, run1, y);
      LogStays(ids, run, run1, x);
      if y != x {
        Bystander(ids, run1, run2, {x}, y);
      }
    }
    run' := DeliverEverywhere(ids, run3, s);
    LogStays(ids, run, run1, x);
    Chained(ids, run2, run3, run', rest + {x}, s, s);
    Chained(ids, run1, run2, run', {x}, s, s);
    Chained(ids, run, run1, run', s, s, s);
    AllDelivered(ids, run2, run3, run', x, s);
  }
}
