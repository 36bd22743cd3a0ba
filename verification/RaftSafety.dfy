/** The safety theorems. Each is about every run of every cluster: any set of
    node names, any sequence of actions. */
module RaftSafety {
  import opened RaftTypes
  import opened RaftNode
  import opened RaftCluster
  import opened RaftHistory
  import opened RaftInvariant
  import opened RaftGrowth
  import opened RaftElectionSteps
  import opened RaftReplicationSteps
  import opened RaftLeaderSteps

  // ---------- The invariant holds throughout every run ----------

  lemma InitialInv(ids: set<NodeId>)
    requires NOBODY !in ids
    ensures Inv(Initial(ids), NO_HISTORY)
  {
    var c := Initial(ids);
    assert c.members.Keys == ids;
    forall x | x in ids ensures MemberOk(ids, NO_HISTORY, x, c.members[x]) {
    }
  }

  lemma StepKeeps(c: Cluster, h: History, a: Action)
    requires Inv(c, h)
    ensures Inv(Step(c, a), Record(c, h, a)) && Grows(h, Record(c, h, a))
  {
    hide Inv, HandleVote, HandleAppend;
    if Enabled(c, a) {
      match a {
        case Timeout(x) => TimeoutStep(c, h, x);
        case WinAlone(x) => WinAloneStep(c, h, x);
        case AnswerVote(x, args) =>
          if HandleVote(c.members[x].node, args).1.granted {
            AnswerVoteGranted(c, h, x, args);
          } else {
            AnswerVoteRefused(c, h, x, args);
          }
        case TakeVote(v) => TakeVoteStep(c, h, v);
        case SendAppend(x, peer) => SendAppendStep(c, h, x, peer);
        case AnswerAppend(msg) =>
          if HandleAppend(c.members[msg.to].node, msg.args).1.success {
            AnswerAppendAccepted(c, h, msg);
          } else {
            AnswerAppendRejected(c, h, msg);
          }
        case TakeAppend(ans) => TakeAppendStep(c, h, ans);
        case ProposeAt(x, command) => ProposeStep(c, h, x, command);
        case _ => ApplyStep(c, h, a);
      }
    }
  }

  lemma {:induction false} RunInv(ids: set<NodeId>, run: seq<Action>, k: nat)
    requires NOBODY !in ids && k <= |run|
    ensures Inv(StateAt(ids, run, k), HistoryAt(ids, run, k))
  {
    if k == 0 {
      InitialInv(ids);
    } else {
      RunInv(ids, run, k - 1);
      StepKeeps(StateAt(ids, run, k - 1), HistoryAt(ids, run, k - 1), run[k - 1]);
    }
  }

  lemma {:induction false} RunGrows(ids: set<NodeId>, run: seq<Action>, j: nat, k: nat)
    requires NOBODY !in ids && j <= k <= |run|
    ensures Grows(HistoryAt(ids, run, j), HistoryAt(ids, run, k))
    decreases k
  {
    if j < k {
      RunGrows(ids, run, j, k - 1);
      RunInv(ids, run, k - 1);
      StepKeeps(StateAt(ids, run, k - 1), HistoryAt(ids, run, k - 1), run[k - 1]);
      GrowsTransitive(HistoryAt(ids, run, j), HistoryAt(ids, run, k - 1), HistoryAt(ids, run, k));
    }
  }

  lemma RunMember(ids: set<NodeId>, run: seq<Action>, k: nat, x: NodeId)
    requires NOBODY !in ids && k <= |run| && x in ids
    ensures MemberOk(ids, HistoryAt(ids, run, k), x, MemberAt(ids, run, k, x))
    ensures HistoryOk(ids, HistoryAt(ids, run, k))
  {
    RunInv(ids, run, k);
    assert MemberOk(StateAt(ids, run, k).members.Keys, HistoryAt(ids, run, k), x, MemberAt(ids, run, k, x));
  }

  // ---------- Elections ----------

  /** The record of the term a node leads names that node and holds its log. */
  lemma LeaderRecorded(ids: set<NodeId>, run: seq<Action>, k: nat, last: nat, x: NodeId)
    requires NOBODY !in ids && k <= last <= |run| && x in ids && MemberAt(ids, run, k, x).node.role == Leader
    ensures var h, n := HistoryAt(ids, run, last), MemberAt(ids, run, k, x).node;
      && n.term in h.elections && h.elections[n.term].leader == x
      && Agree(h.elections[n.term].log, n.log.entries, |n.log.entries|)
      && |h.elections[n.term].start| <= |n.log.entries|
  {
    RunMember(ids, run, k, x);
    RunGrows(ids, run, k, last);
    var n := MemberAt(ids, run, k, x).node;
    assert LeaderOk(ids, HistoryAt(ids, run, k), x, n);
    assert ElectionOk(ids, HistoryAt(ids, run, k), n.term);
  }

  /** Election safety: at no two moments of a run do two nodes lead the same term. */
  lemma ElectionSafety(ids: set<NodeId>, run: seq<Action>, i: nat, j: nat, x: NodeId, y: NodeId)
    requires NOBODY !in ids && i <= |run| && j <= |run| && x in ids && y in ids
    requires MemberAt(ids, run, i, x).node.role == Leader && MemberAt(ids, run, j, y).node.role == Leader
    requires MemberAt(ids, run, i, x).node.term == MemberAt(ids, run, j, y).node.term
    ensures x == y
  {
    LeaderRecorded(ids, run, i, |run|, x);
    LeaderRecorded(ids, run, j, |run|, y);
  }

  // ---------- Logs ----------

  lemma LogRecorded(ids: set<NodeId>, run: seq<Action>, k: nat, last: nat, x: NodeId)
    requires NOBODY !in ids && k <= last <= |run| && x in ids
    ensures FromLeaders(HistoryAt(ids, run, last), LogAt(ids, run, k, x))
  {
    RunMember(ids, run, k, x);
    RunGrows(ids, run, k, last);
    FromLeadersGrow(HistoryAt(ids, run, k), HistoryAt(ids, run, last), LogAt(ids, run, k, x));
  }

  /** Log matching, also between different moments of the run: two logs that hold
      the same term at the same index are identical up to that index. */
  lemma LogMatchingTheorem(ids: set<NodeId>, run: seq<Action>, i: nat, j: nat, x: NodeId, y: NodeId, k: nat)
    requires NOBODY !in ids && i <= |run| && j <= |run| && x in ids && y in ids
    requires k < |LogAt(ids, run, i, x)| && k < |LogAt(ids, run, j, y)|
    requires LogAt(ids, run, i, x)[k].term == LogAt(ids, run, j, y)[k].term
    ensures LogAt(ids, run, i, x)[..k + 1] == LogAt(ids, run, j, y)[..k + 1]
  {
    LogRecorded(ids, run, i, |run|, x);
    LogRecorded(ids, run, j, |run|, y);
    LogMatching(HistoryAt(ids, run, |run|), LogAt(ids, run, i, x), LogAt(ids, run, j, y), k);
  }

  /** Every log is gap-free and its terms never decrease nor exceed the node's. */
  lemma LogShape(ids: set<NodeId>, run: seq<Action>, k: nat, x: NodeId, i: nat, j: nat)
    requires NOBODY !in ids && k <= |run| && x in ids && i <= j < |LogAt(ids, run, k, x)|
    ensures var log := LogAt(ids, run, k, x);
      log[j].index == j + 1 && log[i].term <= log[j].term <= MemberAt(ids, run, k, x).node.term
  {
    var h, log := HistoryAt(ids, run, k), LogAt(ids, run, k, x);
    RunMember(ids, run, k, x);
    assert Stems(h, log, j);
    TermsSorted(ids, h, log, i, j);
  }

  // ---------- Commitment ----------

  lemma CommitRecorded(ids: set<NodeId>, run: seq<Action>, k: nat, last: nat, x: NodeId)
    requires NOBODY !in ids && k <= last <= |run| && x in ids
    ensures var n := MemberAt(ids, run, k, x).node;
      && n.commitIndex <= |n.log.entries|
      && CommittedPrefix(ids, HistoryAt(ids, run, last), n.log.entries, n.commitIndex, n.term)
  {
    RunMember(ids, run, k, x);
    RunGrows(ids, run, k, last);
    var n := MemberAt(ids, run, k, x).node;
    CommittedPrefixGrows(ids, HistoryAt(ids, run, k), HistoryAt(ids, run, last), n.log.entries, n.log.entries, n.commitIndex, n.term, n.term);
  }

  lemma LaterStartHolds(ids: set<NodeId>, h: History, log: seq<Entry>, c: nat, term: nat, u: nat)
    requires HistoryOk(ids, h) && c <= |log| && CommittedPrefix(ids, h, log, c, term)
    requires u in h.elections && term < u
    ensures Agree(log, h.elections[u].start, c)
  {
    if c > 0 {
      var t: nat, i: nat :| t <= term && c <= i && Committed(ids, h, t, i) && Agree(log, h.elections[t].log, c);
      LeaderCompleteness(ids, h, t, i, u);
    }
  }

  /** Leader completeness: whatever a node ever takes as committed, every leader
      of a later term has throughout its rule, at whichever moments of the run
      the two are observed. */
  lemma LeaderCompletenessTheorem(ids: set<NodeId>, run: seq<Action>, i: nat, j: nat, x: NodeId, y: NodeId)
    requires NOBODY !in ids && i <= |run| && j <= |run| && x in ids && y in ids
    requires MemberAt(ids, run, j, y).node.role == Leader
    requires MemberAt(ids, run, j, y).node.term > MemberAt(ids, run, i, x).node.term
    ensures var n := MemberAt(ids, run, i, x).node;
      n.commitIndex <= |n.log.entries| && n.log.entries[..n.commitIndex] <= LogAt(ids, run, j, y)
  {
    hide StateAt, HistoryAt, MemberOk;
    var h, n, u := HistoryAt(ids, run, |run|), MemberAt(ids, run, i, x).node, MemberAt(ids, run, j, y).node.term;
    CommitRecorded(ids, run, i, |run|, x);
    LeaderRecorded(ids, run, j, |run|, y);
    RunMember(ids, run, |run|, x);
    LaterStartHolds(ids, h, n.log.entries, n.commitIndex, n.term, u);
    var log := LogAt(ids, run, j, y);
    assert ElectionOk(ids, h, u);
    assert Agree(n.log.entries, log, n.commitIndex);
  }

  lemma LaterLeaderAgrees(ids: set<NodeId>, h: History, t: nat, i: nat, u: nat)
    requires HistoryOk(ids, h) && Committed(ids, h, t, i) && u in h.elections && t < u
    ensures Agree(h.elections[t].log, h.elections[u].log, i)
  {
    LeaderCompleteness(ids, h, t, i, u);
    assert ElectionOk(ids, h, u);
  }

  /** Two committed prefixes of one history never disagree. */
  lemma CommittedAgree(ids: set<NodeId>, h: History, a: seq<Entry>, ca: nat, ta: nat, b: seq<Entry>, cb: nat, tb: nat)
    requires HistoryOk(ids, h) && ca <= |a| && cb <= |b|
    requires CommittedPrefix(ids, h, a, ca, ta) && CommittedPrefix(ids, h, b, cb, tb)
    ensures Agree(a, b, if ca < cb then ca else cb)
  {
    hide HistoryOk;
    if ca > 0 && cb > 0 {
      var t: nat, i: nat :| t <= ta && ca <= i && Committed(ids, h, t, i) && Agree(a, h.elections[t].log, ca);
      var u: nat, j: nat :| u <= tb && cb <= j && Committed(ids, h, u, j) && Agree(b, h.elections[u].log, cb);
      if t < u {
        LaterLeaderAgrees(ids, h, t, i, u);
      } else if u < t {
        LaterLeaderAgrees(ids, h, u, j, t);
      }
    }
  }

  /** Agreement on commitment: at any two moments, the committed prefixes of two
      nodes agree as far as both reach. */
  lemma CommitAgreement(ids: set<NodeId>, run: seq<Action>, i: nat, j: nat, x: NodeId, y: NodeId, k: nat)
    requires NOBODY !in ids && i <= |run| && j <= |run| && x in ids && y in ids
    requires k < MemberAt(ids, run, i, x).node.commitIndex && k < MemberAt(ids, run, j, y).node.commitIndex
    ensures k < |LogAt(ids, run, i, x)| && k < |LogAt(ids, run, j, y)|
    ensures LogAt(ids, run, i, x)[k] == LogAt(ids, run, j, y)[k]
  {
    var n, m := MemberAt(ids, run, i, x).node, MemberAt(ids, run, j, y).node;
    CommitRecorded(ids, run, i, |run|, x);
    CommitRecorded(ids, run, j, |run|, y);
    RunMember(ids, run, |run|, x);
    CommittedAgree(ids, HistoryAt(ids, run, |run|), n.log.entries, n.commitIndex, n.term, m.log.entries, m.commitIndex, m.term);
  }

  // ---------- Delivery ----------

  /** What a node has delivered is exactly indexes 1, 2, 3, ... up to
      `lastApplied`, all of them committed. */
  lemma DeliveryStream(ids: set<NodeId>, run: seq<Action>, k: nat, x: NodeId)
    requires NOBODY !in ids && k <= |run| && x in ids
    ensures var m := MemberAt(ids, run, k, x);
      && |m.delivered| == m.node.lastApplied <= m.node.commitIndex <= |m.node.log.entries|
      && m.delivered <= m.node.log.entries
      && forall i :: 0 <= i < |m.delivered| ==> m.delivered[i].index == i + 1
  {
    RunMember(ids, run, k, x);
    var h, m := HistoryAt(ids, run, k), MemberAt(ids, run, k, x);
    forall i | 0 <= i < |m.delivered| ensures m.delivered[i].index == i + 1 {
      assert Stems(h, m.node.log.entries, i);
      assert m.delivered[i] == m.node.log.entries[i];
    }
  }

  /** State machine safety: two nodes that deliver an entry at the same index, at
      any moments of the run, deliver the same entry. */
  lemma StateMachineSafety(ids: set<NodeId>, run: seq<Action>, i: nat, j: nat, x: NodeId, y: NodeId, a: Entry, b: Entry)
    requires NOBODY !in ids && i <= |run| && j <= |run| && x in ids && y in ids
    requires a in MemberAt(ids, run, i, x).delivered && b in MemberAt(ids, run, j, y).delivered
    requires a.index == b.index
    ensures a == b
  {
    DeliveryStream(ids, run, i, x);
    DeliveryStream(ids, run, j, y);
    var m, m' := MemberAt(ids, run, i, x), MemberAt(ids, run, j, y);
    var p :| 0 <= p < |m.delivered| && m.delivered[p] == a;
    var q :| 0 <= q < |m'.delivered| && m'.delivered[q] == b;
    CommitAgreement(ids, run, i, j, x, y, p);
  }
}
