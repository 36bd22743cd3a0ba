/** Fast log back-up. A leader that probes a follower whose log stays as it is
    walks back strictly, never past the logs' common prefix, and is first
    accepted exactly there. */
module RaftBackup {
  import opened RaftTypes
  import opened RaftLog
  import opened RaftNode
  import opened RaftCluster
  import opened RaftHistory
  import opened RaftInvariant
  import opened RaftElectionSteps
  import opened RaftSafety

  /** How far two logs are identical. */
  function CommonPrefix(a: seq<Entry>, b: seq<Entry>): (k: nat)
    ensures k <= |a| && k <= |b| && a[..k] == b[..k]
    ensures k < |a| && k < |b| ==> a[k] != b[k]
  {
    if a == [] || b == [] || a[0] != b[0] then 0
    else
      var k := CommonPrefix(a[1..], b[1..]) + 1;
      assert a[..k] == [a[0]] + a[1..][..k - 1] && b[..k] == [b[0]] + b[1..][..k - 1];
      k
  }

  lemma CommonIsGreatest(a: seq<Entry>, b: seq<Entry>, k: nat)
    ensures Agree(a, b, k) <==> k <= CommonPrefix(a, b)
  {
    var c := CommonPrefix(a, b);
    if k <= c {
      assert a[..c] == b[..c];
      forall j | 0 <= j < k ensures a[j] == b[j] {
        assert a[..c][j] == b[..c][j];
      }
    }
  }

  // ---------- The two scans ----------

  lemma {:induction false} RunStartIs(log: Log, i: nat, t: nat)
    requires log.snapIndex == 0 && 1 <= i <= |log.entries| && log.entries[i - 1].term == t
    ensures var r := RunStart(log, i, t);
      && 1 <= r <= i && log.entries[r - 1].term == t
      && (r > 1 ==> log.entries[r - 2].term != t)
  {
    if i > 1 && log.entries[i - 2].term == t {
      RunStartIs(log, i - 1, t);
    }
  }

  /** The same in a log that stands for `full`: the run starts no lower than the
      first entry held. */
  lemma {:induction false} RunStartHeld(log: Log, full: seq<Entry>, i: nat, t: nat)
    requires Represents(log, full) && log.snapIndex < i <= |full| && full[i - 1].term == t
    ensures var r := RunStart(log, i, t);
      && log.snapIndex < r <= i
      && (forall j :: r - 1 <= j < i ==> full[j].term == t)
      && (r > log.snapIndex + 1 ==> full[r - 2].term != t)
  {
    TermRepresents(log, full, i - 1);
    if i > log.snapIndex + 1 && full[i - 2].term == t {
      RunStartHeld(log, full, i - 1, t);
    }
  }

  ghost predicate Sorted(log: seq<Entry>) {
    forall i, j :: 0 <= i <= j < |log| ==> log[i].term <= log[j].term
  }

  /** The scan finds the last entry of `t`, if there is one. */
  lemma {:induction false} BackUpFinds(log: Log, i: nat, t: nat, fallback: nat)
    requires log.snapIndex == 0 && i <= |log.entries| && Sorted(log.entries)
    ensures var r := BackUpIndex(log, i, t, fallback);
      || (r == fallback && forall j :: 0 <= j < i ==> log.entries[j].term != t)
      || (2 <= r <= i + 1 && log.entries[r - 2].term == t && forall j :: r - 1 <= j < i ==> log.entries[j].term != t)
  {
    if i > 0 && log.entries[i - 1].term > t {
      BackUpFinds(log, i - 1, t, fallback);
    }
  }

  // ---------- One probe ----------

  /** The same in a log that stands for `full`: only entries held are found. */
  lemma {:induction false} BackUpHeld(log: Log, full: seq<Entry>, i: nat, t: nat, fallback: nat)
    requires Represents(log, full) && i <= |full| && Sorted(full)
    ensures var r := BackUpIndex(log, i, t, fallback);
      || (r == fallback && forall j :: log.snapIndex <= j < i ==> full[j].term != t)
      || (log.snapIndex + 1 < r <= i + 1 && full[r - 2].term == t && forall j :: r - 1 <= j < i ==> full[j].term != t)
  {
    TermRepresents(log, full, i);
    if i > log.snapIndex && full[i - 1].term > t {
      BackUpHeld(log, full, i - 1, t, fallback);
    }
  }

  /** Taking a rejection of its own term moves the next index back: to one past
      the leader's last entry of the conflicting term, or to the index of the
      hint, or, without a hint, by one but not below 1. Nothing else changes. */
  lemma RejectionTaken(n: NodeState, peers: set<NodeId>, peer: NodeId, args: AppendArgs, reply: AppendReply)
    requires n.role == Leader && args.term == n.term && reply.term <= n.term && !reply.success
    requires n.log.Plain() && Sorted(n.log.entries) && peer in n.nextIndex
    ensures var n', log, hint := HandleAppendReply(n, peers, peer, args, reply), n.log.entries, reply.conflictIndex;
      && n' == n.(nextIndex := n'.nextIndex) && n'.nextIndex.Keys == n.nextIndex.Keys
      && n'.nextIndex == n.nextIndex[peer := n'.nextIndex[peer]]
      && var next := n'.nextIndex[peer];
      && (reply.conflictTerm == 0 && hint > 0 ==> next == hint)
      && (reply.conflictTerm == 0 && hint == 0 ==> next == if n.nextIndex[peer] > 1 then n.nextIndex[peer] - 1 else n.nextIndex[peer])
      && (reply.conflictTerm != 0 ==>
            || (next == hint && forall j :: 0 <= j < |log| ==> log[j].term != reply.conflictTerm)
            || (2 <= next <= |log| + 1 && log[next - 2].term == reply.conflictTerm &&
                forall j :: next - 1 <= j < |log| ==> log[j].term != reply.conflictTerm))
  {
    BackUpFinds(n.log, |n.log.entries|, reply.conflictTerm, reply.conflictIndex);
  }

  /** A leader and a follower of one run, with the leader about to probe. */
  ghost predicate Probing(ids: set<NodeId>, h: History, x: NodeId, n: NodeState, p: NodeId, f: NodeState) {
    && HistoryOk(ids, h) && LogOk(h, n) && LogOk(h, f)
    && n.role == Leader && f.term <= n.term
    && p in n.nextIndex && 1 <= n.nextIndex[p] <= |n.log.entries| + 1
  }

  lemma LogSorted(ids: set<NodeId>, h: History, log: seq<Entry>)
    requires HistoryOk(ids, h) && FromLeaders(h, log)
    ensures Sorted(log)
  {
    forall i, j | 0 <= i <= j < |log| ensures log[i].term <= log[j].term {
      TermsSorted(ids, h, log, i, j);
    }
  }

  /** The previous entry matches exactly when it lies in the common prefix. */
  lemma PrevMatchesIff(h: History, a: seq<Entry>, b: seq<Entry>, prev: nat)
    requires FromLeaders(h, a) && FromLeaders(h, b) && 1 <= prev <= |a|
    ensures prev <= |b| && a[prev - 1].term == b[prev - 1].term <==> prev <= CommonPrefix(a, b)
  {
    CommonIsGreatest(a, b, prev);
    if prev <= |b| && a[prev - 1].term == b[prev - 1].term {
      LogMatching(h, a, b, prev - 1);
    }
  }

  lemma SameRunBehind(h: History, a: seq<Entry>, b: seq<Entry>, prev: nat, i: nat)
    requires FromLeaders(h, a) && FromLeaders(h, b) && 1 <= prev <= |a| && prev <= |b|
    requires a[prev - 1].term != b[prev - 1].term
    requires 1 <= i <= |a| && a[i - 1].term == b[prev - 1].term
    ensures i < prev
  {
    assert Stems(h, a, i - 1) && Stems(h, b, prev - 1);
  }

  /** If the leader has entries of the conflicting term, its last one lies
      between the common prefix and the rejected index. Moving forward is ruled
      out because both logs stem from the leader of that term. */
  lemma ConflictTermBehind(ids: set<NodeId>, h: History, a: seq<Entry>, b: seq<Entry>, prev: nat, i: nat)
    requires HistoryOk(ids, h) && FromLeaders(h, a) && FromLeaders(h, b) && 1 <= prev <= |a| && prev <= |b|
    requires a[prev - 1].term != b[prev - 1].term
    requires 1 <= i <= |a| && a[i - 1].term == b[prev - 1].term
    requires forall j :: i <= j < |a| ==> a[j].term != b[prev - 1].term
    ensures CommonPrefix(a, b) <= i < prev
  {
    hide CommonPrefix, HistoryOk;
    var c := CommonPrefix(a, b);
    PrevMatchesIff(h, a, b, prev);
    SameRunBehind(h, a, b, prev, i);
    if i < c {
      CommonIsGreatest(a, b, c);
      assert a[c - 1].term == b[c - 1].term;
      TermsSorted(ids, h, b, c - 1, prev - 1);
      TermsSorted(ids, h, a, i - 1, c - 1);
      assert false;
    }
  }

  /** If it has none, the follower's run of that term starts after the common prefix. */
  lemma RunStartsAfterCommon(a: seq<Entry>, b: seq<Entry>, r: nat, t: nat)
    requires 1 <= r <= |b| && b[r - 1].term == t
    requires forall j :: 0 <= j < |a| ==> a[j].term != t
    ensures r >= CommonPrefix(a, b) + 1
  {
    CommonIsGreatest(a, b, CommonPrefix(a, b));
  }

  /** Where a rejection at `prev` sends the leader. */
  lemma BackUpTarget(ids: set<NodeId>, h: History, n: NodeState, f: NodeState, prev: nat)
    requires HistoryOk(ids, h) && LogOk(h, n) && LogOk(h, f)
    requires 1 <= prev <= |n.log.entries| && prev <= |f.log.entries|
    requires n.log.entries[prev - 1].term != f.log.entries[prev - 1].term
    ensures var t := f.log.entries[prev - 1].term;
      var next := BackUpIndex(n.log, |n.log.entries|, t, RunStart(f.log, prev, t));
      t >= 1 && CommonPrefix(n.log.entries, f.log.entries) + 1 <= next <= prev
  {
    var a, b := n.log.entries, f.log.entries;
    var t := b[prev - 1].term;
    var start := RunStart(f.log, prev, t);
    var next := BackUpIndex(n.log, |a|, t, start);
    assert Stems(h, b, prev - 1);
    assert ElectionOk(ids, h, t);
    RunStartIs(f.log, prev, t);
    LogSorted(ids, h, a);
    BackUpFinds(n.log, |a|, t, start);
    if next == start && forall j :: 0 <= j < |a| ==> a[j].term != t {
      RunStartsAfterCommon(a, b, start, t);
    } else {
      ConflictTermBehind(ids, h, a, b, prev, next - 1);
    }
  }

  /** The exchange of one probe: what the leader and the follower become. */
  ghost function Exchange(n: NodeState, x: NodeId, peers: set<NodeId>, p: NodeId, f: NodeState): (NodeState, NodeState, bool) {
    match BuildAppend(n, x, p)
    case None => (n, f, false)
    case Some(args) =>
      var (f', reply) := HandleAppend(f, args);
      (HandleAppendReply(n, peers, p, args, reply), f', reply.success)
  }

  /** The request a probe sends, and that it is accepted exactly when it starts
      inside the common prefix. */
  lemma ProbeSent(ids: set<NodeId>, h: History, x: NodeId, n: NodeState, p: NodeId, f: NodeState)
    requires Probing(ids, h, x, n, p, f)
    ensures var args := BuildAppend(n, x, p);
      && args.Some?
      && args.value.term == n.term && args.value.prevLogIndex == n.nextIndex[p] - 1
      && (HandleAppend(f, args.value).1.success <==> n.nextIndex[p] <= CommonPrefix(n.log.entries, f.log.entries) + 1)
  {
    LogFacts(h, n);
    var prev := n.nextIndex[p] - 1;
    if prev > 0 {
      PrevMatchesIff(h, n.log.entries, f.log.entries, prev);
    }
  }

  lemma ProbeHint(ids: set<NodeId>, h: History, n: NodeState, f: NodeState, args: AppendArgs)
    requires HistoryOk(ids, h) && LogOk(h, n) && LogOk(h, f) && args.term >= f.term
    requires 1 <= args.prevLogIndex <= |n.log.entries| && args.prevLogTerm == n.log.entries[args.prevLogIndex - 1].term
    requires !HandleAppend(f, args).1.success
    ensures var (f', reply) := HandleAppend(f, args);
      && f'.log == f.log && f'.term == args.term && reply.term == args.term
      && (reply.conflictTerm == 0 ==>
            reply.conflictIndex == |f.log.entries| + 1 <= args.prevLogIndex)
      && (reply.conflictTerm != 0 ==>
            && args.prevLogIndex <= |f.log.entries|
            && reply.conflictTerm == f.log.entries[args.prevLogIndex - 1].term != args.prevLogTerm
            && reply.conflictIndex == RunStart(f.log, args.prevLogIndex, reply.conflictTerm))
  {
    LogFacts(h, f);
    var prev := args.prevLogIndex;
    if prev <= |f.log.entries| {
      assert Stems(h, f.log.entries, prev - 1);
      assert ElectionOk(ids, h, f.log.entries[prev - 1].term);
    }
  }

  /** A rejected probe strictly lowers `nextIndex`, to no less than one past the
      common prefix, and changes neither log. */
  lemma ProbeRejected(ids: set<NodeId>, h: History, x: NodeId, n: NodeState, p: NodeId, f: NodeState)
    requires Probing(ids, h, x, n, p, f) && n.nextIndex[p] > CommonPrefix(n.log.entries, f.log.entries) + 1
    ensures var (n', f', ok) := Exchange(n, x, ids - {x}, p, f);
      && !ok && Probing(ids, h, x, n', p, f')
      && n' == n.(nextIndex := n'.nextIndex) && f'.log == f.log
      && CommonPrefix(n.log.entries, f.log.entries) + 1 <= n'.nextIndex[p] < n.nextIndex[p]
  {
    ProbeSent(ids, h, x, n, p, f);
    LogFacts(h, n);
    var args := BuildAppend(n, x, p).value;
    ProbeHint(ids, h, n, f, args);
    var (f', reply) := HandleAppend(f, args);
    if reply.conflictTerm != 0 {
      BackUpTarget(ids, h, n, f, args.prevLogIndex);
    }
    assert HandleAppendReply(n, ids - {x}, p, args, reply) == n.(nextIndex := n.nextIndex[p := NextAfterReject(n, p, reply)]);
  }

  // ---------- Probing until accepted ----------

  /** `rounds` exchanges in a row. */
  ghost function Exchanges(n: NodeState, x: NodeId, peers: set<NodeId>, p: NodeId, f: NodeState, rounds: nat): (NodeState, NodeState)
    decreases rounds
  {
    if rounds == 0 then (n, f)
    else
      var (n', f', _) := Exchange(n, x, peers, p, f);
      Exchanges(n', x, peers, p, f', rounds - 1)
  }

  /** The probe sent after `rounds` exchanges is accepted. */
  ghost predicate AcceptedAfter(n: NodeState, x: NodeId, peers: set<NodeId>, p: NodeId, f: NodeState, rounds: nat) {
    var (n', f') := Exchanges(n, x, peers, p, f, rounds);
    Exchange(n', x, peers, p, f').2
  }

  /** The probe after `rounds` exchanges is the first that is accepted. */
  ghost predicate FirstAccepted(n: NodeState, x: NodeId, peers: set<NodeId>, p: NodeId, f: NodeState, rounds: nat) {
    && AcceptedAfter(n, x, peers, p, f, rounds)
    && forall r :: 0 <= r < rounds ==> !AcceptedAfter(n, x, peers, p, f, r)
  }

  lemma OneMoreProbe(n: NodeState, x: NodeId, peers: set<NodeId>, p: NodeId, f: NodeState, more: nat)
    requires var (n', f', ok) := Exchange(n, x, peers, p, f);
      !ok && FirstAccepted(n', x, peers, p, f', more)
    ensures FirstAccepted(n, x, peers, p, f, more + 1)
  {
    hide Exchange;
    var (n', f', ok) := Exchange(n, x, peers, p, f);
    forall r: nat | r <= more ensures AcceptedAfter(n, x, peers, p, f, r + 1) == AcceptedAfter(n', x, peers, p, f', r) {
    }
    assert !AcceptedAfter(n, x, peers, p, f, 0);
    forall r | 0 <= r < more + 1 ensures !AcceptedAfter(n, x, peers, p, f, r) {
      if r > 0 {
        assert AcceptedAfter(n, x, peers, p, f, r - 1 + 1) == AcceptedAfter(n', x, peers, p, f', r - 1);
      }
    }
  }

  lemma {:induction false} ProbingEnds(ids: set<NodeId>, h: History, x: NodeId, n: NodeState, p: NodeId, f: NodeState)
    returns (rounds: nat)
    requires Probing(ids, h, x, n, p, f)
    ensures rounds < n.nextIndex[p]
    ensures var (n', f') := Exchanges(n, x, ids - {x}, p, f, rounds);
      && n'.log == n.log && f'.log == f.log && p in n'.nextIndex
      && (rounds > 0 ==> n'.nextIndex[p] == CommonPrefix(n.log.entries, f.log.entries) + 1)
    ensures FirstAccepted(n, x, ids - {x}, p, f, rounds)
    decreases if p in n.nextIndex then n.nextIndex[p] else 0
  {
    hide BuildAppend, HandleAppend, HandleAppendReply, HistoryOk, LogOk, CommonPrefix;
    ProbeSent(ids, h, x, n, p, f);
    if n.nextIndex[p] <= CommonPrefix(n.log.entries, f.log.entries) + 1 {
      rounds := 0;
    } else {
      ProbeRejected(ids, h, x, n, p, f);
      var (n', f', _) := Exchange(n, x, ids - {x}, p, f);
      var more := ProbingEnds(ids, h, x, n', p, f');
      ProbeSent(ids, h, x, n', p, f');
      rounds := more + 1;
      OneMoreProbe(n, x, ids - {x}, p, f, more);
    }
  }

  /** At any moment of any run, a leader that keeps probing a peer not ahead of
      it in term, with nothing else happening to the two, is rejected fewer
      times than its `nextIndex` and then accepted; and if it had to back off at
      all, it is first accepted exactly one past the longest prefix the two logs share. */
  lemma FastBackUp(ids: set<NodeId>, run: seq<Action>, k: nat, x: NodeId, p: NodeId) returns (rounds: nat)
    requires NOBODY !in ids && k <= |run| && x in ids && p in ids && p != x
    requires MemberAt(ids, run, k, x).node.role == Leader
    requires MemberAt(ids, run, k, p).node.term <= MemberAt(ids, run, k, x).node.term
    ensures var n, f := MemberAt(ids, run, k, x).node, MemberAt(ids, run, k, p).node;
      && p in n.nextIndex && rounds < n.nextIndex[p] <= |n.log.entries| + 1
      && var (n', f') := Exchanges(n, x, ids - {x}, p, f, rounds);
      && n'.log == n.log && f'.log == f.log && p in n'.nextIndex
      && FirstAccepted(n, x, ids - {x}, p, f, rounds)
      && (rounds > 0 ==> n'.nextIndex[p] == CommonPrefix(n.log.entries, f.log.entries) + 1)
  {
    hide FirstAccepted, Exchanges, HistoryAt, StateAt;
    var h, n, f := HistoryAt(ids, run, k), MemberAt(ids, run, k, x).node, MemberAt(ids, run, k, p).node;
    RunMember(ids, run, k, x);
    RunMember(ids, run, k, p);
    assert LeaderOk(ids, h, x, n) && NextOk(ids, x, n) && p in n.nextIndex;
    rounds := ProbingEnds(ids, h, x, n, p, f);
  }
}
