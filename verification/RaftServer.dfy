/** The node as an object whose methods update its fields in place. Each method
    is proved to change the node exactly as the function of RaftNode that the
    cluster theorems are about. */
module RaftServer {
  import opened Bytes
  import opened Options
  import opened RaftTypes
  import opened RaftLog
  import opened RaftNode

  function Members(s: seq<NodeId>): set<NodeId> {
    set p | p in s
  }

  ghost predicate Distinct(s: seq<NodeId>) {
    forall i, j :: 0 <= i < j < |s| ==> s[i] != s[j]
  }

  lemma {:induction false} DistinctCount(s: seq<NodeId>)
    requires Distinct(s)
    ensures |Members(s)| == |s|
  {
    if s != [] {
      var last := |s| - 1;
      DistinctCount(s[..last]);
      assert Members(s) == Members(s[..last]) + {s[last]};
    }
  }

  // ---------- The sorted pick of the commit index ----------

  /** `keys[i]` has recorded `indexes[i]`, each node once. */
  ghost predicate Tabulates(m: map<NodeId, nat>, keys: seq<NodeId>, indexes: seq<nat>) {
    && |keys| == |indexes| && Distinct(keys)
    && forall i :: 0 <= i < |keys| ==> keys[i] in m && m[keys[i]] == indexes[i]
  }

  ghost predicate Descending(s: seq<nat>) {
    forall i, j :: 0 <= i < j < |s| ==> s[i] >= s[j]
  }

  /** In descending order, position q-1 holds the greatest index that q nodes reach. */
  lemma SortedPick(m: map<NodeId, nat>, keys: seq<NodeId>, indexes: seq<nat>, q: nat)
    requires Tabulates(m, keys, indexes) && Members(keys) == m.Keys && Descending(indexes)
    requires 1 <= q <= |indexes|
    ensures q <= |m| && IsQuorumIndex(m, q, indexes[q - 1])
  {
    var k := indexes[q - 1];
    DistinctCount(keys);
    DistinctCount(keys[..q]);
    DistinctCount(keys[..q - 1]);
    assert Members(keys[..q]) <= ReachedBy(m, k);
    CardinalityMonotone(Members(keys[..q]), ReachedBy(m, k));
    forall j | j > k ensures |ReachedBy(m, j)| < q {
      forall p | p in ReachedBy(m, j) ensures p in Members(keys[..q - 1]) {
        var i :| 0 <= i < |keys| && keys[i] == p;
        assert i < q - 1;
        assert keys[..q - 1][i] == p;
      }
      CardinalityMonotone(ReachedBy(m, j), Members(keys[..q - 1]));
    }
  }

  lemma QuorumIndexUnique(m: map<NodeId, nat>, q: nat, j: nat, k: nat)
    requires IsQuorumIndex(m, q, j) && IsQuorumIndex(m, q, k)
    ensures j == k
  {
  }

  lemma InsertedMembers(keys: seq<NodeId>, at: nat, p: NodeId)
    requires at <= |keys|
    ensures Members(keys[..at] + [p] + keys[at..]) == Members(keys) + {p}
  {
    var keys' := keys[..at] + [p] + keys[at..];
    assert keys == keys[..at] + keys[at..];
    forall x | x in keys ensures x in keys' {
      assert x in keys[..at] || x in keys[at..];
    }
    assert keys'[at] == p;
  }

  lemma InsertedTable(m: map<NodeId, nat>, keys: seq<NodeId>, indexes: seq<nat>, at: nat, p: NodeId)
    requires Tabulates(m, keys, indexes) && at <= |indexes| && p in m && p !in keys
    ensures Tabulates(m, keys[..at] + [p] + keys[at..], indexes[..at] + [m[p]] + indexes[at..])
  {
  }

  lemma InsertedOrder(indexes: seq<nat>, at: nat, v: nat)
    requires Descending(indexes) && at <= |indexes|
    requires forall i :: 0 <= i < at ==> indexes[i] >= v
    requires at < |indexes| ==> indexes[at] < v
    ensures Descending(indexes[..at] + [v] + indexes[at..])
  {
    var longer := indexes[..at] + [v] + indexes[at..];
    forall i, j | 0 <= i < j < |longer| ensures longer[i] >= longer[j] {
      if j > at + 1 {
        assert indexes[at] >= indexes[j - 1];
      }
    }
  }

  /** Inserts one recorded index into a descending sequence. */
  method Insert(m: map<NodeId, nat>, indexes: seq<nat>, ghost keys: seq<NodeId>, p: NodeId)
    returns (longer: seq<nat>, ghost keys': seq<NodeId>)
    requires Tabulates(m, keys, indexes) && Descending(indexes) && p in m && p !in keys
    ensures Tabulates(m, keys', longer) && Descending(longer) && Members(keys') == Members(keys) + {p}
  {
    hide Descending, Members;
    var at := 0;
    while at < |indexes| && indexes[at] >= m[p]
      invariant 0 <= at <= |indexes|
      invariant forall i :: 0 <= i < at ==> indexes[i] >= m[p]
    {
      at := at + 1;
    }
    longer := indexes[..at] + [m[p]] + indexes[at..];
    keys' := keys[..at] + [p] + keys[at..];
    InsertedMembers(keys, at, p);
    InsertedTable(m, keys, indexes, at, p);
    InsertedOrder(indexes, at, m[p]);
  }

  /** All recorded indexes, greatest first. */
  method SortedIndexes(m: map<NodeId, nat>) returns (indexes: seq<nat>, ghost keys: seq<NodeId>)
    ensures Tabulates(m, keys, indexes) && Descending(indexes) && Members(keys) == m.Keys
  {
    indexes, keys := [], [];
    var left := m.Keys;
    while left != {}
      invariant left <= m.Keys && Members(keys) == m.Keys - left
      invariant Tabulates(m, keys, indexes) && Descending(indexes)
      decreases left
    {
      var p :| p in left;
      assert p !in Members(keys);
      indexes, keys := Insert(m, indexes, keys, p);
      left := left - {p};
    }
  }

  // ---------- The node ----------

  lemma FillUnique(m: map<NodeId, nat>, keys: set<NodeId>, v: nat)
    requires m.Keys == keys && forall p :: p in m ==> m[p] == v
    ensures m == Fill(keys, v)
  {
  }

  /** A new leader's view of its peers: everything left to send, nothing known
      to be replicated. */
  method PeerTables(peers: seq<NodeId>, last: nat) returns (next: map<NodeId, nat>, matched: map<NodeId, nat>)
    ensures next == Fill(Members(peers), last + 1) && matched == Fill(Members(peers), 0)
  {
    next, matched := map[], map[];
    for i := 0 to |peers|
      invariant next.Keys == matched.Keys == Members(peers[..i])
      invariant forall p :: p in next ==> next[p] == last + 1
      invariant forall p :: p in matched ==> matched[p] == 0
    {
      assert peers[..i + 1] == peers[..i] + [peers[i]];
      next := next[peers[i] := last + 1];
      matched := matched[peers[i] := 0];
    }
    assert peers[..|peers|] == peers;
    FillUnique(next, Members(peers), last + 1);
    FillUnique(matched, Members(peers), 0);
  }

  /** The counter and the once-flag that the vote goroutines of one election share. */
  class Election {
    const term: nat
    var votes: nat
    var fired: bool

    ghost function Count(): Tally
      reads this
    {
      Tally(votes, fired)
    }

    constructor (term: nat)
      ensures this.term == term && Count() == Tally(1, false)
    {
      this.term, votes, fired := term, 1, false;
    }
  }

  /** The commit channel, as the sequence of entries put on it. */
  class Channel {
    var sent: seq<Entry>
  }

  /** What one undisturbed pass of the apply loop delivers. */
  function Deliverable(n: NodeState): seq<Entry> {
    if n.commitIndex <= n.lastApplied then [] else n.log.Slice(n.lastApplied + 1, n.commitIndex + 1)
  }

  /** The log compacted up to the last applied entry, once it is long. */
  function Shortened(n: NodeState): NodeState {
    if |n.log.entries| < COMPACT_THRESHOLD then n
    else
      match n.log.Term(n.lastApplied)
      case Found(term) => n.(log := n.log.SetSnapshot(n.lastApplied, term))
      case _ => n
  }

  function AfterPass(n: NodeState): NodeState {
    if n.commitIndex <= n.lastApplied then n
    else
      var es := Deliverable(n);
      Shortened(n.(lastApplied := if es == [] then n.lastApplied else es[|es| - 1].index))
  }

  /** On an uncompacted log a pass delivers exactly the committed entries that
      were not delivered yet, and ends with all of them applied. */
  lemma PassExact(n: NodeState)
    requires n.log.Plain() && n.lastApplied <= n.commitIndex <= |n.log.entries|
    ensures Deliverable(n) == n.log.entries[n.lastApplied..n.commitIndex]
    ensures AfterPass(n).lastApplied == n.commitIndex
  {
    if n.lastApplied < n.commitIndex {
      assert n.log.entries[n.lastApplied..n.commitIndex][n.commitIndex - n.lastApplied - 1] == n.log.entries[n.commitIndex - 1];
    }
  }

  /** A log of 10,000 entries or more keeps only what comes after the last applied
      entry, whose index and term it remembers; a shorter one is left alone. */
  lemma CompactsExactly(n: NodeState)
    requires n.log.Plain() && n.lastApplied <= |n.log.entries|
    ensures |n.log.entries| < 10_000 ==> Shortened(n) == n
    ensures |n.log.entries| >= 10_000 && n.lastApplied > 0 ==>
      Shortened(n) == n.(log := Log(n.log.entries[n.lastApplied..], n.lastApplied, n.log.entries[n.lastApplied - 1].term))
    ensures n.lastApplied == 0 ==> Shortened(n) == n
  {
    assert n.log.entries[|n.log.entries|..] == [];
  }

  class Node {
    const id: NodeId
    const peers: seq<NodeId>
    const log: LogBuffer
    var currentTerm: nat
    var votedFor: NodeId
    var state: Role
    var leaderID: NodeId
    var commitIndex: nat
    var lastApplied: nat
    var nextIndex: map<NodeId, nat>
    var matchIndex: map<NodeId, nat>

    ghost function View(): NodeState
      reads this, log
    {
      NodeState(currentTerm, votedFor, log.Value(), state, leaderID, commitIndex, lastApplied, nextIndex, matchIndex)
    }

    /** The configuration lists every other node once. */
    ghost predicate Configured() {
      Distinct(peers) && id !in peers
    }

    constructor (id: NodeId, peers: seq<NodeId>)
      ensures this.id == id && this.peers == peers && View() == FRESH && fresh(log)
    {
      this.id, this.peers := id, peers;
      log := new LogBuffer();
      currentTerm, votedFor, state, leaderID := 0, NOBODY, Follower, NOBODY;
      commitIndex, lastApplied, nextIndex, matchIndex := 0, 0, map[], map[];
    }

    method BecomeFollower(term: nat)
      modifies this
      ensures View() == RaftNode.BecomeFollower(old(View()), term)
    {
      state := Follower;
      currentTerm := term;
      votedFor := NOBODY;
    }

    method BecomeLeader()
      requires Configured()
      modifies this
      ensures View() == RaftNode.BecomeLeader(old(View()), id, Members(peers))
    {
      hide Fill, Members;
      if state != Candidate { return; }
      state := Leader;
      leaderID := id;
      var last := log.LastIndex();
      nextIndex, matchIndex := PeerTables(peers, last);
      matchIndex := matchIndex[id := last];
    }

    method LogUpToDate(lastIndex: nat, lastTerm: nat) returns (ok: bool)
      ensures ok == RaftNode.LogUpToDate(log.Value(), lastIndex, lastTerm)
    {
      var myTerm := log.LastTerm();
      var myIndex := log.LastIndex();
      if lastTerm != myTerm { return lastTerm > myTerm; }
      return lastIndex >= myIndex;
    }

    /** The first section of an election; the caller sends the request to every peer. */
    method StartElection() returns (election: Election?, call: Option<VoteArgs>)
      modifies this
      ensures View() == RaftNode.StartElection(old(View()), id)
      ensures old(state) == Leader ==> election == null && call.None?
      ensures old(state) != Leader ==>
        && election != null && fresh(election) && election.term == currentTerm && election.Count() == Tally(1, false)
        && call == Some(VoteRequest(View(), id))
    {
      if state == Leader { return null, None; }
      state := Candidate;
      currentTerm := currentTerm + 1;
      votedFor := id;
      leaderID := NOBODY;
      var lastIndex := log.LastIndex();
      var lastTerm := log.LastTerm();
      election := new Election(currentTerm);
      call := Some(VoteArgs(currentTerm, id, lastIndex, lastTerm));
    }

    method FinishAlone(election: Election)
      requires Configured()
      modifies this, election
      ensures (View(), election.Count()) ==
              ElectAlone(old(View()), id, Members(peers), election.term, old(election.Count()))
    {
      DistinctCount(peers);
      if election.votes >= (|peers| + 1) / 2 + 1 {
        if state == Candidate && currentTerm == election.term && !election.fired {
          election.fired := true;
          BecomeLeader();
        }
      }
    }

    method HandleRequestVote(args: VoteArgs) returns (reply: VoteReply)
      modifies this
      ensures (View(), reply) == HandleVote(old(View()), args)
    {
      reply := VoteReply(currentTerm, false);
      if args.term < currentTerm { return; }
      if args.term > currentTerm {
        BecomeFollower(args.term);
        reply := VoteReply(currentTerm, false);
      }
      if votedFor != NOBODY && votedFor != args.candidate { return; }
      var ok := LogUpToDate(args.lastLogIndex, args.lastLogTerm);
      if !ok { return; }
      votedFor := args.candidate;
      reply := VoteReply(reply.term, true);
    }

    method CountVote(election: Election, reply: VoteReply)
      requires Configured()
      modifies this, election
      ensures (View(), election.Count()) ==
              RaftNode.CountVote(old(View()), id, Members(peers), election.term, old(election.Count()), reply)
    {
      DistinctCount(peers);
      if reply.term > currentTerm {
        BecomeFollower(reply.term);
        return;
      }
      if !reply.granted || state != Candidate || currentTerm != election.term { return; }
      election.votes := election.votes + 1;
      if election.votes >= (|peers| + 1) / 2 + 1 && !election.fired {
        election.fired := true;
        BecomeLeader();
      }
    }

    /** The send half of replication: no request when not leader or when only a
        snapshot would help. */
    method PrepareAppend(peer: NodeId) returns (call: Option<AppendArgs>)
      ensures call == BuildAppend(View(), id, peer)
    {
      if state != Leader { return None; }
      var next := if peer in nextIndex then nextIndex[peer] else 0;
      var prev := if next == 0 then MAX_UINT64 else next - 1;
      var prevTerm := log.Term(prev);
      if !prevTerm.Found? { return None; }
      var last := log.LastIndex();
      var es := log.Slice(next, last + 1);
      return Some(AppendArgs(currentTerm, id, prev, prevTerm.term, es, commitIndex));
    }

    method AdvanceCommitIndex()
      requires Configured()
      modifies this
      ensures View() == AdvanceCommit(old(View()), Members(peers))
    {
      var indexes;
      ghost var keys;
      indexes, keys := SortedIndexes(matchIndex);
      DistinctCount(keys);
      DistinctCount(peers);
      var quorum := (|peers| + 1 + 1) / 2;
      if quorum > |indexes| { return; }
      var newCommit := indexes[quorum - 1];
      SortedPick(matchIndex, keys, indexes, quorum);
      QuorumIndexUnique(matchIndex, quorum, newCommit, QuorumIndex(matchIndex, quorum));
      if newCommit > commitIndex {
        var t := log.Term(newCommit);
        if t == Found(currentTerm) {
          commitIndex := newCommit;
        }
      }
    }

    /** One past the last entry of `term`, or `fallback` without one. */
    method LastOfTerm(term: nat, fallback: nat) returns (next: nat)
      ensures next == BackUpIndex(log.Value(), log.Value().LastIndex(), term, fallback)
    {
      next := fallback;
      var i: int := log.LastIndex();
      while i > log.snapIndex
        invariant i >= 0
        invariant BackUpIndex(log.Value(), i, term, fallback) == BackUpIndex(log.Value(), log.Value().LastIndex(), term, fallback)
        invariant next == fallback
      {
        var t := log.Term(i);
        if !t.Found? { break; }
        if t.term == term { return i + 1; }
        if t.term < term { break; }
        i := i - 1;
      }
    }

    /** The reply half of replication. */
    method FinishAppend(peer: NodeId, args: AppendArgs, reply: AppendReply)
      requires Configured()
      modifies this
      ensures View() == HandleAppendReply(old(View()), Members(peers), peer, args, reply)
    {
      if reply.term > currentTerm {
        BecomeFollower(reply.term);
        return;
      }
      if state != Leader || currentTerm != args.term { return; }
      if reply.success {
        var sent := args.prevLogIndex + |args.entries|;
        if sent > (if peer in matchIndex then matchIndex[peer] else 0) {
          matchIndex := matchIndex[peer := sent];
        }
        nextIndex := nextIndex[peer := (if peer in matchIndex then matchIndex[peer] else 0) + 1];
        assert View() == Acknowledged(old(View()), peer, sent);
        AdvanceCommitIndex();
      } else if reply.conflictTerm != 0 {
        var next := LastOfTerm(reply.conflictTerm, reply.conflictIndex);
        nextIndex := nextIndex[peer := next];
      } else if reply.conflictIndex > 0 {
        nextIndex := nextIndex[peer := reply.conflictIndex];
      } else if peer in nextIndex && nextIndex[peer] > 1 {
        nextIndex := nextIndex[peer := nextIndex[peer] - 1];
      }
    }

    method ConflictHint(prevIndex: nat, prevTerm: nat) returns (index: nat, term: nat)
      ensures (index, term) == RaftNode.ConflictHint(log.Value(), prevIndex, prevTerm)
    {
      var last := log.LastIndex();
      if prevIndex > last { return last + 1, 0; }
      term := prevTerm;
      index := prevIndex;
      while index > log.snapIndex + 1
        invariant RunStart(log.Value(), index, term) == RunStart(log.Value(), prevIndex, prevTerm) && term == prevTerm
        decreases index
      {
        var t := log.Term(index - 1);
        if t != Found(term) { break; }
        index := index - 1;
      }
    }

    /** Walks the entries received; at the first gap or conflict the tail is replaced. */
    method Merge(es: seq<Entry>)
      modifies log
      ensures log.Value() == MergeEntries(old(log.Value()), es)
    {
      var i := 0;
      while i < |es|
        invariant 0 <= i <= |es| && log.Value() == old(log.Value())
        invariant MergeEntries(log.Value(), es[i..]) == MergeEntries(log.Value(), es)
        decreases |es| - i
      {
        var rest := es[i..];
        assert rest[0] == es[i] && rest[1..] == es[i + 1..];
        var existing := log.Term(es[i].index);
        if !existing.Found? {
          log.Append(rest);
          return;
        }
        if existing.term != es[i].term {
          log.TruncateAfter(es[i].index);
          log.Append(rest);
          return;
        }
        i := i + 1;
      }
    }

    method HandleAppendEntries(args: AppendArgs) returns (reply: AppendReply)
      modifies this, log
      ensures (View(), reply) == HandleAppend(old(View()), args)
    {
      reply := AppendReply(currentTerm, false, 0, 0);
      if args.term < currentTerm { return; }
      if args.term > currentTerm || state != Follower {
        BecomeFollower(args.term);
        reply := AppendReply(currentTerm, false, 0, 0);
      }
      leaderID := args.leader;
      if args.prevLogIndex > 0 {
        var prevTerm := log.Term(args.prevLogIndex);
        if prevTerm != Found(args.prevLogTerm) {
          var index, term := ConflictHint(args.prevLogIndex, prevTerm.OrZero());
          return AppendReply(reply.term, false, index, term);
        }
      }
      Merge(args.entries);
      if args.leaderCommit > commitIndex {
        var lastNew := log.LastIndex();
        commitIndex := if args.leaderCommit < lastNew then args.leaderCommit else lastNew;
      }
      return AppendReply(reply.term, true, 0, 0);
    }

    /** Returns false when this node is not the leader. */
    method Propose(command: seq<Byte>) returns (ok: bool)
      requires Configured()
      modifies this, log
      ensures ok == RaftNode.Propose(old(View()), id, Members(peers), command).Some?
      ensures View() == if ok then RaftNode.Propose(old(View()), id, Members(peers), command).value else old(View())
    {
      if state != Leader { return false; }
      var last := log.LastIndex();
      log.Append([Entry(last + 1, currentTerm, command)]);
      matchIndex := matchIndex[id := last + 1];
      AdvanceCommitIndex();
      return true;
    }

    /** Puts the entries on the channel one by one, recording each as applied. */
    method Deliver(es: seq<Entry>, out: Channel)
      modifies this`lastApplied, out
      ensures out.sent == old(out.sent) + es
      ensures lastApplied == if es == [] then old(lastApplied) else es[|es| - 1].index
    {
      for i := 0 to |es|
        invariant out.sent == old(out.sent) + es[..i]
        invariant lastApplied == if i == 0 then old(lastApplied) else es[i - 1].index
      {
        out.sent := out.sent + [es[i]];
        lastApplied := es[i].index;
        assert es[..i + 1] == es[..i] + [es[i]];
      }
    }

    method CompactIfLong()
      modifies log
      ensures View() == Shortened(old(View()))
    {
      if |log.entries| >= COMPACT_THRESHOLD {
        var t := log.Term(lastApplied);
        if t.Found? {
          log.SetSnapshot(lastApplied, t.term);
        }
      }
    }

    /** One pass of the apply loop that nothing disturbs, including the
        compaction at its end. */
    method ApplyCommitted(out: Channel)
      modifies this, log, out
      ensures out.sent == old(out.sent) + Deliverable(old(View()))
      ensures View() == AfterPass(old(View()))
    {
      hide Shortened;
      ghost var before := View();
      var commit, applied := commitIndex, lastApplied;
      if commit <= applied { return; }
      var es := log.Slice(applied + 1, commit + 1);
      assert es == Deliverable(before);
      Deliver(es, out);
      CompactIfLong();
    }
  }
}
