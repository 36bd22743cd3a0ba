/** What one Raft node does, as functions on its state. Every function is one
    section the source runs under the node lock. Log compaction is part of the
    log value, so the functions are those of the source for compacted logs too. */
module RaftNode {
  import opened Bytes
  import opened Options
  import opened RaftTypes
  import opened RaftLog

  /** The log length at which a node compacts after delivering. */
  const COMPACT_THRESHOLD: nat := 10_000

  datatype NodeState = NodeState(
    term: nat,
    votedFor: NodeId,
    log: Log,
    role: Role,
    leader: NodeId,
    commitIndex: nat,
    lastApplied: nat,
    nextIndex: map<NodeId, nat>,
    matchIndex: map<NodeId, nat>)

  /** The vote counter of one election and whether it already made a leader. */
  datatype Tally = Tally(votes: nat, fired: bool)

  const FRESH: NodeState := NodeState(0, NOBODY, EMPTY, Follower, NOBODY, 0, 0, map[], map[])

  function VoteQuorum(peers: set<NodeId>): nat {
    (|peers| + 1) / 2 + 1
  }

  function CommitQuorum(peers: set<NodeId>): nat {
    (|peers| + 1 + 1) / 2
  }

  /** Reading an absent key gives 0. */
  function Lookup(m: map<NodeId, nat>, p: NodeId): nat {
    if p in m then m[p] else 0
  }

  // ---------- Roles ----------

  function BecomeFollower(n: NodeState, term: nat): NodeState {
    n.(role := Follower, term := term, votedFor := NOBODY)
  }

  /** Every key with the same value. */
  ghost function Fill(keys: set<NodeId>, v: nat): (m: map<NodeId, nat>)
    ensures m.Keys == keys && forall p :: p in m ==> m[p] == v
    decreases |keys|
  {
    if keys == {} then map[]
    else
      var p :| p in keys;
      Fill(keys - {p}, v)[p := v]
  }

  ghost function BecomeLeader(n: NodeState, id: NodeId, peers: set<NodeId>): NodeState {
    if n.role != Candidate then n
    else
      var last := n.log.LastIndex();
      n.(role := Leader, leader := id,
         nextIndex := Fill(peers, last + 1),
         matchIndex := Fill(peers, 0)[id := last])
  }

  // ---------- Elections ----------

  function StartElection(n: NodeState, id: NodeId): NodeState {
    if n.role == Leader then n
    else n.(role := Candidate, term := n.term + 1, votedFor := id, leader := NOBODY)
  }

  function VoteRequest(n: NodeState, id: NodeId): VoteArgs {
    VoteArgs(n.term, id, n.log.LastIndex(), n.log.LastTerm())
  }

  /** The second section of an election in a cluster of one. */
  ghost function ElectAlone(n: NodeState, id: NodeId, peers: set<NodeId>, term: nat, tally: Tally): (NodeState, Tally) {
    if tally.votes >= VoteQuorum(peers) && n.role == Candidate && n.term == term && !tally.fired
    then (BecomeLeader(n, id, peers), tally.(fired := true))
    else (n, tally)
  }

  function LogUpToDate(log: Log, lastIndex: nat, lastTerm: nat): bool {
    if lastTerm != log.LastTerm() then lastTerm > log.LastTerm() else lastIndex >= log.LastIndex()
  }

  function HandleVote(n: NodeState, args: VoteArgs): (NodeState, VoteReply) {
    if args.term < n.term then (n, VoteReply(n.term, false))
    else
      var m := if args.term > n.term then BecomeFollower(n, args.term) else n;
      if m.votedFor != NOBODY && m.votedFor != args.candidate then (m, VoteReply(m.term, false))
      else if !LogUpToDate(m.log, args.lastLogIndex, args.lastLogTerm) then (m, VoteReply(m.term, false))
      else (m.(votedFor := args.candidate), VoteReply(m.term, true))
  }

  /** One vote reply, for the election this node started in `term`. */
  ghost function CountVote(n: NodeState, id: NodeId, peers: set<NodeId>, term: nat, tally: Tally, reply: VoteReply)
    : (NodeState, Tally)
  {
    if reply.term > n.term then (BecomeFollower(n, reply.term), tally)
    else if !reply.granted || n.role != Candidate || n.term != term then (n, tally)
    else
      var votes := tally.votes + 1;
      if votes >= VoteQuorum(peers) && !tally.fired
      then (BecomeLeader(n, id, peers), Tally(votes, true))
      else (n, Tally(votes, tally.fired))
  }

  // ---------- Replication, leader side ----------

  /** The AppendEntries a leader sends to `peer`; nothing when it is not leader
      or the peer would need a snapshot. */
  function BuildAppend(n: NodeState, id: NodeId, peer: NodeId): Option<AppendArgs> {
    if n.role != Leader then None
    else
      var next := Lookup(n.nextIndex, peer);
      var prev := if next == 0 then MAX_UINT64 else next - 1;
      match n.log.Term(prev)
      case Found(prevTerm) =>
        Some(AppendArgs(n.term, id, prev, prevTerm,
                        n.log.Slice(next, n.log.LastIndex() + 1), n.commitIndex))
      case _ => None
  }

  /** Walks back from `i` for the last entry of `term`. */
  function BackUpIndex(log: Log, i: nat, term: nat, fallback: nat): nat {
    if i <= log.snapIndex then fallback
    else
      match log.Term(i)
      case Found(t) =>
        if t == term then i + 1
        else if t < term then fallback
        else BackUpIndex(log, i - 1, term, fallback)
      case _ => fallback
  }

  function NextAfterReject(n: NodeState, peer: NodeId, reply: AppendReply): nat {
    if reply.conflictTerm != 0 then
      BackUpIndex(n.log, n.log.LastIndex(), reply.conflictTerm, reply.conflictIndex)
    else if reply.conflictIndex > 0 then reply.conflictIndex
    else if Lookup(n.nextIndex, peer) > 1 then Lookup(n.nextIndex, peer) - 1
    else Lookup(n.nextIndex, peer)
  }

  /** The bookkeeping after a success, before the commit index moves. */
  function Acknowledged(n: NodeState, peer: NodeId, sent: nat): NodeState {
    var matched := if sent > Lookup(n.matchIndex, peer) then sent else Lookup(n.matchIndex, peer);
    n.(matchIndex := if sent > Lookup(n.matchIndex, peer) then n.matchIndex[peer := sent] else n.matchIndex,
       nextIndex := n.nextIndex[peer := matched + 1])
  }

  /** The nodes known to have replicated at least up to `k`. */
  function ReachedBy(m: map<NodeId, nat>, k: nat): set<NodeId> {
    set p | p in m && m[p] >= k
  }

  /** `k` is the greatest index that at least `q` of the recorded indexes reach. */
  ghost predicate IsQuorumIndex(m: map<NodeId, nat>, q: nat, k: nat) {
    |ReachedBy(m, k)| >= q && forall j :: j > k ==> |ReachedBy(m, j)| < q
  }

  ghost function UpperBound(s: set<nat>): (b: nat)
    ensures forall x :: x in s ==> x <= b
  {
    if s == {} then 0
    else
      var x :| x in s;
      var rest := UpperBound(s - {x});
      assert forall y :: y in s ==> y == x || y in s - {x};
      if x > rest then x else rest
  }

  lemma QuorumIndexBelow(m: map<NodeId, nat>, q: nat, top: nat)
    requires 1 <= q <= |m|
    requires forall j :: j > top ==> |ReachedBy(m, j)| < q
    ensures exists k: nat :: IsQuorumIndex(m, q, k)
  {
    assert ReachedBy(m, 0) == m.Keys;
    if |ReachedBy(m, top)| >= q {
      assert IsQuorumIndex(m, q, top);
    } else {
      QuorumIndexBelow(m, q, top - 1);
    }
  }

  lemma QuorumIndexExists(m: map<NodeId, nat>, q: nat)
    requires 1 <= q <= |m|
    ensures exists k: nat :: IsQuorumIndex(m, q, k)
  {
    var top := UpperBound(m.Values);
    forall j | j > top ensures |ReachedBy(m, j)| < q {
      assert forall p :: p in m ==> m[p] in m.Values;
      assert ReachedBy(m, j) == {};
    }
    QuorumIndexBelow(m, q, top);
  }

  ghost function QuorumIndex(m: map<NodeId, nat>, q: nat): (k: nat)
    requires 1 <= q <= |m|
    ensures IsQuorumIndex(m, q, k)
  {
    QuorumIndexExists(m, q);
    var k: nat :| IsQuorumIndex(m, q, k);
    k
  }

  /** Moves the commit index to the quorum index, but only over an entry of the
      current term. */
  ghost function AdvanceCommit(n: NodeState, peers: set<NodeId>): NodeState {
    if CommitQuorum(peers) > |n.matchIndex| then n
    else
      var k := QuorumIndex(n.matchIndex, CommitQuorum(peers));
      if k > n.commitIndex && n.log.Term(k) == Found(n.term) then n.(commitIndex := k) else n
  }

  ghost function HandleAppendReply(n: NodeState, peers: set<NodeId>, peer: NodeId, args: AppendArgs, reply: AppendReply)
    : NodeState
  {
    if reply.term > n.term then BecomeFollower(n, reply.term)
    else if n.role != Leader || n.term != args.term then n
    else if reply.success then
      AdvanceCommit(Acknowledged(n, peer, args.prevLogIndex + |args.entries|), peers)
    else if reply.conflictTerm == 0 && reply.conflictIndex == 0 && Lookup(n.nextIndex, peer) <= 1 then n
    else n.(nextIndex := n.nextIndex[peer := NextAfterReject(n, peer, reply)])
  }

  /** Nothing when the node is not the leader. */
  ghost function Propose(n: NodeState, id: NodeId, peers: set<NodeId>, command: seq<Byte>): Option<NodeState> {
    if n.role != Leader then None
    else
      var next := n.log.LastIndex() + 1;
      Some(AdvanceCommit(n.(log := n.log.Append([Entry(next, n.term, command)]),
                            matchIndex := n.matchIndex[id := next]), peers))
  }

  // ---------- Replication, follower side ----------

  /** The first index of the run of `term` that ends at `index`. */
  function RunStart(log: Log, index: nat, term: nat): nat {
    if index > log.snapIndex + 1 && log.Term(index - 1) == Found(term)
    then RunStart(log, index - 1, term)
    else index
  }

  function ConflictHint(log: Log, prevIndex: nat, prevTerm: nat): (nat, nat) {
    if prevIndex > log.LastIndex() then (log.LastIndex() + 1, 0)
    else (RunStart(log, prevIndex, prevTerm), prevTerm)
  }

  /** Skips entries already present, then replaces the tail at the first gap or
      term conflict. */
  function MergeEntries(log: Log, es: seq<Entry>): Log {
    if es == [] then log
    else
      match log.Term(es[0].index)
      case Found(t) =>
        if t != es[0].term then log.TruncateAfter(es[0].index).Append(es)
        else MergeEntries(log, es[1..])
      case _ => log.Append(es)
  }

  predicate PrevMatches(log: Log, args: AppendArgs) {
    args.prevLogIndex > 0 ==> log.Term(args.prevLogIndex) == Found(args.prevLogTerm)
  }

  function FollowerCommit(commitIndex: nat, leaderCommit: nat, lastIndex: nat): nat {
    if leaderCommit > commitIndex
    then if leaderCommit < lastIndex then leaderCommit else lastIndex
    else commitIndex
  }

  function HandleAppend(n: NodeState, args: AppendArgs): (NodeState, AppendReply) {
    if args.term < n.term then (n, AppendReply(n.term, false, 0, 0))
    else
      var m := (if args.term > n.term || n.role != Follower then BecomeFollower(n, args.term) else n)
               .(leader := args.leader);
      if !PrevMatches(m.log, args) then
        var (index, term) := ConflictHint(m.log, args.prevLogIndex, m.log.Term(args.prevLogIndex).OrZero());
        (m, AppendReply(m.term, false, index, term))
      else
        var log := MergeEntries(m.log, args.entries);
        (m.(log := log, commitIndex := FollowerCommit(m.commitIndex, args.leaderCommit, log.LastIndex())),
         AppendReply(m.term, true, 0, 0))
  }
}
