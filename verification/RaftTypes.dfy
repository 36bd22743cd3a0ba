/** The values Raft nodes exchange and store. Indexes and terms are unbounded
    naturals: the source's 64-bit counters never wrap in a feasible run. */
module RaftTypes {
  import opened Bytes

  type NodeId = string

  /** The empty string stands for "nobody" in `votedFor` and `leaderID`. */
  const NOBODY: NodeId := ""

  datatype Entry = Entry(index: nat, term: nat, command: seq<Byte>)

  datatype Role = Follower | Candidate | Leader

  datatype VoteArgs = VoteArgs(term: nat, candidate: NodeId, lastLogIndex: nat, lastLogTerm: nat)

  datatype VoteReply = VoteReply(term: nat, granted: bool)

  datatype AppendArgs = AppendArgs(
    term: nat, leader: NodeId, prevLogIndex: nat, prevLogTerm: nat,
    entries: seq<Entry>, leaderCommit: nat)

  datatype AppendReply = AppendReply(
    term: nat, success: bool, conflictIndex: nat, conflictTerm: nat)

  lemma CardinalityMonotone(a: set<NodeId>, b: set<NodeId>)
    requires a <= b
    ensures |a| <= |b|
  {
    assert b == a + (b - a);
  }
}
