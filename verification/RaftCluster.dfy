/** A cluster of Raft nodes over a network that may lose, delay, reorder and
    repeat requests and replies. Every sequence of actions is a run: an action
    whose guard fails does nothing. */
module RaftCluster {
  import opened Bytes
  import opened RaftTypes
  import opened RaftNode

  /** The apply loop: it copies both indexes under the node lock, reads the log
      after releasing it, and then delivers one entry at a time. */
  datatype Applier = Idle | Locked(commit: nat, applied: nat) | Sending(rest: seq<Entry>)

  /** A node with its current election's tally, the peers counted in it, its
      apply loop and the entries it has put on the commit channel. */
  datatype Member = Member(
    node: NodeState, tally: Tally, counted: set<NodeId>, applier: Applier, delivered: seq<Entry>)

  datatype VoteAnswer = VoteAnswer(from: NodeId, args: VoteArgs, reply: VoteReply)

  datatype AppendMessage = AppendMessage(to: NodeId, args: AppendArgs)

  datatype AppendAnswer = AppendAnswer(from: NodeId, args: AppendArgs, reply: AppendReply)

  /** Everything ever sent: nothing is removed, so any message may arrive at any
      later time, any number of times, or never. */
  datatype Network = Network(
    voteCalls: set<VoteArgs>, voteAnswers: set<VoteAnswer>,
    appends: set<AppendMessage>, appendAnswers: set<AppendAnswer>)

  datatype Cluster = Cluster(members: map<NodeId, Member>, net: Network)

  datatype Action =
    | Timeout(id: NodeId)
    | WinAlone(id: NodeId)
    | AnswerVote(id: NodeId, voteArgs: VoteArgs)
    | TakeVote(vote: VoteAnswer)
    | SendAppend(id: NodeId, peer: NodeId)
    | AnswerAppend(message: AppendMessage)
    | TakeAppend(answer: AppendAnswer)
    | ProposeAt(id: NodeId, command: seq<Byte>)
    | ReadCommit(id: NodeId)
    | ReadEntries(id: NodeId)
    | Deliver(id: NodeId)
    | StopDelivery(id: NodeId)

  const NEWCOMER: Member := Member(FRESH, Tally(0, false), {}, Idle, [])

  ghost function Newcomers(ids: set<NodeId>): (m: map<NodeId, Member>)
    ensures m.Keys == ids && forall x :: x in m ==> m[x] == NEWCOMER
    decreases |ids|
  {
    if ids == {} then map[]
    else
      var x :| x in ids;
      Newcomers(ids - {x})[x := NEWCOMER]
  }

  ghost function Initial(ids: set<NodeId>): Cluster {
    Cluster(Newcomers(ids), Network({}, {}, {}, {}))
  }

  function Peers(c: Cluster, x: NodeId): set<NodeId> {
    c.members.Keys - {x}
  }

  predicate Enabled(c: Cluster, a: Action) {
    match a
    case Timeout(x) => x in c.members && c.members[x].node.role != Leader
    case WinAlone(x) => x in c.members && Peers(c, x) == {}
    case AnswerVote(x, args) => x in c.members && x != args.candidate && args in c.net.voteCalls
    case TakeVote(v) =>
      && v in c.net.voteAnswers && v.args.candidate in c.members
      && !(v.args.term == c.members[v.args.candidate].node.term && v.from in c.members[v.args.candidate].counted)
    case SendAppend(x, peer) => x in c.members && peer in Peers(c, x)
    case AnswerAppend(msg) => msg in c.net.appends && msg.to in c.members
    case TakeAppend(ans) => ans in c.net.appendAnswers && ans.args.leader in c.members
    case ProposeAt(x, _) => x in c.members
    case ReadCommit(x) => x in c.members && c.members[x].applier.Idle?
    case ReadEntries(x) => x in c.members && c.members[x].applier.Locked?
    case Deliver(x) => x in c.members && c.members[x].applier.Sending?
    case StopDelivery(x) => x in c.members && c.members[x].applier.Sending? && c.members[x].applier.rest != []
  }

  // ---------- The new member, action by action ----------

  function AfterTimeout(m: Member, x: NodeId): Member {
    m.(node := StartElection(m.node, x), tally := Tally(1, false), counted := {})
  }

  ghost function AfterWinAlone(m: Member, x: NodeId, peers: set<NodeId>): Member {
    var (node, tally) := ElectAlone(m.node, x, peers, m.node.term, m.tally);
    m.(node := node, tally := tally)
  }

  ghost function AfterTakeVote(m: Member, peers: set<NodeId>, v: VoteAnswer): Member {
    var (node, tally) := CountVote(m.node, v.args.candidate, peers, v.args.term, m.tally, v.reply);
    m.(node := node, tally := tally,
       counted := if tally.votes > m.tally.votes then m.counted + {v.from} else m.counted)
  }

  ghost function AfterPropose(m: Member, x: NodeId, peers: set<NodeId>, command: seq<Byte>): Member {
    match Propose(m.node, x, peers, command)
    case Some(node) => m.(node := node)
    case None => m
  }

  function AfterReadCommit(m: Member): Member {
    if m.node.commitIndex <= m.node.lastApplied then m
    else m.(applier := Locked(m.node.commitIndex, m.node.lastApplied))
  }

  function AfterReadEntries(m: Member): Member
    requires m.applier.Locked?
  {
    m.(applier := Sending(m.node.log.Slice(m.applier.applied + 1, m.applier.commit + 1)))
  }

  /** Sends the next entry and records it as applied, or finishes the pass. The
      pass of a log that has reached the compaction threshold is not finished:
      the run ends there for that node. */
  function AfterDeliver(m: Member): Member
    requires m.applier.Sending?
  {
    var rest := m.applier.rest;
    if rest != [] then
      m.(applier := Sending(rest[1..]), delivered := m.delivered + [rest[0]],
         node := m.node.(lastApplied := rest[0].index))
    else if |m.node.log.entries| >= COMPACT_THRESHOLD then m
    else m.(applier := Idle)
  }

  // ---------- Steps and runs ----------

  ghost function Step(c: Cluster, a: Action): (c': Cluster)
    ensures c'.members.Keys == c.members.Keys
  {
    if !Enabled(c, a) then c
    else
      match a
      case Timeout(x) =>
        var m := AfterTimeout(c.members[x], x);
        Cluster(c.members[x := m], c.net.(voteCalls := c.net.voteCalls + {VoteRequest(m.node, x)}))
      case WinAlone(x) =>
        c.(members := c.members[x := AfterWinAlone(c.members[x], x, Peers(c, x))])
      case AnswerVote(x, args) =>
        var (node, reply) := HandleVote(c.members[x].node, args);
        Cluster(c.members[x := c.members[x].(node := node)],
                c.net.(voteAnswers := c.net.voteAnswers + {VoteAnswer(x, args, reply)}))
      case TakeVote(v) =>
        var x := v.args.candidate;
        c.(members := c.members[x := AfterTakeVote(c.members[x], Peers(c, x), v)])
      case SendAppend(x, peer) =>
        (match BuildAppend(c.members[x].node, x, peer)
         case Some(args) => c.(net := c.net.(appends := c.net.appends + {AppendMessage(peer, args)}))
         case None => c)
      case AnswerAppend(msg) =>
        var (node, reply) := HandleAppend(c.members[msg.to].node, msg.args);
        Cluster(c.members[msg.to := c.members[msg.to].(node := node)],
                c.net.(appendAnswers := c.net.appendAnswers + {AppendAnswer(msg.to, msg.args, reply)}))
      case TakeAppend(ans) =>
        var x := ans.args.leader;
        var node := HandleAppendReply(c.members[x].node, Peers(c, x), ans.from, ans.args, ans.reply);
        c.(members := c.members[x := c.members[x].(node := node)])
      case ProposeAt(x, command) =>
        c.(members := c.members[x := AfterPropose(c.members[x], x, Peers(c, x), command)])
      case ReadCommit(x) =>
        c.(members := c.members[x := AfterReadCommit(c.members[x])])
      case ReadEntries(x) =>
        c.(members := c.members[x := AfterReadEntries(c.members[x])])
      case Deliver(x) =>
        c.(members := c.members[x := AfterDeliver(c.members[x])])
      case StopDelivery(x) =>
        c.(members := c.members[x := c.members[x].(applier := Idle)])
  }

  /** The state after the first `k` actions. */
  ghost function StateAt(ids: set<NodeId>, run: seq<Action>, k: nat): (c: Cluster)
    requires k <= |run|
    ensures c.members.Keys == ids
  {
    if k == 0 then Initial(ids) else Step(StateAt(ids, run, k - 1), run[k - 1])
  }

  /** Node `x` after the first `k` actions. */
  ghost function MemberAt(ids: set<NodeId>, run: seq<Action>, k: nat, x: NodeId): Member
    requires k <= |run| && x in ids
  {
    StateAt(ids, run, k).members[x]
  }

  ghost function LogAt(ids: set<NodeId>, run: seq<Action>, k: nat, x: NodeId): seq<Entry>
    requires k <= |run| && x in ids
  {
    MemberAt(ids, run, k, x).node.log.entries
  }
}
