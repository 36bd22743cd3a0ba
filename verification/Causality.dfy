/** Runs of communicating nodes that keep vector clocks, and the theorem the
    clocks exist for: their order is causality. */
module Causality {
  import opened VectorClock

  /** A receive names the send event whose message it takes. Messages may be
      lost, reordered and taken more than once. */
  datatype Event = Local(node: NodeId) | Send(node: NodeId) | Receive(node: NodeId, from: nat)

  ghost predicate ValidAt(run: seq<Event>, j: nat)
    requires j < |run|
  {
    run[j].Receive? ==> run[j].from < j && run[run[j].from].Send?
  }

  ghost predicate Valid(run: seq<Event>) {
    forall j {:trigger ValidAt(run, j)} :: 0 <= j < |run| ==> ValidAt(run, j)
  }

  /** The node's previous event, one past its position; 0 if there is none. */
  function PrevPlus(run: seq<Event>, j: nat, node: NodeId): (k: nat)
    requires j <= |run|
    ensures k <= j && (k > 0 ==> run[k - 1].node == node)
    ensures forall i :: k <= i < j ==> run[i].node != node
  {
    if j == 0 then 0 else if run[j - 1].node == node then j else PrevPlus(run, j - 1, node)
  }

  /** A receive merges the message's clock into the node's clock first; every
      event then counts itself. */
  ghost function ClockAt(run: seq<Event>, j: nat): Clock
    requires Valid(run) && j < |run|
    decreases j
  {
    assert ValidAt(run, j);
    var k := PrevPlus(run, j, run[j].node);
    var own := if k == 0 then map[] else ClockAt(run, k - 1);
    var merged := if run[j].Receive? then Merged(own, ClockAt(run, run[j].from)) else own;
    Incremented(merged, run[j].node)
  }

  /** The node's clock just before event `j`. */
  ghost function OwnBefore(run: seq<Event>, j: nat): Clock
    requires Valid(run) && j < |run|
  {
    var k := PrevPlus(run, j, run[j].node);
    if k == 0 then map[] else ClockAt(run, k - 1)
  }

  // ---------- Causality, independently of clocks ----------

  /** Earlier at the same node, or the sending of the message received. */
  predicate Direct(run: seq<Event>, i: nat, j: nat)
    requires i < |run| && j < |run|
  {
    i < j && (run[i].node == run[j].node || (run[j].Receive? && run[j].from == i))
  }

  ghost predicate Chain(run: seq<Event>, p: seq<nat>) {
    && (forall k {:trigger p[k]} :: 0 <= k < |p| ==> p[k] < |run|)
    && forall k {:trigger p[k]} :: 0 <= k < |p| - 1 ==> Direct(run, p[k], p[k + 1])
  }

  /** `i` happened before `j`: a chain of direct steps leads from one to the other. */
  ghost predicate Causes(run: seq<Event>, i: nat, j: nat) {
    exists p: seq<nat> :: |p| >= 2 && Chain(run, p) && p[0] == i && p[|p| - 1] == j
  }

  ghost predicate Reaches(run: seq<Event>, i: nat, j: nat)
    requires j < |run|
    decreases j
  {
    i == j || exists k: nat :: k < j && Direct(run, k, j) && Reaches(run, i, k)
  }

  lemma {:induction false} ReachesEarlier(run: seq<Event>, i: nat, j: nat)
    requires j < |run| && Reaches(run, i, j)
    ensures i <= j
    decreases j
  {
    if i != j {
      var k: nat :| k < j && Direct(run, k, j) && Reaches(run, i, k);
      ReachesEarlier(run, i, k);
    }
  }

  lemma {:induction false} ChainReaches(run: seq<Event>, p: seq<nat>)
    requires |p| >= 1 && Chain(run, p)
    ensures Reaches(run, p[0], p[|p| - 1])
  {
    if |p| > 1 {
      var q := p[..|p| - 1];
      assert Chain(run, q) by {
        forall k | 0 <= k < |q| - 1 ensures Direct(run, q[k], q[k + 1]) {
          assert q[k] == p[k] && q[k + 1] == p[k + 1];
        }
      }
      ChainReaches(run, q);
      assert q[|q| - 1] == p[|p| - 2];
      assert Direct(run, p[|p| - 2], p[|p| - 2 + 1]);
    }
  }

  lemma {:induction false} ReachesChain(run: seq<Event>, i: nat, j: nat) returns (p: seq<nat>)
    requires j < |run| && Reaches(run, i, j)
    ensures |p| >= 1 && Chain(run, p) && p[0] == i && p[|p| - 1] == j && (i != j ==> |p| >= 2)
    decreases j
  {
    if i == j {
      p := [i];
    } else {
      var k: nat :| k < j && Direct(run, k, j) && Reaches(run, i, k);
      var q := ReachesChain(run, i, k);
      p := q + [j];
      assert Chain(run, p) by {
        forall m | 0 <= m < |p| - 1 ensures Direct(run, p[m], p[m + 1]) {
          assert p[m] == q[m];
          if m < |q| - 1 {
            assert p[m + 1] == q[m + 1];
          }
        }
      }
    }
  }

  lemma {:induction false} ChainClimbs(run: seq<Event>, p: seq<nat>)
    requires |p| >= 2 && Chain(run, p)
    ensures p[0] < p[|p| - 1]
  {
    var q := p[..|p| - 1];
    assert Direct(run, p[|p| - 2], p[|p| - 2 + 1]);
    if |q| >= 2 {
      assert Chain(run, q) by {
        forall k | 0 <= k < |q| - 1 ensures Direct(run, q[k], q[k + 1]) {
          assert q[k] == p[k] && q[k + 1] == p[k + 1];
        }
      }
      ChainClimbs(run, q);
    }
  }

  lemma CausesIsReaches(run: seq<Event>, i: nat, j: nat)
    requires i < |run| && j < |run|
    ensures Causes(run, i, j) <==> i != j && Reaches(run, i, j)
  {
    if Causes(run, i, j) {
      var p: seq<nat> :| |p| >= 2 && Chain(run, p) && p[0] == i && p[|p| - 1] == j;
      ChainReaches(run, p);
      ChainClimbs(run, p);
    }
    if i != j && Reaches(run, i, j) {
      var p := ReachesChain(run, i, j);
    }
  }

  // ---------- What the counters count ----------

  /** How many of the first `j` events are at `node`. */
  function Count(run: seq<Event>, node: NodeId, j: nat): (n: nat)
    requires j <= |run|
    ensures n <= j
  {
    if j == 0 then 0 else Count(run, node, j - 1) + if run[j - 1].node == node then 1 else 0
  }

  lemma {:induction false} CountMonotone(run: seq<Event>, node: NodeId, i: nat, j: nat)
    requires i <= j <= |run|
    ensures Count(run, node, i) <= Count(run, node, j)
    ensures (forall k :: i <= k < j ==> run[k].node != node) ==> Count(run, node, i) == Count(run, node, j)
    decreases j
  {
    if i < j {
      CountMonotone(run, node, i, j - 1);
    }
  }

  /** None of the first `n` events makes a counter wrap around. */
  ghost predicate NoWrap(run: seq<Event>, n: nat)
    requires n <= |run|
  {
    forall q {:trigger Count(run, q, n)} :: Count(run, q, n) < WRAP
  }

  lemma NoWrapEarlier(run: seq<Event>, m: nat, n: nat)
    requires m <= n <= |run| && NoWrap(run, n)
    ensures NoWrap(run, m)
  {
    forall q ensures Count(run, q, m) < WRAP {
      CountMonotone(run, q, m, n);
    }
  }

  /** The counter of `q` just before event `j` counts itself. */
  ghost function BaseAt(run: seq<Event>, j: nat, q: NodeId): nat
    requires Valid(run) && j < |run|
  {
    assert ValidAt(run, j);
    var own := Get(OwnBefore(run, j), q);
    if run[j].Receive? && Get(ClockAt(run, run[j].from), q) > own then Get(ClockAt(run, run[j].from), q) else own
  }

  lemma ClockIs(run: seq<Event>, j: nat)
    requires Valid(run) && j < |run|
    ensures ValidAt(run, j)
    ensures ClockAt(run, j) ==
      Incremented(if run[j].Receive? then Merged(OwnBefore(run, j), ClockAt(run, run[j].from)) else OwnBefore(run, j), run[j].node)
  {
    hide Incremented, Merged, PrevPlus;
    assert ValidAt(run, j);
  }

  lemma ClockEquation(run: seq<Event>, j: nat, q: NodeId)
    requires Valid(run) && j < |run|
    ensures Get(ClockAt(run, j), q) ==
            if q == run[j].node then (BaseAt(run, j, q) + 1) % WRAP else BaseAt(run, j, q)
  {
    hide Incremented, Merged, OwnBefore, ClockAt;
    ClockIs(run, j);
    var own := OwnBefore(run, j);
    if run[j].Receive? {
      var message := ClockAt(run, run[j].from);
      MergedAt(own, message, q);
      IncrementedAt(Merged(own, message), run[j].node, q);
    } else {
      IncrementedAt(own, run[j].node, q);
    }
  }

  lemma OwnCounter(run: seq<Event>, j: nat, q: NodeId)
    requires Valid(run) && j < |run|
    ensures var k := PrevPlus(run, j, run[j].node);
      Get(OwnBefore(run, j), q) == if k == 0 then 0 else Get(ClockAt(run, k - 1), q)
  {
    hide ClockAt, PrevPlus;
  }

  /** What the counter was before the event: at most the events so far at `q`,
      and all of them if the event is at `q`. */
  lemma BaseBound(run: seq<Event>, j: nat, q: NodeId)
    requires Valid(run) && j < |run| && NoWrap(run, j)
    ensures BaseAt(run, j, q) <= Count(run, q, j)
    ensures run[j].node == q ==> BaseAt(run, j, q) == Count(run, q, j)
    decreases j, 0
  {
    hide ClockAt, OwnBefore;
    assert ValidAt(run, j);
    var k := PrevPlus(run, j, run[j].node);
    OwnCounter(run, j, q);
    CountMonotone(run, q, k, j);
    if k > 0 {
      NoWrapEarlier(run, k, j);
      CounterBound(run, k - 1, q);
    }
    if run[j].Receive? {
      NoWrapEarlier(run, run[j].from + 1, j);
      CounterBound(run, run[j].from, q);
      CountMonotone(run, q, run[j].from + 1, j);
    }
  }

  /** No counter exceeds the events it could have counted, and a node's own
      counter has counted them all. */
  lemma CounterBound(run: seq<Event>, j: nat, q: NodeId)
    requires Valid(run) && j < |run| && NoWrap(run, j + 1)
    ensures Get(ClockAt(run, j), q) <= Count(run, q, j + 1)
    ensures run[j].node == q ==> Get(ClockAt(run, j), q) == Count(run, q, j + 1)
    decreases j, 1
  {
    hide ClockAt, BaseAt;
    ClockEquation(run, j, q);
    NoWrapEarlier(run, j, j + 1);
    BaseBound(run, j, q);
  }

  // ---------- Clocks grow along causality ----------

  /** Without wrap-around an event's clock is above what it was made from. */
  lemma AboveSources(run: seq<Event>, j: nat)
    requires Valid(run) && j < |run| && NoWrap(run, |run|)
    ensures AtMost(OwnBefore(run, j), ClockAt(run, j))
    ensures run[j].Receive? ==> run[j].from < j && AtMost(ClockAt(run, run[j].from), ClockAt(run, j))
  {
    hide ClockAt;
    assert ValidAt(run, j);
    forall q ensures BaseAt(run, j, q) <= Get(ClockAt(run, j), q) {
      ClockEquation(run, j, q);
      NoWrapEarlier(run, j + 1, |run|);
      CounterBound(run, j, q);
      NoWrapEarlier(run, j, |run|);
      BaseBound(run, j, q);
    }
  }

  lemma AtMostTransitive(a: Clock, b: Clock, c: Clock)
    requires AtMost(a, b) && AtMost(b, c)
    ensures AtMost(a, c)
  {
    forall x ensures Get(a, x) <= Get(c, x) {
      assert Get(a, x) <= Get(b, x);
    }
  }

  lemma {:induction false} ProgramOrderGrows(run: seq<Event>, i: nat, j: nat)
    requires Valid(run) && i < j < |run| && NoWrap(run, |run|) && run[i].node == run[j].node
    ensures AtMost(ClockAt(run, i), ClockAt(run, j))
    decreases j
  {
    hide ClockAt;
    var k := PrevPlus(run, j, run[j].node);
    AboveSources(run, j);
    if i < k - 1 {
      ProgramOrderGrows(run, i, k - 1);
      AtMostTransitive(ClockAt(run, i), ClockAt(run, k - 1), ClockAt(run, j));
    }
  }

  lemma DirectGrows(run: seq<Event>, i: nat, j: nat)
    requires Valid(run) && i < |run| && j < |run| && NoWrap(run, |run|) && Direct(run, i, j)
    ensures AtMost(ClockAt(run, i), ClockAt(run, j))
  {
    hide ClockAt;
    if run[i].node == run[j].node {
      ProgramOrderGrows(run, i, j);
    } else {
      AboveSources(run, j);
    }
  }

  lemma {:induction false} ReachesGrows(run: seq<Event>, i: nat, j: nat)
    requires Valid(run) && i < |run| && j < |run| && NoWrap(run, |run|) && Reaches(run, i, j)
    ensures AtMost(ClockAt(run, i), ClockAt(run, j))
    decreases j
  {
    hide ClockAt;
    if i != j {
      var k: nat :| k < j && Direct(run, k, j) && Reaches(run, i, k);
      ReachesGrows(run, i, k);
      DirectGrows(run, k, j);
      AtMostTransitive(ClockAt(run, i), ClockAt(run, k), ClockAt(run, j));
    }
  }

  // ---------- Whatever a clock has counted, its event knows ----------

  /** Where a counter other than the node's own came from. */
  lemma SourceOf(run: seq<Event>, j: nat, q: NodeId) returns (k: nat)
    requires Valid(run) && j < |run| && q != run[j].node && Get(ClockAt(run, j), q) > 0
    ensures k < j && Direct(run, k, j) && Get(ClockAt(run, k), q) == Get(ClockAt(run, j), q)
  {
    hide ClockAt;
    assert ValidAt(run, j);
    ClockEquation(run, j, q);
    if run[j].Receive? && Get(ClockAt(run, run[j].from), q) > Get(OwnBefore(run, j), q) {
      k := run[j].from;
    } else {
      k := PrevPlus(run, j, run[j].node) - 1;
    }
  }

  /** If `j`'s clock has counted event `i` at its node, then `i` reaches `j`. */
  lemma {:induction false} CountedReaches(run: seq<Event>, i: nat, j: nat)
    requires Valid(run) && i < |run| && j < |run| && NoWrap(run, |run|)
    requires Get(ClockAt(run, j), run[i].node) >= Count(run, run[i].node, i + 1)
    ensures Reaches(run, i, j)
    decreases j
  {
    hide ClockAt;
    var q := run[i].node;
    ClockEquation(run, j, q);
    if q == run[j].node {
      NoWrapEarlier(run, j + 1, |run|);
      CounterBound(run, j, q);
      if j < i {
        CountMonotone(run, q, j + 1, i);
        assert false;
      }
      assert i == j || (Direct(run, i, j) && Reaches(run, i, i));
    } else {
      var k := SourceOf(run, j, q);
      CountedReaches(run, i, k);
    }
  }

  // ---------- The theorem ----------

  lemma CausesBefore(run: seq<Event>, i: nat, j: nat)
    requires Valid(run) && i < |run| && j < |run| && NoWrap(run, |run|) && i != j && Reaches(run, i, j)
    ensures Before(ClockAt(run, i), ClockAt(run, j))
  {
    hide ClockAt;
    ReachesGrows(run, i, j);
    ReachesEarlier(run, i, j);
    var q := run[j].node;
    NoWrapEarlier(run, j + 1, |run|);
    CounterBound(run, j, q);
    if Get(ClockAt(run, i), q) >= Get(ClockAt(run, j), q) {
      CountedReaches(run, j, i);
      ReachesEarlier(run, j, i);
      assert false;
    }
  }

  lemma OneWay(run: seq<Event>, i: nat, j: nat)
    requires Valid(run) && i < |run| && j < |run| && NoWrap(run, |run|)
    ensures Causes(run, i, j) <==> Before(ClockAt(run, i), ClockAt(run, j))
  {
    hide ClockAt;
    CausesIsReaches(run, i, j);
    if i != j && Reaches(run, i, j) {
      CausesBefore(run, i, j);
    }
    if Before(ClockAt(run, i), ClockAt(run, j)) {
      NoWrapEarlier(run, i + 1, |run|);
      CounterBound(run, i, run[i].node);
      CountedReaches(run, i, j);
    }
  }

  lemma NeverSame(run: seq<Event>, i: nat, j: nat)
    requires Valid(run) && i < |run| && j < |run| && NoWrap(run, |run|) && Same(ClockAt(run, i), ClockAt(run, j))
    ensures i == j
  {
    hide ClockAt;
    NoWrapEarlier(run, i + 1, |run|);
    CounterBound(run, i, run[i].node);
    NoWrapEarlier(run, j + 1, |run|);
    CounterBound(run, j, run[j].node);
    CountedReaches(run, i, j);
    CountedReaches(run, j, i);
    ReachesEarlier(run, i, j);
    ReachesEarlier(run, j, i);
  }

  /** Vector clocks characterise causality: in every run where no node has 2^64
      events, one event causally precedes another exactly when its clock is
      before the other's; clocks are equal only for the same event, and
      concurrent exactly for events neither of which caused the other. */
  lemma ClocksAreCausality(run: seq<Event>, i: nat, j: nat)
    requires Valid(run) && i < |run| && j < |run| && NoWrap(run, |run|)
    ensures Causes(run, i, j) <==> Before(ClockAt(run, i), ClockAt(run, j))
    ensures Same(ClockAt(run, i), ClockAt(run, j)) <==> i == j
    ensures Unrelated(ClockAt(run, i), ClockAt(run, j)) <==> i != j && !Causes(run, i, j) && !Causes(run, j, i)
  {
    hide ClockAt;
    OneWay(run, i, j);
    OneWay(run, j, i);
    if Same(ClockAt(run, i), ClockAt(run, j)) {
      NeverSame(run, i, j);
    }
  }

  // ---------- Wrap-around ----------

  lemma {:induction false} FirstWrap(run: seq<Event>, n: nat) returns (j: nat, q: NodeId)
    requires n <= |run| && !NoWrap(run, n)
    ensures j < n && NoWrap(run, j) && Count(run, q, j) < WRAP <= Count(run, q, j + 1)
  {
    q :| Count(run, q, n) >= WRAP;
    if NoWrap(run, n - 1) {
      j := n - 1;
    } else {
      j, q := FirstWrap(run, n - 1);
    }
  }

  /** The first event whose counter wraps is not after its node's previous event
      by the clocks. */
  lemma WrapBreaks(run: seq<Event>) returns (i: nat, j: nat)
    requires Valid(run) && !NoWrap(run, |run|)
    ensures i < j < |run| && Causes(run, i, j) && !Before(ClockAt(run, i), ClockAt(run, j))
  {
    hide ClockAt, OwnBefore;
    var q: NodeId;
    j, q := FirstWrap(run, |run|);
    ClockEquation(run, j, q);
    BaseBound(run, j, q);
    var k := PrevPlus(run, j, q);
    CountMonotone(run, q, k, j);
    i := k - 1;
    NoWrapEarlier(run, k, j);
    CounterBound(run, i, q);
    assert Direct(run, i, j) && Reaches(run, i, i);
    CausesIsReaches(run, i, j);
  }

  /** Clock order is causality throughout a run if and only if no node has 2^64
      events in it. */
  lemma CausalityIffNoWrap(run: seq<Event>)
    requires Valid(run)
    ensures NoWrap(run, |run|) <==>
      forall i: nat, j: nat {:trigger Causes(run, i, j)} :: i < |run| && j < |run| ==>
        (Causes(run, i, j) <==> Before(ClockAt(run, i), ClockAt(run, j)))
  {
    hide ClockAt;
    if NoWrap(run, |run|) {
      forall i: nat, j: nat | i < |run| && j < |run|
        ensures Causes(run, i, j) <==> Before(ClockAt(run, i), ClockAt(run, j))
      {
        OneWay(run, i, j);
      }
    } else {
      var i, j := WrapBreaks(run);
    }
  }

  lemma {:induction false} CountAll(run: seq<Event>, q: NodeId, j: nat)
    requires j <= |run| && forall i :: 0 <= i < |run| ==> run[i].node == q
    ensures Count(run, q, j) == j
  {
    if j > 0 {
      CountAll(run, q, j - 1);
    }
  }

  /** Such runs exist: 2^64 local events at one node. */
  lemma LongRunWraps(q: NodeId)
    ensures var run := seq(WRAP, _ => Local(q)); Valid(run) && !NoWrap(run, |run|)
  {
    var run := seq(WRAP, _ => Local(q));
    CountAll(run, q, |run|);
  }
}
