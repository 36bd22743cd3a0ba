/** Vector clocks: the order they define, the loops that compute it, and the
    algebra of merging. */
module VectorClock {
  import opened Bytes

  type NodeId = string

  /** A missing key reads as 0. Counters wrap at 64 bits. */
  type Clock = map<NodeId, Word64>

  const WRAP: nat := 0x1_0000_0000_0000_0000

  function Get(c: Clock, id: NodeId): Word64 {
    if id in c then c[id] else 0
  }

  function Incremented(c: Clock, id: NodeId): Clock {
    c[id := (Get(c, id) + 1) % WRAP]
  }

  /** One step of merging: the counter is raised, never lowered, and no key is
      added for a counter that is not. */
  function Raised(c: Clock, id: NodeId, v: Word64): Clock {
    if v > Get(c, id) then c[id := v] else c
  }

  ghost function MergedOver(c: Clock, other: Clock, ids: set<NodeId>): (r: Clock)
    requires ids <= other.Keys
    ensures forall x :: Get(r, x) == if x in ids && other[x] > Get(c, x) then other[x] else Get(c, x)
    ensures forall x :: x in r <==> x in c || (x in ids && other[x] > 0)
    decreases |ids|
  {
    if ids == {} then c
    else
      var id :| id in ids;
      var rest := MergedOver(c, other, ids - {id});
      Raised(rest, id, other[id])
  }

  ghost function Merged(c: Clock, other: Clock): Clock {
    MergedOver(c, other, other.Keys)
  }

  lemma IncrementedAt(c: Clock, id: NodeId, x: NodeId)
    ensures Get(Incremented(c, id), x) == if x == id then (Get(c, id) + 1) % WRAP else Get(c, x)
  {
  }

  lemma MergedAt(c: Clock, other: Clock, x: NodeId)
    ensures Get(Merged(c, other), x) == if Get(other, x) > Get(c, x) then Get(other, x) else Get(c, x)
  {
  }

  // ---------- The order ----------

  ghost predicate AtMost(a: Clock, b: Clock) {
    forall id :: Get(a, id) <= Get(b, id)
  }

  ghost predicate Before(a: Clock, b: Clock) {
    AtMost(a, b) && exists id :: Get(a, id) < Get(b, id)
  }

  ghost predicate Same(a: Clock, b: Clock) {
    forall id :: Get(a, id) == Get(b, id)
  }

  ghost predicate Unrelated(a: Clock, b: Clock) {
    !Before(a, b) && !Before(b, a) && !Same(a, b)
  }

  /** Any two clocks are exactly one of before, after, equal or concurrent; and
      they are concurrent exactly when each is ahead somewhere. */
  lemma ExactlyOne(a: Clock, b: Clock)
    ensures Before(a, b) ==> !Before(b, a) && !Same(a, b) && !Unrelated(a, b)
    ensures Before(b, a) ==> !Same(a, b) && !Unrelated(a, b)
    ensures Same(a, b) ==> !Unrelated(a, b)
    ensures Before(a, b) || Before(b, a) || Same(a, b) || Unrelated(a, b)
    ensures Unrelated(a, b) <==>
      (exists x :: Get(a, x) < Get(b, x)) && (exists y :: Get(b, y) < Get(a, y))
  {
    if !AtMost(a, b) {
      var y :| Get(a, y) > Get(b, y);
    }
    if !AtMost(b, a) {
      var x :| Get(b, x) > Get(a, x);
    }
  }

  lemma BeforeTransitive(a: Clock, b: Clock, c: Clock)
    requires (Before(a, b) && AtMost(b, c)) || (AtMost(a, b) && Before(b, c))
    ensures Before(a, c)
  {
    if Before(a, b) && AtMost(b, c) {
      var x :| Get(a, x) < Get(b, x);
      assert Get(a, x) < Get(c, x);
    } else {
      var x :| Get(b, x) < Get(c, x);
      assert Get(a, x) < Get(c, x);
    }
    forall x ensures Get(a, x) <= Get(c, x) {
      assert Get(a, x) <= Get(b, x) <= Get(c, x);
    }
  }

  /** Merging is the least upper bound: above both, below everything above both. */
  lemma MergeIsLeastUpperBound(a: Clock, b: Clock, c: Clock)
    ensures AtMost(a, Merged(a, b)) && AtMost(b, Merged(a, b))
    ensures AtMost(Merged(a, b), c) <==> AtMost(a, c) && AtMost(b, c)
  {
    var m := Merged(a, b);
    forall x ensures Get(m, x) == if Get(b, x) > Get(a, x) then Get(b, x) else Get(a, x) {
    }
    assert AtMost(a, m) && AtMost(b, m);
    if AtMost(m, c) {
      forall x ensures Get(a, x) <= Get(c, x) && Get(b, x) <= Get(c, x) {
        assert Get(m, x) <= Get(c, x);
      }
    }
    if AtMost(a, c) && AtMost(b, c) {
      forall x ensures Get(m, x) <= Get(c, x) {
        assert Get(a, x) <= Get(c, x) && Get(b, x) <= Get(c, x);
      }
    }
  }

  /** Counting one more event moves a clock forward unless its counter wraps. */
  lemma IncrementMovesForward(c: Clock, id: NodeId)
    ensures Before(c, Incremented(c, id)) <==> Get(c, id) < WRAP - 1
  {
    var next := Incremented(c, id);
    forall x | x != id ensures Get(next, x) == Get(c, x) {
    }
    if Get(c, id) < WRAP - 1 {
      assert Get(next, id) == Get(c, id) + 1;
    } else {
      assert Get(next, id) == 0;
    }
  }

  // ---------- The loops ----------

  lemma SameMap(a: Clock, b: Clock)
    requires a.Keys == b.Keys && Same(a, b)
    ensures a == b
  {
    forall x | x in a ensures a[x] == b[x] {
      assert Get(a, x) == Get(b, x);
    }
  }

  method Clone(c: Clock) returns (copy: Clock)
    ensures copy == c
  {
    copy := map[];
    var left := c.Keys;
    while left != {}
      invariant left <= c.Keys && copy.Keys == c.Keys - left
      invariant forall x :: x in copy ==> copy[x] == c[x]
      decreases left
    {
      var id :| id in left;
      copy := copy[id := c[id]];
      left := left - {id};
    }
  }

  method Increment(c: Clock, id: NodeId) returns (next: Clock)
    ensures next == Incremented(c, id)
  {
    next := Clone(c);
    next := next[id := (Get(next, id) + 1) % WRAP];
  }

  method Merge(c: Clock, other: Clock) returns (result: Clock)
    ensures result == Merged(c, other)
  {
    result := Clone(c);
    var left := other.Keys;
    while left != {}
      invariant left <= other.Keys
      invariant forall x :: Get(result, x) == if x in other.Keys - left && other[x] > Get(c, x) then other[x] else Get(c, x)
      invariant forall x :: x in result <==> x in c || (x in other.Keys - left && other[x] > 0)
      decreases left
    {
      var id :| id in left;
      if other[id] > Get(result, id) {
        result := result[id := other[id]];
      }
      left := left - {id};
    }
    SameMap(result, Merged(c, other));
  }

  method HappensBefore(c: Clock, other: Clock) returns (before: bool)
    ensures before <==> Before(c, other)
  {
    var strict := false;
    var left := c.Keys;
    while left != {}
      invariant left <= c.Keys
      invariant forall x :: x in c.Keys - left ==> c[x] <= Get(other, x)
      invariant strict <==> exists x :: x in c.Keys - left && Get(c, x) < Get(other, x)
      decreases left
    {
      var id :| id in left;
      if c[id] > Get(other, id) {
        assert Get(c, id) > Get(other, id);
        return false;
      }
      ghost var was := c.Keys - left;
      if c[id] < Get(other, id) {
        assert Get(c, id) < Get(other, id);
        strict := true;
      }
      left := left - {id};
      assert c.Keys - left == was + {id};
    }
    assert AtMost(c, other);
    left := other.Keys;
    while left != {}
      invariant left <= other.Keys
      invariant strict <==>
        exists x :: (x in c || x in other.Keys - left) && Get(c, x) < Get(other, x)
      decreases left
    {
      var id :| id in left;
      ghost var was := other.Keys - left;
      if id !in c && other[id] > 0 {
        assert Get(c, id) < Get(other, id);
        strict := true;
      }
      left := left - {id};
      assert other.Keys - left == was + {id};
    }
    return strict;
  }

  method Equal(c: Clock, other: Clock) returns (equal: bool)
    ensures equal <==> Same(c, other)
  {
    var left := c.Keys + other.Keys;
    while left != {}
      invariant left <= c.Keys + other.Keys
      invariant forall x :: x in c.Keys + other.Keys - left ==> Get(c, x) == Get(other, x)
      decreases left
    {
      var id :| id in left;
      if Get(c, id) != Get(other, id) { return false; }
      left := left - {id};
    }
    forall x ensures Get(c, x) == Get(other, x) {
      assert x in c.Keys + other.Keys - left || (x !in c && x !in other);
    }
    return true;
  }

  method Concurrent(c: Clock, other: Clock) returns (r: bool)
    ensures r <==> Unrelated(c, other)
  {
    var before := HappensBefore(c, other);
    var after := HappensBefore(other, c);
    var equal := Equal(c, other);
    return !before && !after && !equal;
  }
}
