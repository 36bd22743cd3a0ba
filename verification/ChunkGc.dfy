/** Garbage collection of orphaned chunks after a grace period. What the sweep
    learns from outside, that is the listing, whether each chunk is referenced
    when it is looked at and whether deleting it works, is part of its input. */
module ChunkGc {
  import opened Options

  type ChunkId = string

  datatype Look = Look(id: ChunkId, referenced: bool, deletable: bool)

  /** One sweep: no listing if it failed; `cancelAfter` looks before the context
      is cancelled, if it is. */
  datatype Sweep = Sweep(now: int, looks: Option<seq<Look>>, cancelAfter: Option<nat>)

  type Timers = map<ChunkId, int>

  function Examined(s: Sweep): (n: nat)
    ensures s.looks.Some? ==> n <= |s.looks.value|
    ensures s.looks.None? ==> n == 0
  {
    if s.looks.None? then 0
    else if s.cancelAfter.Some? && s.cancelAfter.value < |s.looks.value| then s.cancelAfter.value
    else |s.looks.value|
  }

  predicate Completed(s: Sweep) {
    s.looks.Some? && Examined(s) == |s.looks.value|
  }

  predicate Listed(s: Sweep, id: ChunkId) {
    s.looks.Some? && exists r :: 0 <= r < |s.looks.value| && s.looks.value[r].id == id
  }

  // ---------- One look ----------

  function FirstSeen(t: Timers, id: ChunkId, now: int): int {
    if id in t then t[id] else now
  }

  predicate Deletes(t: Timers, now: int, grace: int, look: Look) {
    !look.referenced && now - FirstSeen(t, look.id, now) >= grace && look.deletable
  }

  function AfterLook(t: Timers, now: int, grace: int, look: Look): Timers {
    if look.referenced || Deletes(t, now, grace, look) then t - {look.id}
    else t[look.id := FirstSeen(t, look.id, now)]
  }

  /** The timers after the first `i` looks. */
  function AfterLooks(t: Timers, s: Sweep, grace: int, i: nat): Timers
    requires i <= Examined(s)
  {
    if i == 0 then t else AfterLook(AfterLooks(t, s, grace, i - 1), s.now, grace, s.looks.value[i - 1])
  }

  function Unlisted(t: Timers, s: Sweep): set<ChunkId> {
    set id | id in t && !Listed(s, id)
  }

  function AfterSweep(t: Timers, s: Sweep, grace: int): Timers {
    var t' := AfterLooks(t, s, grace, Examined(s));
    if Completed(s) then t' - Unlisted(t', s) else t'
  }

  // ---------- The collector ----------

  class Collector {
    var orphanedAt: Timers
    const grace: int

    constructor (grace: int)
      ensures orphanedAt == map[] && this.grace == grace
    {
      orphanedAt := map[];
      this.grace := grace;
    }

    /** Looks at one chunk: clears its timer, starts it, keeps it or deletes the chunk. */
    method Examine(now: int, look: Look) returns (gone: bool)
      modifies this
      ensures orphanedAt == AfterLook(old(orphanedAt), now, grace, look)
      ensures gone == Deletes(old(orphanedAt), now, grace, look)
    {
      if look.referenced {
        orphanedAt := orphanedAt - {look.id};
        return false;
      }
      var first := now;
      if look.id in orphanedAt {
        first := orphanedAt[look.id];
      } else {
        orphanedAt := orphanedAt[look.id := now];
      }
      if now - first < grace || !look.deletable { return false; }
      orphanedAt := orphanedAt - {look.id};
      return true;
    }

    /** Drops the timers of chunks that are no longer on disk. */
    method Forget(s: Sweep, live: set<ChunkId>)
      requires s.looks.Some? && forall id :: id in live <==> Listed(s, id)
      modifies this
      ensures orphanedAt == old(orphanedAt) - Unlisted(old(orphanedAt), s)
    {
      var left := orphanedAt.Keys;
      ghost var t, dropped := orphanedAt, {};
      while left != {}
        invariant left <= t.Keys && orphanedAt == t - dropped
        invariant dropped == set id | id in t.Keys - left && id !in live
        decreases left
      {
        var id :| id in left;
        if id !in live {
          orphanedAt := orphanedAt - {id};
          dropped := dropped + {id};
        }
        left := left - {id};
      }
      assert dropped == Unlisted(t, s);
    }

    /** One pass over the listing. Returns the chunks deleted and whether the
        pass completed. */
    method SweepOnce(s: Sweep) returns (deleted: seq<ChunkId>, ok: bool)
      modifies this
      ensures orphanedAt == AfterSweep(old(orphanedAt), s, grace)
      ensures ok == Completed(s)
      ensures forall id :: id in deleted <==>
        exists r :: 0 <= r < Examined(s) && s.looks.value[r].id == id &&
          Deletes(AfterLooks(old(orphanedAt), s, grace, r), s.now, grace, s.looks.value[r])
    {
      hide AfterLook, Deletes;
      deleted := [];
      if s.looks.None? { return deleted, false; }
      var live := {};
      var i := 0;
      while i < |s.looks.value|
        invariant 0 <= i <= Examined(s)
        invariant orphanedAt == AfterLooks(old(orphanedAt), s, grace, i)
        invariant live == set r | 0 <= r < i :: s.looks.value[r].id
        invariant forall id :: id in deleted <==>
          exists r :: 0 <= r < i && s.looks.value[r].id == id &&
            Deletes(AfterLooks(old(orphanedAt), s, grace, r), s.now, grace, s.looks.value[r])
      {
        if s.cancelAfter == Some(i) { return deleted, false; }
        var gone := Examine(s.now, s.looks.value[i]);
        live := live + {s.looks.value[i].id};
        if gone {
          deleted := deleted + [s.looks.value[i].id];
        }
        i := i + 1;
      }
      Forget(s, live);
      return deleted, true;
    }
  }

  // ---------- Histories ----------

  /** The timers before sweep `k`. */
  function TimersAt(grace: int, history: seq<Sweep>, k: nat): Timers
    requires k <= |history|
  {
    if k == 0 then map[] else AfterSweep(TimersAt(grace, history, k - 1), history[k - 1], grace)
  }

  /** The timers in sweep `k` before its look `i`. */
  function TimersIn(grace: int, history: seq<Sweep>, k: nat, i: nat): Timers
    requires k < |history| && i <= Examined(history[k])
  {
    AfterLooks(TimersAt(grace, history, k), history[k], grace, i)
  }

  predicate DeletedAt(grace: int, history: seq<Sweep>, k: nat, i: nat)
    requires k < |history| && i < Examined(history[k])
  {
    Deletes(TimersIn(grace, history, k, i), history[k].now, grace, history[k].looks.value[i])
  }

  /** Look `i` of sweep `k` examined the chunk. */
  predicate LooksAt(history: seq<Sweep>, id: ChunkId, k: nat, i: nat) {
    k < |history| && i < Examined(history[k]) && history[k].looks.value[i].id == id
  }

  /** One look comes before another. */
  predicate Earlier(j: nat, p: nat, k: nat, i: nat) {
    j < k || (j == k && p < i)
  }

  /** From look `p` of sweep `j` until just before look `i` of sweep `k` the chunk
      was always found unreferenced and never deleted, and every sweep completed
      before sweep `k` listed it. */
  ghost predicate OrphanSince(grace: int, history: seq<Sweep>, id: ChunkId, j: nat, p: nat, k: nat, i: nat) {
    && LooksAt(history, id, j, p)
    && (forall s: nat, r: nat {:trigger LooksAt(history, id, s, r)} ::
          LooksAt(history, id, s, r) && !Earlier(s, r, j, p) && Earlier(s, r, k, i)
          ==> !history[s].looks.value[r].referenced && !DeletedAt(grace, history, s, r))
    && (forall s {:trigger history[s]} :: j <= s < k && s < |history| && Completed(history[s]) ==> Listed(history[s], id))
  }

  lemma OneMoreLook(grace: int, history: seq<Sweep>, id: ChunkId, j: nat, p: nat, k: nat, i: nat)
    requires k < |history| && 0 < i <= Examined(history[k])
    requires OrphanSince(grace, history, id, j, p, k, i - 1) && id in TimersIn(grace, history, k, i)
    ensures OrphanSince(grace, history, id, j, p, k, i)
  {
    forall s: nat, r: nat | LooksAt(history, id, s, r) && !Earlier(s, r, j, p) && Earlier(s, r, k, i)
      ensures !history[s].looks.value[r].referenced && !DeletedAt(grace, history, s, r)
    {
      assert Earlier(s, r, k, i - 1) || (s == k && r == i - 1);
    }
  }

  /** Every running timer has a look that started it. */
  lemma {:induction false} TimerStarted(grace: int, history: seq<Sweep>, id: ChunkId, k: nat, i: nat) returns (j: nat, p: nat)
    requires k < |history| && i <= Examined(history[k]) && id in TimersIn(grace, history, k, i)
    ensures Earlier(j, p, k, i) && j < |history|
    ensures OrphanSince(grace, history, id, j, p, k, i)
    ensures TimersIn(grace, history, k, i)[id] == history[j].now
    decreases k, 1, i
  {
    if i == 0 {
      j, p := TimerCarried(grace, history, id, k);
    } else {
      var look := history[k].looks.value[i - 1];
      if look.id == id && id !in TimersIn(grace, history, k, i - 1) {
        j, p := k, i - 1;
        assert LooksAt(history, id, k, i - 1);
      } else {
        j, p := TimerStarted(grace, history, id, k, i - 1);
        OneMoreLook(grace, history, id, j, p, k, i);
      }
    }
  }

  /** A timer running when a sweep starts was running when the one before ended
      its looks; if that one completed, it listed the chunk. */
  lemma {:induction false} TimerCarried(grace: int, history: seq<Sweep>, id: ChunkId, k: nat) returns (j: nat, p: nat)
    requires k < |history| && id in TimersAt(grace, history, k)
    ensures Earlier(j, p, k, 0) && j < |history|
    ensures OrphanSince(grace, history, id, j, p, k, 0)
    ensures TimersAt(grace, history, k)[id] == history[j].now
    decreases k, 0, 0
  {
    var before := history[k - 1];
    j, p := TimerStarted(grace, history, id, k - 1, Examined(before));
    forall s: nat, r: nat | LooksAt(history, id, s, r) && !Earlier(s, r, j, p) && Earlier(s, r, k, 0)
      ensures !history[s].looks.value[r].referenced && !DeletedAt(grace, history, s, r)
    {
      assert Earlier(s, r, k - 1, Examined(before));
    }
  }

  /** Grace: a chunk is deleted only if some look started its timer at least
      `grace` before, every look at it since then, this one included, found it
      unreferenced, and every sweep completed since then listed it. */
  lemma GraceRespected(grace: int, history: seq<Sweep>, k: nat, i: nat) returns (j: nat, p: nat)
    requires k < |history| && i < Examined(history[k]) && DeletedAt(grace, history, k, i)
    ensures j < |history| && (Earlier(j, p, k, i) || (j == k && p == i))
    ensures var id := history[k].looks.value[i].id;
      && !history[k].looks.value[i].referenced
      && history[k].now - history[j].now >= grace
      && OrphanSince(grace, history, id, j, p, k, i)
  {
    var id := history[k].looks.value[i].id;
    if id in TimersIn(grace, history, k, i) {
      j, p := TimerStarted(grace, history, id, k, i);
    } else {
      j, p := k, i;
      assert LooksAt(history, id, k, i);
    }
  }

  // ---------- Every chunk that is due is deleted ----------

  /** The clock never runs backwards. */
  ghost predicate Ordered(history: seq<Sweep>) {
    forall i, j :: 0 <= i <= j < |history| ==> history[i].now <= history[j].now
  }

  lemma TimersPast(grace: int, history: seq<Sweep>, id: ChunkId, k: nat, i: nat)
    requires Ordered(history) && k < |history| && i <= Examined(history[k])
    ensures id in TimersIn(grace, history, k, i) ==> TimersIn(grace, history, k, i)[id] <= history[k].now
  {
    hide TimersIn;
    if id in TimersIn(grace, history, k, i) {
      var j, p := TimerStarted(grace, history, id, k, i);
    }
  }

  lemma OneLessLook(grace: int, history: seq<Sweep>, id: ChunkId, j: nat, p: nat, k: nat, i: nat)
    requires k < |history| && 0 < i <= Examined(history[k]) && OrphanSince(grace, history, id, j, p, k, i)
    ensures OrphanSince(grace, history, id, j, p, k, i - 1)
  {
  }

  lemma OneLessSweep(grace: int, history: seq<Sweep>, id: ChunkId, j: nat, p: nat, k: nat)
    requires j < k < |history| && OrphanSince(grace, history, id, j, p, k, 0)
    ensures OrphanSince(grace, history, id, j, p, k - 1, Examined(history[k - 1]))
    ensures Earlier(j, p, k - 1, Examined(history[k - 1]))
    ensures Completed(history[k - 1]) ==> Listed(history[k - 1], id)
  {
    hide DeletedAt, Listed, Completed;
    assert history[k - 1] == history[k - 1];
  }

  /** Since a look found the chunk orphaned its timer has been running, from that
      look or an earlier one. */
  lemma {:induction false} TimerRuns(grace: int, history: seq<Sweep>, id: ChunkId, j: nat, p: nat, k: nat, i: nat)
    requires Ordered(history) && k < |history| && i <= Examined(history[k])
    requires Earlier(j, p, k, i) && OrphanSince(grace, history, id, j, p, k, i)
    ensures id in TimersIn(grace, history, k, i) && TimersIn(grace, history, k, i)[id] <= history[j].now
    decreases k, i
  {
    if i == 0 {
      OneLessSweep(grace, history, id, j, p, k);
      TimerRuns(grace, history, id, j, p, k - 1, Examined(history[k - 1]));
    } else {
      if Earlier(j, p, k, i - 1) {
        OneLessLook(grace, history, id, j, p, k, i);
        TimerRuns(grace, history, id, j, p, k, i - 1);
      } else {
        TimersPast(grace, history, id, k, i - 1);
      }
      if history[k].looks.value[i - 1].id == id {
        assert LooksAt(history, id, k, i - 1);
      }
    }
  }

  lemma NotDue(grace: int, history: seq<Sweep>, j: nat, p: nat, k: nat, i: nat)
    requires Ordered(history) && k < |history| && i < Examined(history[k])
    requires var look := history[k].looks.value[i];
      !look.referenced && look.deletable && !DeletedAt(grace, history, k, i) && OrphanSince(grace, history, look.id, j, p, k, i)
    requires Earlier(j, p, k, i) || (j == k && p == i)
    ensures history[k].now - history[j].now < grace
  {
    var id := history[k].looks.value[i].id;
    if Earlier(j, p, k, i) {
      TimerRuns(grace, history, id, j, p, k, i);
    } else {
      TimersPast(grace, history, id, k, i);
    }
  }

  /** A look deletes a chunk if and only if it finds it unreferenced and can
      delete it, and some look at least `grace` earlier, or this one, found it
      orphaned, with no look since finding it referenced or deleting it and no
      completed sweep missing it. */
  lemma DeletedIffDue(grace: int, history: seq<Sweep>, k: nat, i: nat)
    requires Ordered(history) && k < |history| && i < Examined(history[k])
    ensures var look := history[k].looks.value[i];
      DeletedAt(grace, history, k, i) <==>
        && !look.referenced && look.deletable
        && exists j: nat, p: nat {:trigger OrphanSince(grace, history, look.id, j, p, k, i)} ::
             && (Earlier(j, p, k, i) || (j == k && p == i))
             && OrphanSince(grace, history, look.id, j, p, k, i)
             && history[k].now - history[j].now >= grace
  {
    var look := history[k].looks.value[i];
    if DeletedAt(grace, history, k, i) {
      var j, p := GraceRespected(grace, history, k, i);
      assert OrphanSince(grace, history, look.id, j, p, k, i);
    } else if !look.referenced && look.deletable {
      forall j: nat, p: nat | (Earlier(j, p, k, i) || (j == k && p == i)) && OrphanSince(grace, history, look.id, j, p, k, i)
        ensures history[k].now - history[j].now < grace
      {
        NotDue(grace, history, j, p, k, i);
      }
    }
  }

  // ---------- Timers after a sweep ----------

  /** The last look at the chunk among the first `n` of a sweep left it orphaned
      and on disk. */
  ghost predicate LeftOrphaned(t: Timers, s: Sweep, grace: int, id: ChunkId, n: nat)
    requires n <= Examined(s)
  {
    exists r {:trigger s.looks.value[r]} :: 0 <= r < n && s.looks.value[r].id == id &&
      !s.looks.value[r].referenced && !Deletes(AfterLooks(t, s, grace, r), s.now, grace, s.looks.value[r]) &&
      forall q {:trigger s.looks.value[q]} :: r < q < n ==> s.looks.value[q].id != id
  }

  lemma LookTimer(t: Timers, now: int, grace: int, look: Look, id: ChunkId)
    ensures id in AfterLook(t, now, grace, look) <==>
      if look.id == id then !look.referenced && !Deletes(t, now, grace, look) else id in t
  {
  }

  lemma {:induction false} TimerIffOrphaned(t: Timers, s: Sweep, grace: int, id: ChunkId, n: nat)
    requires n <= Examined(s)
    ensures id in AfterLooks(t, s, grace, n) <==>
      LeftOrphaned(t, s, grace, id, n) || (id in t && forall q :: 0 <= q < n ==> s.looks.value[q].id != id)
  {
    hide AfterLook, Deletes;
    if n > 0 {
      TimerIffOrphaned(t, s, grace, id, n - 1);
      var last := s.looks.value[n - 1];
      LookTimer(AfterLooks(t, s, grace, n - 1), s.now, grace, last, id);
      if last.id != id && LeftOrphaned(t, s, grace, id, n - 1) {
        var r :| 0 <= r < n - 1 && s.looks.value[r].id == id &&
          !s.looks.value[r].referenced && !Deletes(AfterLooks(t, s, grace, r), s.now, grace, s.looks.value[r]) &&
          forall q :: r < q < n - 1 ==> s.looks.value[q].id != id;
        assert LeftOrphaned(t, s, grace, id, n);
      }
    }
  }

  /** After a completed sweep the timers are exactly those of the chunks it
      listed, found unreferenced and did not delete. */
  lemma TimersExact(grace: int, history: seq<Sweep>, k: nat, id: ChunkId)
    requires k < |history| && Completed(history[k])
    ensures id in TimersAt(grace, history, k + 1) <==>
      LeftOrphaned(TimersAt(grace, history, k), history[k], grace, id, Examined(history[k]))
  {
    TimerIffOrphaned(TimersAt(grace, history, k), history[k], grace, id, Examined(history[k]));
  }
}
