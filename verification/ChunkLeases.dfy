/** Chunk write leases of one manager: grant, renew, revoke and expire. */
module ChunkLeases {
  import opened Options

  datatype Lease = Lease(chunk: string, holder: string, expiry: int)

  type Leases = map<string, Lease>

  /** One call with the time the manager's clock shows during it. */
  datatype Call =
    | Grant(now: int, chunk: string, holder: string)
    | Renew(now: int, chunk: string, holder: string)
    | Revoke(now: int, chunk: string, holder: string)
    | Check(now: int, chunk: string)
    | Count(now: int)
    | Sweep(now: int)

  datatype Answer =
    | Issued(lease: Lease)
    | HeldByOther
    | NotHeld
    | Released
    | Valid(lease: Lease)
    | Absent
    | Number(n: nat)

  const DEFAULT_TTL: int := 60_000_000_000

  function Expired(l: Lease, now: int): bool {
    !(now < l.expiry)
  }

  /** The unexpired lease on a chunk. */
  function Live(m: Leases, chunk: string, now: int): Option<Lease> {
    if chunk in m && !Expired(m[chunk], now) then Some(m[chunk]) else None
  }

  function LiveChunks(m: Leases, now: int): set<string> {
    set c | c in m && !Expired(m[c], now)
  }

  function DeadChunks(m: Leases, now: int): set<string> {
    set c | c in m && Expired(m[c], now)
  }

  function Perform(ttl: int, m: Leases, call: Call): (Leases, Answer) {
    match call
    case Grant(now, chunk, holder) =>
      if chunk in m && !Expired(m[chunk], now) && m[chunk].holder != holder then (m, HeldByOther)
      else
        var l := Lease(chunk, holder, now + ttl);
        (m[chunk := l], Issued(l))
    case Renew(now, chunk, holder) =>
      if chunk !in m || Expired(m[chunk], now) || m[chunk].holder != holder then (m, NotHeld)
      else
        var l := m[chunk].(expiry := now + ttl);
        (m[chunk := l], Issued(l))
    case Revoke(now, chunk, holder) =>
      if chunk !in m || Expired(m[chunk], now) || m[chunk].holder != holder then (m, NotHeld)
      else (m - {chunk}, Released)
    case Check(now, chunk) =>
      if chunk !in m || Expired(m[chunk], now) then (m, Absent) else (m, Valid(m[chunk]))
    case Count(now) => (m, Number(|LiveChunks(m, now)|))
    case Sweep(now) => (m - DeadChunks(m, now), Number(|DeadChunks(m, now)|))
  }

  // ---------- The manager ----------

  class LeaseManager {
    var leases: Leases
    const ttl: int

    constructor (ttl: int)
      ensures leases == map[] && this.ttl > 0
      ensures this.ttl == if ttl <= 0 then DEFAULT_TTL else ttl
    {
      leases := map[];
      this.ttl := if ttl <= 0 then DEFAULT_TTL else ttl;
    }

    method GrantLease(now: int, chunk: string, holder: string) returns (a: Answer)
      modifies this
      ensures (leases, a) == Perform(ttl, old(leases), Grant(now, chunk, holder))
    {
      if chunk in leases && !Expired(leases[chunk], now) {
        if leases[chunk].holder != holder { return HeldByOther; }
      }
      var lease := Lease(chunk, holder, now + ttl);
      leases := leases[chunk := lease];
      return Issued(lease);
    }

    method RenewLease(now: int, chunk: string, holder: string) returns (a: Answer)
      modifies this
      ensures (leases, a) == Perform(ttl, old(leases), Renew(now, chunk, holder))
    {
      if chunk !in leases || Expired(leases[chunk], now) || leases[chunk].holder != holder { return NotHeld; }
      leases := leases[chunk := leases[chunk].(expiry := now + ttl)];
      return Issued(leases[chunk]);
    }

    method RevokeLease(now: int, chunk: string, holder: string) returns (a: Answer)
      modifies this
      ensures (leases, a) == Perform(ttl, old(leases), Revoke(now, chunk, holder))
    {
      if chunk !in leases || Expired(leases[chunk], now) || leases[chunk].holder != holder { return NotHeld; }
      leases := leases - {chunk};
      return Released;
    }

    method CheckLease(now: int, chunk: string) returns (a: Answer)
      ensures (leases, a) == Perform(ttl, leases, Check(now, chunk))
    {
      if chunk !in leases || Expired(leases[chunk], now) { return Absent; }
      return Valid(leases[chunk]);
    }

    method CountLeases(now: int) returns (a: Answer)
      ensures (leases, a) == Perform(ttl, leases, Count(now))
    {
      var n := 0;
      var left := leases.Keys;
      ghost var live := {};
      while left != {}
        invariant left <= leases.Keys && n == |live|
        invariant live == set c | c in leases.Keys - left && !Expired(leases[c], now)
        decreases left
      {
        var c :| c in left;
        if !Expired(leases[c], now) {
          n := n + 1;
          live := live + {c};
        }
        left := left - {c};
      }
      assert live == LiveChunks(leases, now);
      return Number(n);
    }

    method SweepExpired(now: int) returns (a: Answer)
      modifies this
      ensures (leases, a) == Perform(ttl, old(leases), Sweep(now))
    {
      var n := 0;
      var left := leases.Keys;
      ghost var m, dead := leases, {};
      while left != {}
        invariant left <= m.Keys && n == |dead| && leases == m - dead
        invariant dead == set c | c in m.Keys - left && Expired(m[c], now)
        decreases left
      {
        var c :| c in left;
        if Expired(leases[c], now) {
          leases := leases - {c};
          n := n + 1;
          dead := dead + {c};
        }
        left := left - {c};
      }
      assert dead == DeadChunks(m, now);
      return Number(n);
    }
  }

  // ---------- Histories ----------

  /** The clock never runs backwards. */
  ghost predicate Ordered(calls: seq<Call>) {
    forall i, j :: 0 <= i < j < |calls| ==> calls[i].now <= calls[j].now
  }

  /** The manager's table after the first `k` calls. */
  function TableAt(ttl: int, calls: seq<Call>, k: nat): Leases
    requires k <= |calls|
  {
    if k == 0 then map[] else Perform(ttl, TableAt(ttl, calls, k - 1), calls[k - 1]).0
  }

  function AnswerAt(ttl: int, calls: seq<Call>, k: nat): Answer
    requires k < |calls|
  {
    Perform(ttl, TableAt(ttl, calls, k), calls[k]).1
  }

  /** What `holder` believes after `k` calls: the last lease it was given on the
      chunk and has not given back. */
  function Believed(ttl: int, calls: seq<Call>, k: nat, chunk: string, holder: string): Option<Lease>
    requires k <= |calls|
  {
    if k == 0 then None
    else
      var call, answer := calls[k - 1], AnswerAt(ttl, calls, k - 1);
      if (call.Grant? || call.Renew?) && call.chunk == chunk && call.holder == holder && answer.Issued? then Some(answer.lease)
      else if call.Revoke? && call.chunk == chunk && call.holder == holder && answer.Released? then None
      else Believed(ttl, calls, k - 1, chunk, holder)
  }

  lemma {:induction false} BeliefIsTrue(ttl: int, calls: seq<Call>, k: nat, chunk: string, holder: string, now: int)
    requires k <= |calls| && Ordered(calls)
    requires k > 0 ==> calls[k - 1].now <= now
    ensures var l := Believed(ttl, calls, k, chunk, holder);
      l.Some? && !Expired(l.value, now) ==>
        l.value.holder == holder && chunk in TableAt(ttl, calls, k) && TableAt(ttl, calls, k)[chunk] == l.value
  {
    if k > 0 {
      BeliefIsTrue(ttl, calls, k - 1, chunk, holder, calls[k - 1].now);
    }
  }

  /** Exclusion: in every history, at any time from the last call on, no chunk has
      two different holders who both believe in an unexpired lease. */
  lemma LeaseExclusion(ttl: int, calls: seq<Call>, k: nat, chunk: string, h1: string, h2: string, now: int)
    requires k <= |calls| && Ordered(calls)
    requires k > 0 ==> calls[k - 1].now <= now
    requires Believed(ttl, calls, k, chunk, h1).Some? && !Expired(Believed(ttl, calls, k, chunk, h1).value, now)
    requires Believed(ttl, calls, k, chunk, h2).Some? && !Expired(Believed(ttl, calls, k, chunk, h2).value, now)
    ensures h1 == h2
  {
    BeliefIsTrue(ttl, calls, k, chunk, h1, now);
    BeliefIsTrue(ttl, calls, k, chunk, h2, now);
  }

  // ---------- Who is answered what ----------

  /** `holder` has a lease on the chunk that it was given, did not give back and
      that has not run out. */
  ghost predicate Holding(ttl: int, calls: seq<Call>, k: nat, chunk: string, holder: string, now: int)
    requires k <= |calls|
  {
    var l := Believed(ttl, calls, k, chunk, holder);
    l.Some? && now < l.value.expiry
  }

  /** Every lease in the table was given to its holder and not given back. */
  lemma {:induction false} TableIsBelieved(ttl: int, calls: seq<Call>, k: nat, chunk: string)
    requires k <= |calls| && chunk in TableAt(ttl, calls, k)
    ensures var l := TableAt(ttl, calls, k)[chunk];
      l.chunk == chunk && Believed(ttl, calls, k, chunk, l.holder) == Some(l)
  {
    if chunk in TableAt(ttl, calls, k - 1) {
      TableIsBelieved(ttl, calls, k - 1, chunk);
    }
  }

  /** The unexpired leases in the table are exactly those somebody is holding. */
  lemma HoldingIffLive(ttl: int, calls: seq<Call>, k: nat, chunk: string, holder: string, now: int)
    requires k <= |calls| && Ordered(calls) && (k > 0 ==> calls[k - 1].now <= now)
    ensures var m := TableAt(ttl, calls, k);
      Holding(ttl, calls, k, chunk, holder, now) <==> chunk in m && m[chunk].holder == holder && now < m[chunk].expiry
    ensures Holding(ttl, calls, k, chunk, holder, now) ==>
      chunk in TableAt(ttl, calls, k) && Believed(ttl, calls, k, chunk, holder) == Some(TableAt(ttl, calls, k)[chunk])
  {
    BeliefIsTrue(ttl, calls, k, chunk, holder, now);
    if chunk in TableAt(ttl, calls, k) {
      TableIsBelieved(ttl, calls, k, chunk);
    }
  }

  /** A grant is refused if and only if another node is holding a lease on the
      chunk; otherwise it gives a full lifetime from now. */
  lemma GrantAnswered(ttl: int, calls: seq<Call>, k: nat)
    requires k < |calls| && Ordered(calls) && calls[k].Grant?
    ensures var Grant(now, chunk, holder) := calls[k];
      AnswerAt(ttl, calls, k) ==
        if exists other :: other != holder && Holding(ttl, calls, k, chunk, other, now) then HeldByOther
        else Issued(Lease(chunk, holder, now + ttl))
  {
    var Grant(now, chunk, holder) := calls[k];
    var m := TableAt(ttl, calls, k);
    if chunk in m {
      HoldingIffLive(ttl, calls, k, chunk, m[chunk].holder, now);
    }
    forall other | Holding(ttl, calls, k, chunk, other, now) ensures chunk in m && m[chunk].holder == other && now < m[chunk].expiry {
      HoldingIffLive(ttl, calls, k, chunk, other, now);
    }
  }

  /** A renewal or revocation succeeds if and only if the caller is holding the
      lease; a renewal gives a full lifetime from now. */
  lemma OwnAnswered(ttl: int, calls: seq<Call>, k: nat)
    requires k < |calls| && Ordered(calls) && (calls[k].Renew? || calls[k].Revoke?)
    ensures var c := calls[k];
      AnswerAt(ttl, calls, k) ==
        if !Holding(ttl, calls, k, c.chunk, c.holder, c.now) then NotHeld
        else if c.Revoke? then Released
        else Issued(Lease(c.chunk, c.holder, c.now + ttl))
  {
    var c := calls[k];
    HoldingIffLive(ttl, calls, k, c.chunk, c.holder, c.now);
    if c.chunk in TableAt(ttl, calls, k) {
      TableIsBelieved(ttl, calls, k, c.chunk);
    }
  }

  /** A check answers the lease somebody is holding, if anybody is. */
  lemma CheckAnswered(ttl: int, calls: seq<Call>, k: nat, holder: string)
    requires k < |calls| && Ordered(calls) && calls[k].Check?
    ensures var Check(now, chunk) := calls[k];
      && (Holding(ttl, calls, k, chunk, holder, now) ==>
            AnswerAt(ttl, calls, k) == Valid(Believed(ttl, calls, k, chunk, holder).value))
      && (AnswerAt(ttl, calls, k) == Absent <==> forall h :: !Holding(ttl, calls, k, chunk, h, now))
  {
    var Check(now, chunk) := calls[k];
    forall h ensures Holding(ttl, calls, k, chunk, h, now) ==> AnswerAt(ttl, calls, k) != Absent {
      HoldingIffLive(ttl, calls, k, chunk, h, now);
    }
    HoldingIffLive(ttl, calls, k, chunk, holder, now);
    if chunk in TableAt(ttl, calls, k) {
      HoldingIffLive(ttl, calls, k, chunk, TableAt(ttl, calls, k)[chunk].holder, now);
    }
  }

  /** A count is the number of chunks on which somebody is holding a lease. */
  lemma CountAnswered(ttl: int, calls: seq<Call>, k: nat, held: set<string>)
    requires k < |calls| && Ordered(calls) && calls[k].Count?
    requires forall chunk :: chunk in held <==> exists h :: Holding(ttl, calls, k, chunk, h, calls[k].now)
    ensures AnswerAt(ttl, calls, k) == Number(|held|)
  {
    var now, m := calls[k].now, TableAt(ttl, calls, k);
    forall chunk ensures chunk in held <==> chunk in LiveChunks(m, now) {
      if chunk in held {
        var h :| Holding(ttl, calls, k, chunk, h, now);
        HoldingIffLive(ttl, calls, k, chunk, h, now);
      } else if chunk in m {
        HoldingIffLive(ttl, calls, k, chunk, m[chunk].holder, now);
      }
    }
    assert held == LiveChunks(m, now);
  }

  /** A sweep keeps exactly the unexpired leases and counts the others. */
  lemma SweepAnswered(ttl: int, calls: seq<Call>, k: nat)
    requires k < |calls| && calls[k].Sweep?
    ensures var m, m' := TableAt(ttl, calls, k), TableAt(ttl, calls, k + 1);
      && (forall chunk :: chunk in m' <==> chunk in m && calls[k].now < m[chunk].expiry)
      && (forall chunk :: chunk in m' ==> m'[chunk] == m[chunk])
      && AnswerAt(ttl, calls, k) == Number(|m| - |m'|) && |m'| <= |m|
  {
    var m, m', dead := TableAt(ttl, calls, k), TableAt(ttl, calls, k + 1), DeadChunks(TableAt(ttl, calls, k), calls[k].now);
    assert m.Keys == m'.Keys + dead && m'.Keys !! dead;
    assert |m.Keys| == |m'.Keys| + |dead|;
    assert |m.Keys| == |m| && |m'.Keys| == |m'|;
  }

  /** The call is the holder's own on the chunk. */
  predicate OwnCall(call: Call, chunk: string, holder: string) {
    (call.Grant? || call.Renew? || call.Revoke?) && call.chunk == chunk && call.holder == holder
  }

  /** A lease stands: once given at call `i`, and while its holder makes no call
      about the chunk itself, it is what the holder holds until its lifetime is
      over, and not a moment longer. So every check answers it and every grant
      to another node is refused, until then. */
  lemma {:induction false} LeaseStands(ttl: int, calls: seq<Call>, i: nat, k: nat, chunk: string, holder: string, now: int)
    requires i < k <= |calls| && Ordered(calls) && AnswerAt(ttl, calls, i).Issued?
    requires OwnCall(calls[i], chunk, holder)
    requires forall j :: i < j < k ==> !OwnCall(calls[j], chunk, holder)
    ensures Believed(ttl, calls, k, chunk, holder) == Some(Lease(chunk, holder, calls[i].now + ttl))
    ensures Holding(ttl, calls, k, chunk, holder, now) <==> now < calls[i].now + ttl
    ensures k < |calls| && calls[k].now < calls[i].now + ttl ==>
      && (calls[k] == Check(calls[k].now, chunk) ==> AnswerAt(ttl, calls, k) == Valid(Lease(chunk, holder, calls[i].now + ttl)))
      && (calls[k].Grant? && calls[k].chunk == chunk && calls[k].holder != holder ==> AnswerAt(ttl, calls, k) == HeldByOther)
    decreases k
  {
    if k == i + 1 {
      if calls[i].Grant? { GrantAnswered(ttl, calls, i); } else { OwnAnswered(ttl, calls, i); }
    } else {
      LeaseStands(ttl, calls, i, k - 1, chunk, holder, now);
    }
    if k < |calls| && calls[k].now < calls[i].now + ttl {
      assert Holding(ttl, calls, k, chunk, holder, calls[k].now);
      if calls[k].Check? {
        CheckAnswered(ttl, calls, k, holder);
      } else if calls[k].Grant? {
        GrantAnswered(ttl, calls, k);
      }
    }
  }

  // ---------- Sweeping is invisible ----------

  /** The answers other than a sweep's own, from table `m` on. */
  function Visible(ttl: int, m: Leases, calls: seq<Call>): seq<Answer>
    decreases |calls|
  {
    if calls == [] then []
    else
      var (m', a) := Perform(ttl, m, calls[0]);
      (if calls[0].Sweep? then [] else [a]) + Visible(ttl, m', calls[1..])
  }

  function WithoutSweeps(calls: seq<Call>): seq<Call> {
    if calls == [] then []
    else (if calls[0].Sweep? then [] else [calls[0]]) + WithoutSweeps(calls[1..])
  }

  /** The two tables differ only in leases that have expired. */
  ghost predicate Alike(a: Leases, b: Leases, now: int) {
    forall c :: Live(a, c, now) == Live(b, c, now)
  }

  lemma AlikeLater(a: Leases, b: Leases, now: int, later: int)
    requires Alike(a, b, now) && now <= later
    ensures Alike(a, b, later)
  {
    forall c ensures Live(a, c, later) == Live(b, c, later) {
      assert Live(a, c, now) == Live(b, c, now);
    }
  }

  lemma SweepAlike(a: Leases, b: Leases, ttl: int, now: int)
    requires Alike(a, b, now)
    ensures Alike(Perform(ttl, a, Sweep(now)).0, b, now)
  {
    var a' := Perform(ttl, a, Sweep(now)).0;
    forall c ensures Live(a', c, now) == Live(b, c, now) {
      assert Live(a, c, now) == Live(b, c, now);
    }
  }

  lemma LiveChunksAlike(a: Leases, b: Leases, now: int)
    requires Alike(a, b, now)
    ensures LiveChunks(a, now) == LiveChunks(b, now)
  {
    forall c ensures c in LiveChunks(a, now) <==> c in LiveChunks(b, now) {
      assert Live(a, c, now) == Live(b, c, now);
    }
  }

  /** Alike tables answer every call alike and stay alike. */
  lemma CallAlike(a: Leases, b: Leases, ttl: int, call: Call)
    requires Alike(a, b, call.now) && !call.Sweep?
    ensures Perform(ttl, a, call).1 == Perform(ttl, b, call).1
    ensures Alike(Perform(ttl, a, call).0, Perform(ttl, b, call).0, call.now)
  {
    var now := call.now;
    var a', b' := Perform(ttl, a, call).0, Perform(ttl, b, call).0;
    if call.Count? {
      LiveChunksAlike(a, b, now);
    } else {
      assert Live(a, call.chunk, now) == Live(b, call.chunk, now);
    }
    forall c ensures Live(a', c, now) == Live(b', c, now) {
      assert Live(a, c, now) == Live(b, c, now);
    }
  }

  lemma {:induction false} SweepsInvisibleFrom(ttl: int, a: Leases, b: Leases, calls: seq<Call>, since: int)
    requires Ordered(calls) && Alike(a, b, since) && (calls != [] ==> since <= calls[0].now)
    ensures Visible(ttl, a, calls) == Visible(ttl, b, WithoutSweeps(calls))
    decreases |calls|
  {
    if calls != [] {
      var call, rest := calls[0], calls[1..];
      AlikeLater(a, b, since, call.now);
      var a' := Perform(ttl, a, call).0;
      if call.Sweep? {
        SweepAlike(a, b, ttl, call.now);
        SweepsInvisibleFrom(ttl, a', b, rest, call.now);
        assert WithoutSweeps(calls) == WithoutSweeps(rest);
      } else {
        CallAlike(a, b, ttl, call);
        SweepsInvisibleFrom(ttl, a', Perform(ttl, b, call).0, rest, call.now);
        assert WithoutSweeps(calls)[0] == call && WithoutSweeps(calls)[1..] == WithoutSweeps(rest);
      }
    }
  }

  /** Whatever sweeps a history contains, every other call is answered as if
      there had been none. */
  lemma SweepsInvisible(ttl: int, calls: seq<Call>)
    requires Ordered(calls)
    ensures Visible(ttl, map[], calls) == Visible(ttl, map[], WithoutSweeps(calls))
  {
    if calls != [] {
      SweepsInvisibleFrom(ttl, map[], map[], calls, calls[0].now);
    }
  }
}
