/** Segment file names: a number padded to 16 digits and a suffix, read back by
    the recovery and sorted there as strings. */
module WalNames {
  import opened Bytes
  import opened Options

  const SUFFIX: string := ".wal"

  /** Ten to the sixteenth: the first number that needs seventeen digits. */
  const TEN_16: nat := 10_000_000_000_000_000

  function Pow10(k: nat): (p: nat)
    ensures p > 0
  {
    if k == 0 then 1 else 10 * Pow10(k - 1)
  }

  lemma Pow10Is16()
    ensures Pow10(16) == TEN_16
  {
    assert Pow10(4) == 10_000;
    assert Pow10(8) == 10 * (10 * (10 * (10 * Pow10(4))));
    assert Pow10(12) == 10 * (10 * (10 * (10 * Pow10(8))));
    assert Pow10(16) == 10 * (10 * (10 * (10 * Pow10(12))));
  }

  function Digit(d: nat): char
    requires d < 10
  {
    '0' + d as char
  }

  /** The last `k` decimal digits of `n`. */
  function Padded(n: nat, k: nat): string {
    if k == 0 then "" else Padded(n / 10, k - 1) + [Digit(n % 10)]
  }

  /** All the decimal digits of `n`. */
  function Decimal(n: nat): string {
    if n < 10 then [Digit(n)] else Decimal(n / 10) + [Digit(n % 10)]
  }

  predicate AllDigits(s: string) {
    forall i :: 0 <= i < |s| ==> '0' <= s[i] <= '9'
  }

  /** Zero-padded to at least 16 digits. */
  function Numeral(id: nat): string {
    if id < TEN_16 then Padded(id, 16) else Decimal(id)
  }

  function SegmentName(id: nat): string {
    Numeral(id) + SUFFIX
  }

  /** The number a string of digits denotes. */
  function Value(s: string): nat {
    if s == "" then 0
    else
      var c := s[|s| - 1];
      10 * Value(s[..|s| - 1]) + if '0' <= c <= '9' then c as int - '0' as int else 0
  }

  function TrimSuffix(s: string): string {
    if |s| >= |SUFFIX| && s[|s| - |SUFFIX|..] == SUFFIX then s[..|s| - |SUFFIX|] else s
  }

  /** The number in a file name: decimal digits only, at least one, at most 64 bits. */
  function SegmentId(name: string): Option<nat> {
    var base := TrimSuffix(name);
    if base == "" || !AllDigits(base) || Value(base) > MAX_UINT64 then None else Some(Value(base))
  }

  // ---------- Names are read back ----------

  lemma {:induction false} PaddedDigits(n: nat, k: nat)
    ensures |Padded(n, k)| == k && AllDigits(Padded(n, k))
  {
    if k > 0 {
      PaddedDigits(n / 10, k - 1);
    }
  }

  lemma {:induction false} PaddedValue(n: nat, k: nat)
    requires n < Pow10(k)
    ensures Value(Padded(n, k)) == n
  {
    if k > 0 {
      PaddedDigits(n / 10, k - 1);
      PaddedValue(n / 10, k - 1);
      assert Padded(n, k)[..k - 1] == Padded(n / 10, k - 1);
    }
  }

  lemma {:induction false} DecimalValue(n: nat)
    ensures Value(Decimal(n)) == n && |Decimal(n)| >= 1 && AllDigits(Decimal(n))
  {
    if n < 10 {
      assert Value(Decimal(n)[..0]) == 0;
    } else {
      DecimalValue(n / 10);
      assert Decimal(n)[..|Decimal(n)| - 1] == Decimal(n / 10);
    }
  }

  /** Every 64-bit id is recovered from its name. */
  lemma NameRoundTrip(id: nat)
    requires id <= MAX_UINT64
    ensures SegmentId(SegmentName(id)) == Some(id)
  {
    Pow10Is16();
    assert TrimSuffix(SegmentName(id)) == Numeral(id);
    if id < TEN_16 {
      PaddedDigits(id, 16);
      PaddedValue(id, 16);
    } else {
      DecimalValue(id);
    }
  }

  /** Any other file name has an id if and only if it is a decimal number that
      fits 64 bits. */
  lemma IdOfName(base: string)
    ensures SegmentId(base + ".wal") ==
      if base != "" && (forall i :: 0 <= i < |base| ==> '0' <= base[i] <= '9') && Value(base) <= 0xFFFF_FFFF_FFFF_FFFF
      then Some(Value(base)) else None
  {
    var name := base + SUFFIX;
    assert name[..|name| - |SUFFIX|] == base && name[|name| - |SUFFIX|..] == SUFFIX;
  }

  lemma NamesDiffer(a: nat, b: nat)
    requires a <= MAX_UINT64 && b <= MAX_UINT64 && a != b
    ensures SegmentName(a) != SegmentName(b)
  {
    NameRoundTrip(a);
    NameRoundTrip(b);
  }

  // ---------- Names sort like numbers, up to sixteen digits ----------

  /** String order, as the recovery sort uses it. */
  predicate Less(s: string, t: string) {
    if t == "" then false
    else if s == "" then true
    else s[0] < t[0] || (s[0] == t[0] && Less(s[1..], t[1..]))
  }

  lemma {:induction false} LessAppended(s: string, t: string, u: string, v: string)
    requires |s| == |t|
    ensures Less(s + u, t + v) <==> Less(s, t) || (s == t && Less(u, v))
  {
    if s == "" {
      assert s + u == u && t + v == v;
    } else {
      LessAppended(s[1..], t[1..], u, v);
      assert (s + u)[1..] == s[1..] + u && (t + v)[1..] == t[1..] + v;
    }
  }

  lemma DigitOrder(a: nat, b: nat)
    ensures a < b <==> a / 10 < b / 10 || (a / 10 == b / 10 && a % 10 < b % 10)
  {
  }

  lemma PaddedStep(a: nat, b: nat, k: nat)
    requires k > 0
    ensures Less(Padded(a, k), Padded(b, k)) <==>
      || Less(Padded(a / 10, k - 1), Padded(b / 10, k - 1))
      || (Padded(a / 10, k - 1) == Padded(b / 10, k - 1) && a % 10 < b % 10)
  {
    PaddedDigits(a / 10, k - 1);
    PaddedDigits(b / 10, k - 1);
    LessAppended(Padded(a / 10, k - 1), Padded(b / 10, k - 1), [Digit(a % 10)], [Digit(b % 10)]);
  }

  lemma {:induction false} PaddedOrder(a: nat, b: nat, k: nat)
    requires a < Pow10(k) && b < Pow10(k)
    ensures Less(Padded(a, k), Padded(b, k)) <==> a < b
  {
    if k > 0 {
      PaddedOrder(a / 10, b / 10, k - 1);
      PaddedStep(a, b, k);
      PaddedValue(a / 10, k - 1);
      PaddedValue(b / 10, k - 1);
      DigitOrder(a, b);
    }
  }

  lemma NameOrder(a: nat, b: nat)
    requires a < TEN_16 && b < TEN_16
    ensures Less(SegmentName(a), SegmentName(b)) <==> a < b
  {
    Pow10Is16();
    PaddedOrder(a, b, 16);
    PaddedDigits(a, 16);
    PaddedDigits(b, 16);
    LessAppended(Padded(a, 16), Padded(b, 16), SUFFIX, SUFFIX);
  }

  ghost predicate OrderAgrees(limit: nat) {
    forall a: nat, b: nat :: a < limit && b < limit ==> (Less(SegmentName(a), SegmentName(b)) <==> a < b)
  }

  lemma {:induction false} PaddedFirst(n: nat, k: nat)
    requires k > 0 && n + 1 == Pow10(k)
    ensures |Padded(n, k)| == k && Padded(n, k)[0] == '9'
  {
    if k > 1 {
      PaddedFirst(n / 10, k - 1);
    }
  }

  lemma {:induction false} DecimalFirst(n: nat, k: nat)
    requires n == Pow10(k)
    ensures |Decimal(n)| >= 1 && Decimal(n)[0] == '1'
  {
    if k > 0 {
      DecimalFirst(n / 10, k - 1);
    }
  }

  /** Sorting names sorts ids below a limit if and only if none of them needs
      more than sixteen digits: the seventeen-digit 10^16 sorts before 10^16 - 1. */
  lemma NameOrderIff(limit: nat)
    ensures OrderAgrees(limit) <==> limit <= TEN_16
  {
    if limit <= TEN_16 {
      forall a: nat, b: nat | a < limit && b < limit
        ensures Less(SegmentName(a), SegmentName(b)) <==> a < b
      {
        NameOrder(a, b);
      }
    } else {
      Pow10Is16();
      PaddedFirst(TEN_16 - 1, 16);
      DecimalFirst(TEN_16, 16);
      assert SegmentName(TEN_16 - 1)[0] == '9' && SegmentName(TEN_16)[0] == '1';
      assert !Less(SegmentName(TEN_16 - 1), SegmentName(TEN_16));
    }
  }

  // ---------- Sorted listings ----------

  predicate IsSegment(name: string) {
    |name| >= |SUFFIX| && name[|name| - |SUFFIX|..] == SUFFIX
  }

  /** `names` lists the segment files among `files`, each once, in string order. */
  ghost predicate Listing(names: seq<string>, files: set<string>) {
    && (forall i, j :: 0 <= i < j < |names| ==> Less(names[i], names[j]))
    && (forall n :: n in names <==> n in files && IsSegment(n))
  }

  lemma {:induction false} LessTransitive(s: string, t: string, u: string)
    requires Less(s, t) && Less(t, u)
    ensures Less(s, u)
  {
    if s != "" && s[0] == t[0] && t[0] == u[0] {
      LessTransitive(s[1..], t[1..], u[1..]);
    }
  }

  lemma {:induction false} LessTotal(s: string, t: string)
    ensures Less(s, t) || s == t || Less(t, s)
    ensures !(Less(s, t) && Less(t, s)) && !Less(s, s)
  {
    if s != "" && t != "" {
      LessTotal(s[1..], t[1..]);
      if s[0] == t[0] && s[1..] == t[1..] {
        assert s == [s[0]] + s[1..];
        assert t == [t[0]] + t[1..];
      }
    }
    if s != "" {
      LessTotal(s[1..], s[1..]);
    }
  }

  lemma NonEmptyListing(names: seq<string>, names': seq<string>, files: set<string>)
    requires Listing(names, files) && Listing(names', files) && names != []
    ensures names' != []
  {
    assert names[0] in names;
  }

  lemma RestListed(names: seq<string>, files: set<string>)
    requires Listing(names, files) && names != []
    ensures Listing(names[1..], files - {names[0]})
  {
    LessTotal(names[0], names[0]);
    assert names == [names[0]] + names[1..];
    forall n | n in names[1..] ensures n != names[0] {
      var i :| 0 <= i < |names[1..]| && names[1..][i] == n;
      assert Less(names[0], names[i + 1]);
    }
  }

  lemma SameFirst(names: seq<string>, names': seq<string>, files: set<string>)
    requires Listing(names, files) && Listing(names', files) && names != [] && names' != []
    ensures names[0] == names'[0]
  {
    assert names[0] in names' && names'[0] in names;
    var i :| 0 <= i < |names'| && names'[i] == names[0];
    var j :| 0 <= j < |names| && names[j] == names'[0];
    LessTotal(names[0], names'[0]);
  }

  lemma {:induction false} ListingUnique(names: seq<string>, names': seq<string>, files: set<string>)
    requires Listing(names, files) && Listing(names', files)
    ensures names == names'
    decreases |names|
  {
    if names != [] {
      assert names[0] in names';
      SameFirst(names, names', files);
      ListingUnique(names[1..], names'[1..], files - {names[0]}) by {
        RestListed(names, files);
        RestListed(names', files);
      }
      assert names == [names[0]] + names[1..] && names' == [names'[0]] + names'[1..];
    } else if names' != [] {
      NonEmptyListing(names', names, files);
    }
  }

  /** Inserts a name where it belongs. */
  function InsertName(names: seq<string>, name: string): seq<string> {
    if names == [] || Less(name, names[0]) then [name] + names
    else [names[0]] + InsertName(names[1..], name)
  }

  lemma {:induction false} InsertListed(names: seq<string>, files: set<string>, name: string)
    requires Listing(names, files) && name !in files && IsSegment(name)
    ensures Listing(InsertName(names, name), files + {name})
  {
    if names == [] {
    } else if Less(name, names[0]) {
      forall i | 0 <= i < |names| ensures Less(name, names[i]) {
        if i > 0 {
          LessTransitive(name, names[0], names[i]);
        }
      }
    } else {
      RestListed(names, files);
      InsertListed(names[1..], files - {names[0]}, name);
      var rest := InsertName(names[1..], name);
      assert names[0] in names;
      LessTotal(name, names[0]);
      assert names == [names[0]] + names[1..];
      forall i | 0 <= i < |rest| ensures Less(names[0], rest[i]) {
        assert rest[i] in rest;
        if rest[i] != name {
          assert rest[i] in names[1..];
        }
      }
      assert (files - {names[0]}) + {name} == (files + {name}) - {names[0]};
    }
  }
}
