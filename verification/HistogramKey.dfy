/** Histogram bucket boundaries and the cache key built from them, `metrics/metrics.go`. The number format
    is any injective one without ',' and ':'. */
module HistogramKey {

  /** A finite boundary counts units of 2^-1074, the smallest subnormal, of which every finite double is
      a multiple. `Finite(0)` is positive zero; it compares equal to `NegZero`. */
  datatype Boundary = NaN | NegInf | NegZero | Finite(value: int) | PosInf

  function Magnitude(b: Boundary): int {
    if b.Finite? then b.value else 0
  }

  /** IEEE-754 `<`. */
  predicate Less(a: Boundary, b: Boundary) {
    if a.NaN? || b.NaN? then false
    else if a.NegInf? then !b.NegInf?
    else if b.PosInf? then !a.PosInf?
    else !a.PosInf? && !b.NegInf? && Magnitude(a) < Magnitude(b)
  }

  /** IEEE-754 `==`. */
  predicate Same(a: Boundary, b: Boundary) {
    !a.NaN? && !b.NaN? && !Less(a, b) && !Less(b, a)
  }

  /** The order of `sort.Float64s`: NaN before everything. */
  predicate SortsBefore(a: Boundary, b: Boundary) {
    Less(a, b) || (a.NaN? && !b.NaN?)
  }

  predicate IsSorted(s: seq<Boundary>) {
    forall i, j :: 0 <= i < j < |s| ==> !SortsBefore(s[j], s[i])
  }

  function Insert(b: Boundary, s: seq<Boundary>): (r: seq<Boundary>)
    ensures multiset(r) == multiset(s) + multiset{b}
  {
    if s == [] then [b]
    else if SortsBefore(s[0], b) then
      assert s == [s[0]] + s[1..];
      [s[0]] + Insert(b, s[1..])
    else [b] + s
  }

  /** What `sort.Float64s` leaves; `SortIsUnique` shows that on accepted lists any sort agrees. */
  function Sort(s: seq<Boundary>): (r: seq<Boundary>)
    ensures multiset(r) == multiset(s)
    ensures |r| == |s|
  {
    if s == [] then []
    else
      assert s == [s[0]] + s[1..];
      var r := Insert(s[0], Sort(s[1..]));
      assert |multiset(r)| == |multiset(s)|;
      r
  }

  lemma {:induction false} InsertSorts(b: Boundary, s: seq<Boundary>)
    requires IsSorted(s)
    ensures IsSorted(Insert(b, s))
  {
    if s != [] && SortsBefore(s[0], b) {
      InsertSorts(b, s[1..]);
      var r := Insert(b, s[1..]);
      forall j | 0 <= j < |r| ensures !SortsBefore(r[j], s[0]) {
        assert r[j] in multiset(r);
        if r[j] != b {
          assert r[j] in s[1..];
        }
      }
    }
  }

  lemma {:induction false} SortSorts(s: seq<Boundary>)
    ensures IsSorted(Sort(s))
  {
    if s != [] {
      SortSorts(s[1..]);
      InsertSorts(s[0], Sort(s[1..]));
    }
  }

  // ---------------------------------------------------------------- validateBuckets

  predicate StrictlyIncreasing(s: seq<Boundary>) {
    (forall i :: 0 <= i < |s| ==> !s[i].NaN?) && (forall i, j :: 0 <= i < j < |s| ==> Less(s[i], s[j]))
  }

  method ValidateBuckets(sorted: seq<Boundary>) returns (ok: bool)
    ensures ok <==> StrictlyIncreasing(sorted)
  {
    for i := 0 to |sorted|
      invariant StrictlyIncreasing(sorted[..i])
    {
      var boundary := sorted[i];
      if boundary.NaN? || (i > 0 && !Less(sorted[i-1], boundary)) {
        return false;
      }
      assert forall k :: 0 <= k < i - 1 ==> Less(sorted[..i][k], sorted[..i][i-1]);
      assert forall k :: 0 <= k < i ==> Less(sorted[k], boundary);
    }
    assert sorted[..|sorted|] == sorted;
    return true;
  }

  predicate Accepted(buckets: seq<Boundary>) {
    StrictlyIncreasing(Sort(buckets))
  }

  predicate NoDuplicates(s: seq<Boundary>) {
    forall i, j :: 0 <= i < j < |s| ==> !Same(s[i], s[j])
  }

  /** Being free of NaN and duplicates is a property of the contents, whatever their order. */
  predicate Proper(m: multiset<Boundary>) {
    && (forall a :: a in m ==> !a.NaN? && m[a] == 1)
    && (forall a, b :: a in m && b in m && a != b ==> !Same(a, b))
  }

  lemma {:induction false} CountInSeq(s: seq<Boundary>, i: nat, j: nat)
    requires i < j < |s| && s[i] == s[j]
    ensures s[i] in multiset(s) && multiset(s)[s[i]] >= 2
  {
    assert s == s[..i] + [s[i]] + s[i+1..j] + [s[j]] + s[j+1..];
  }

  lemma {:induction false} SecondIndex(s: seq<Boundary>, a: Boundary) returns (i: nat, j: nat)
    requires multiset(s)[a] >= 2
    ensures i < j < |s| && s[i] == a == s[j]
  {
    if s[0] == a {
      assert s == [s[0]] + s[1..];
      assert a in s[1..];
      var k :| 0 <= k < |s[1..]| && s[1..][k] == a;
      i, j := 0, k + 1;
    } else {
      assert s == [s[0]] + s[1..];
      i, j := SecondIndex(s[1..], a);
      i, j := i + 1, j + 1;
    }
  }

  lemma ProperIff(s: seq<Boundary>)
    ensures Proper(multiset(s)) <==> NoDuplicates(s) && forall i :: 0 <= i < |s| ==> !s[i].NaN?
  {
    if Proper(multiset(s)) {
      forall i, j | 0 <= i < j < |s| ensures !Same(s[i], s[j]) {
        if s[i] == s[j] {
          CountInSeq(s, i, j);
        }
      }
    } else if NoDuplicates(s) && forall i :: 0 <= i < |s| ==> !s[i].NaN? {
      forall a | a in multiset(s) ensures multiset(s)[a] == 1 {
        if multiset(s)[a] >= 2 {
          var i, j := SecondIndex(s, a);
        }
      }
      forall a, b | a in multiset(s) && b in multiset(s) && a != b ensures !Same(a, b) {
        var i :| 0 <= i < |s| && s[i] == a;
        var j :| 0 <= j < |s| && s[j] == b;
        assert i < j || j < i;
      }
    }
  }

  /** Sorting and then validating accepts a list exactly when it holds no NaN and no two equal
      boundaries, `-0` and `0` being equal. */
  lemma AcceptedIff(buckets: seq<Boundary>)
    ensures Accepted(buckets) <==> NoDuplicates(buckets) && forall i :: 0 <= i < |buckets| ==> !buckets[i].NaN?
  {
    var s := Sort(buckets);
    SortSorts(buckets);
    ProperIff(buckets);
    ProperIff(s);
  }

  lemma SmallestComesFirst(a: seq<Boundary>, b: seq<Boundary>)
    requires a != [] && b != [] && multiset(a) == multiset(b) && StrictlyIncreasing(a) && IsSorted(b)
    ensures a[0] == b[0]
  {
    assert a[0] in multiset(b) && b[0] in multiset(a);
    var j :| 0 <= j < |b| && b[j] == a[0];
    var i :| 0 <= i < |a| && a[i] == b[0];
    assert i > 0 ==> Less(a[0], a[i]);
    assert j > 0 ==> !SortsBefore(b[j], b[0]);
  }

  lemma TailsAgree(a: seq<Boundary>, b: seq<Boundary>)
    requires a != [] && b != [] && multiset(a) == multiset(b) && a[0] == b[0]
    ensures multiset(a[1..]) == multiset(b[1..])
  {
    assert a == [a[0]] + a[1..] && b == [b[0]] + b[1..];
    assert multiset(a[1..]) == multiset(a) - multiset{a[0]};
    assert multiset(b[1..]) == multiset(b) - multiset{b[0]};
  }

  /** Two sorted lists with the same contents are the same list, when the contents are accepted. */
  lemma {:induction false} SortIsUnique(a: seq<Boundary>, b: seq<Boundary>)
    requires multiset(a) == multiset(b) && StrictlyIncreasing(a) && IsSorted(b)
    ensures a == b
  {
    assert |a| == |multiset(a)| == |multiset(b)| == |b|;
    if a != [] {
      SmallestComesFirst(a, b);
      TailsAgree(a, b);
      SortIsUnique(a[1..], b[1..]);
      assert a == [a[0]] + a[1..] && b == [b[0]] + b[1..];
    }
  }

  // ---------------------------------------------------------------- histogramCacheKey

  type Format = Boundary -> string

  ghost predicate GoodFormat(fmt: Format) {
    && (forall a: Boundary, b: Boundary :: !a.NaN? && !b.NaN? && fmt(a) == fmt(b) ==> a == b)
    && (forall a: Boundary :: ',' !in fmt(a) && ':' !in fmt(a))
  }

  /** A format that is good: a sign and a unary count. */
  function Unary(b: Boundary): string {
    match b
    case NaN => "NaN"
    case NegInf => "-Inf"
    case PosInf => "+Inf"
    case NegZero => "-"
    case Finite(v) => if v >= 0 then Ones(v) else "-" + Ones(-v)
  }

  function Ones(n: nat): (r: string)
    ensures |r| == n && forall i :: 0 <= i < n ==> r[i] == '1'
  {
    seq(n, _ => '1')
  }

  /** So the theorems below are about something; this one even writes some boundary as "1". */
  lemma SomeFormatIsGood()
    ensures GoodFormat(Unary) && Unary(Finite(1)) == "1"
  {
    assert Unary(Finite(1)) == "1";
    forall a: Boundary ensures ',' !in Unary(a) && ':' !in Unary(a) {
      hide Ones;
      if a.Finite? && a.value < 0 {
        assert Unary(a)[0] == '-' && Unary(a)[1..] == Ones(-a.value);
      }
    }
    forall a: Boundary, b: Boundary | !a.NaN? && !b.NaN? && Unary(a) == Unary(b) ensures a == b {
      UnaryIsInjective(a, b);
    }
  }

  lemma UnaryIsInjective(a: Boundary, b: Boundary)
    requires !a.NaN? && !b.NaN? && Unary(a) == Unary(b)
    ensures a == b
  {
    hide Ones;
    var u := Unary(a);
    assert a.Finite? && a.value < 0 ==> |u| == 1 - a.value && u[0] == '-' && u[1] == '1';
    assert b.Finite? && b.value < 0 ==> |u| == 1 - b.value && u[0] == '-' && u[1] == '1';
    assert a.Finite? && a.value > 0 ==> u[0] == '1';
    assert b.Finite? && b.value > 0 ==> u[0] == '1';
  }

  function JoinFormatted(fmt: Format, buckets: seq<Boundary>): string
    requires buckets != []
  {
    if |buckets| == 1 then fmt(buckets[0]) else fmt(buckets[0]) + "," + JoinFormatted(fmt, buckets[1..])
  }

  function CacheKey(fmt: Format, name: string, buckets: seq<Boundary>): string {
    if buckets == [] then name else name + ":" + JoinFormatted(fmt, Sort(buckets))
  }

  method HistogramCacheKey(fmt: Format, name: string, buckets: seq<Boundary>) returns (key: string)
    ensures key == CacheKey(fmt, name, buckets)
  {
    if |buckets| == 0 {
      return name;
    }
    var sortedBuckets := Sort(buckets);
    var bucketStrings := new string[|sortedBuckets|](_ => "");
    for i := 0 to |sortedBuckets|
      invariant forall k :: 0 <= k < i ==> bucketStrings[k] == fmt(sortedBuckets[k])
    {
      bucketStrings[i] := fmt(sortedBuckets[i]);
    }
    var joined := bucketStrings[|sortedBuckets| - 1];
    for i := |sortedBuckets| - 1 downto 0
      invariant joined == JoinFormatted(fmt, sortedBuckets[i..])
    {
      joined := bucketStrings[i] + "," + joined;
      assert sortedBuckets[i..][1..] == sortedBuckets[i+1..];
    }
    assert sortedBuckets[0..] == sortedBuckets;
    return name + ":" + joined;
  }

  /** Two texts that agree and are each cut at the first separator agree on both sides of it. */
  lemma CutAtFirst(a: string, b: string, c: char, restA: string, restB: string)
    requires c !in a && c !in b && a + [c] + restA == b + [c] + restB
    ensures a == b && restA == restB
  {
    var w, v := a + [c] + restA, b + [c] + restB;
    assert w[|a|] == c && v[|b|] == c;
    assert |a| == |b|;
    assert w[..|a|] == a && v[..|b|] == b && w[|a|+1..] == restA && v[|b|+1..] == restB;
  }

  lemma CutAtLast(a: string, b: string, c: char, restA: string, restB: string)
    requires c !in restA && c !in restB && a + [c] + restA == b + [c] + restB
    ensures a == b && restA == restB
  {
    var w, v := a + [c] + restA, b + [c] + restB;
    assert w[|a|] == c && v[|b|] == c;
    assert |a| == |b|;
    assert w[..|a|] == a && v[..|b|] == b && w[|a|+1..] == restA && v[|b|+1..] == restB;
  }

  lemma {:induction false} NoColonInJoined(fmt: Format, s: seq<Boundary>)
    requires GoodFormat(fmt) && s != []
    ensures ':' !in JoinFormatted(fmt, s)
  {
    if |s| > 1 {
      NoColonInJoined(fmt, s[1..]);
    }
  }

  lemma {:induction false} JoinedIsInjective(fmt: Format, a: seq<Boundary>, b: seq<Boundary>)
    requires GoodFormat(fmt) && a != [] && b != []
    requires forall i :: 0 <= i < |a| ==> !a[i].NaN?
    requires forall i :: 0 <= i < |b| ==> !b[i].NaN?
    requires JoinFormatted(fmt, a) == JoinFormatted(fmt, b)
    ensures a == b
  {
    JoinedSplits(fmt, a);
    JoinedSplits(fmt, b);
    assert |a| > 1 <==> |b| > 1;
    if |a| > 1 {
      CutAtFirst(fmt(a[0]), fmt(b[0]), ',', JoinFormatted(fmt, a[1..]), JoinFormatted(fmt, b[1..]));
      JoinedIsInjective(fmt, a[1..], b[1..]);
      assert a == [a[0]] + a[1..] && b == [b[0]] + b[1..];
    }
  }

  lemma JoinedSplits(fmt: Format, s: seq<Boundary>)
    requires GoodFormat(fmt) && s != []
    ensures |s| > 1 ==> JoinFormatted(fmt, s) == fmt(s[0]) + [','] + JoinFormatted(fmt, s[1..])
    ensures |s| > 1 <==> ',' in JoinFormatted(fmt, s)
  {
    if |s| > 1 {
      assert JoinFormatted(fmt, s)[|fmt(s[0])|] == ',';
    }
  }

  /** On accepted lists the key forgets the order the boundaries were given in and nothing else: two
      non-empty lists share a key, under any names whatever, iff names and boundary sets agree. */
  lemma KeysAgreeIff(fmt: Format, name1: string, b1: seq<Boundary>, name2: string, b2: seq<Boundary>)
    requires GoodFormat(fmt) && Accepted(b1) && Accepted(b2) && b1 != [] && b2 != []
    ensures CacheKey(fmt, name1, b1) == CacheKey(fmt, name2, b2) <==> name1 == name2 && multiset(b1) == multiset(b2)
  {
    var s1, s2 := Sort(b1), Sort(b2);
    SortSorts(b1);
    SortSorts(b2);
    if CacheKey(fmt, name1, b1) == CacheKey(fmt, name2, b2) {
      NoColonInJoined(fmt, s1);
      NoColonInJoined(fmt, s2);
      CutAtLast(name1, name2, ':', JoinFormatted(fmt, s1), JoinFormatted(fmt, s2));
      JoinedIsInjective(fmt, s1, s2);
    }
    if multiset(b1) == multiset(b2) {
      SortIsUnique(s1, s2);
    }
  }

  /** Accepted lists have no repetitions, so equal contents and equal boundary sets are the same thing. */
  lemma AcceptedSetsAreMultisets(a: seq<Boundary>, b: seq<Boundary>)
    requires Accepted(a) && Accepted(b)
    ensures multiset(a) == multiset(b) <==> forall x :: x in a <==> x in b
  {
    AcceptedIff(a);
    AcceptedIff(b);
    ProperIff(a);
    ProperIff(b);
    assert forall x :: x in a <==> x in multiset(a);
    assert forall x :: x in b <==> x in multiset(b);
    if forall x :: x in a <==> x in b {
      forall x: Boundary ensures multiset(a)[x] == multiset(b)[x] {
        assert x in a <==> x in b;
      }
    }
  }

  /** Exactly when two different accepted requests collide: one has no boundaries and a name that
      already spells the other's name, colon and boundaries. Colon-free names never collide. */
  lemma CollisionsIff(fmt: Format, name1: string, b1: seq<Boundary>, name2: string, b2: seq<Boundary>)
    requires GoodFormat(fmt) && Accepted(b1) && Accepted(b2)
    requires !(name1 == name2 && multiset(b1) == multiset(b2))
    ensures CacheKey(fmt, name1, b1) == CacheKey(fmt, name2, b2) <==>
            || (b1 == [] && b2 != [] && name1 == CacheKey(fmt, name2, b2))
            || (b2 == [] && b1 != [] && name2 == CacheKey(fmt, name1, b1))
    ensures ':' !in name1 && ':' !in name2 ==> CacheKey(fmt, name1, b1) != CacheKey(fmt, name2, b2)
  {
    if b1 != [] && b2 != [] {
      KeysAgreeIff(fmt, name1, b1, name2, b2);
    }
    if b1 != [] {
      assert CacheKey(fmt, name1, b1)[|name1|] == ':';
    }
    if b2 != [] {
      assert CacheKey(fmt, name2, b2)[|name2|] == ':';
    }
  }

  /** Why negative zero is set apart: it names the same boundary as zero, but another key. */
  lemma NegativeZeroSplitsTheKey(fmt: Format, name: string)
    requires GoodFormat(fmt)
    ensures Same(NegZero, Finite(0)) && Accepted([NegZero]) && Accepted([Finite(0)])
    ensures CacheKey(fmt, name, [NegZero]) != CacheKey(fmt, name, [Finite(0)])
  {
    AcceptedIff([NegZero]);
    AcceptedIff([Finite(0)]);
    KeysAgreeIff(fmt, name, [NegZero], name, [Finite(0)]);
    assert NegZero in multiset([NegZero]) && NegZero !in multiset([Finite(0)]);
  }
}
