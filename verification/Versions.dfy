/**
 Version strings: how they are split, what the padded part-wise order is, and how
 AILibraryManager::VersionCompare computes its sign from one weighted sum.
 */
module Versions {
  import opened Ordering

  // ---------------------------------------------------------------- splitting

  predicate Dotless(s: string) {
    '.' !in s
  }

  /** The number of characters before the first '.', or the length if there is none. */
  function TokenLength(s: string): (n: nat)
    ensures n <= |s| && Dotless(s[..n]) && (n < |s| ==> s[n] == '.')
  {
    if s == [] || s[0] == '.' then 0 else
      assert s[..1 + TokenLength(s[1..])] == [s[0]] + s[1..][..TokenLength(s[1..])];
      1 + TokenLength(s[1..])
  }

  /** The maximal runs of characters other than '.', from left to right. */
  function Split(s: string): seq<string> {
    if s == [] then []
    else if s[0] == '.' then Split(s[1..])
    else [s[..TokenLength(s)]] + Split(s[TokenLength(s)..])
  }

  function Join(parts: seq<string>): string {
    if parts == [] then ""
    else if |parts| == 1 then parts[0]
    else parts[0] + "." + Join(parts[1..])
  }

  ghost predicate AreParts(parts: seq<string>) {
    forall p :: p in parts ==> p != "" && Dotless(p)
  }

  lemma {:induction false} SplitGivesParts(s: string)
    ensures AreParts(Split(s))
    decreases |s|
  {
    if s != [] {
      if s[0] == '.' {
        SplitGivesParts(s[1..]);
      } else {
        SplitGivesParts(s[TokenLength(s)..]);
      }
    }
  }

  lemma {:induction false} TokenThenDot(p: string, rest: string)
    requires Dotless(p) && (rest == [] || rest[0] == '.')
    ensures TokenLength(p + rest) == |p|
  {
    if p == [] {
      assert p + rest == rest;
    } else {
      TokenThenDot(p[1..], rest);
      assert (p + rest)[1..] == p[1..] + rest;
    }
  }

  /** Splitting undoes joining, for every list of parts. */
  lemma {:induction false} SplitJoin(parts: seq<string>)
    requires AreParts(parts)
    ensures Split(Join(parts)) == parts
  {
    if parts != [] {
      var p, rest := parts[0], if |parts| == 1 then "" else "." + Join(parts[1..]);
      assert Join(parts) == p + rest;
      TokenThenDot(p, rest);
      assert (p + rest)[..|p|] == p && (p + rest)[|p|..] == rest;
      if |parts| == 1 {
        assert parts == [p];
      } else {
        SplitJoin(parts[1..]);
        assert rest[1..] == Join(parts[1..]);
        assert parts == [p] + parts[1..];
      }
    }
  }

  /** CSimpleParser::Split with "." as the only delimiter; |str| plays the part of npos. */
  method SplitAtDots(str: string) returns (tokens: seq<string>)
    ensures tokens == Split(str)
  {
    tokens := [];
    var lastPos := FindFirstNotDot(str, 0);
    var pos := FindFirstDot(str, lastPos);
    while pos != |str| || lastPos != |str|
      invariant lastPos <= pos <= |str|
      invariant lastPos < |str| ==> str[lastPos] != '.'
      invariant Dotless(str[lastPos..pos]) && (pos < |str| ==> str[pos] == '.')
      invariant tokens + Split(str[lastPos..]) == Split(str)
      decreases |str| - lastPos
    {
      SplitStep(str, lastPos, pos);
      tokens := tokens + [str[lastPos..pos]];
      lastPos := FindFirstNotDot(str, pos);
      pos := FindFirstDot(str, lastPos);
    }
    assert str[lastPos..] == [];
  }

  lemma SplitStep(str: string, lastPos: nat, pos: nat)
    requires lastPos < pos <= |str|
    requires Dotless(str[lastPos..pos]) && (pos < |str| ==> str[pos] == '.')
    ensures Split(str[lastPos..]) == [str[lastPos..pos]] + Split(str[pos..])
  {
    var token, rest := str[lastPos..pos], str[pos..];
    TokenThenDot(token, rest);
    assert str[lastPos..] == token + rest;
    assert (token + rest)[..|token|] == token && (token + rest)[|token|..] == rest;
    assert token[0] != '.';
  }

  method FindFirstDot(str: string, start: nat) returns (pos: nat)
    requires start <= |str|
    ensures start <= pos <= |str| && Dotless(str[start..pos]) && (pos < |str| ==> str[pos] == '.')
  {
    pos := start;
    while pos < |str| && str[pos] != '.'
      invariant start <= pos <= |str| && Dotless(str[start..pos])
    {
      pos := pos + 1;
    }
  }

  method FindFirstNotDot(str: string, start: nat) returns (pos: nat)
    requires start <= |str|
    ensures start <= pos <= |str| && (pos < |str| ==> str[pos] != '.')
    ensures Split(str[start..]) == Split(str[pos..])
  {
    pos := start;
    while pos < |str| && str[pos] == '.'
      invariant start <= pos <= |str| && Split(str[start..]) == Split(str[pos..])
    {
      assert str[pos..][1..] == str[pos + 1..];
      pos := pos + 1;
    }
  }

  // ---------------------------------------------------------------- the order

  /** The i-th part, where a list with fewer parts is filled up with "0". */
  function Part(parts: seq<string>, i: nat): string {
    if i < |parts| then parts[i] else "0"
  }

  function Rest(parts: seq<string>): seq<string> {
    if parts == [] then [] else parts[1..]
  }

  /** The documented order: parts from the left, missing parts read as "0". */
  function PartOrder(p: seq<string>, q: seq<string>): int
    decreases |p| + |q|
  {
    if p == [] && q == [] then 0
    else if Lex(Part(p, 0), Part(q, 0)) != 0 then Lex(Part(p, 0), Part(q, 0))
    else PartOrder(Rest(p), Rest(q))
  }

  function VersionOrder(v1: string, v2: string): int {
    PartOrder(Split(v1), Split(v2))
  }

  lemma {:induction false} PartOrderAntisymmetric(p: seq<string>, q: seq<string>)
    ensures PartOrder(p, q) == -PartOrder(q, p)
    ensures -1 <= PartOrder(p, q) <= 1
    decreases |p| + |q|
  {
    LexRange(Part(p, 0), Part(q, 0));
    if p != [] || q != [] {
      PartOrderAntisymmetric(Rest(p), Rest(q));
    }
  }

  /** Transitive over three lists of any lengths, although each pair is padded on its own. */
  lemma {:induction false} PartOrderTransitive(p: seq<string>, q: seq<string>, r: seq<string>)
    requires PartOrder(p, q) <= 0 && PartOrder(q, r) <= 0
    ensures PartOrder(p, r) <= 0
    ensures PartOrder(p, r) == 0 ==> PartOrder(p, q) == 0 && PartOrder(q, r) == 0
    decreases |p| + |q| + |r|
  {
    var a, b, c := Part(p, 0), Part(q, 0), Part(r, 0);
    LexRange(a, b);
    LexRange(b, c);
    LexRange(a, c);
    if p != [] || q != [] || r != [] {
      PartOrderUnroll(p, q);
      PartOrderUnroll(q, r);
      PartOrderUnroll(p, r);
      LexTransitive(a, b, c);
      if Lex(a, b) == 0 && Lex(b, c) == 0 {
        PartOrderTransitive(Rest(p), Rest(q), Rest(r));
      }
    }
  }

  lemma PartOrderEqualTransitive(p: seq<string>, q: seq<string>, r: seq<string>)
    requires PartOrder(p, q) == 0 && PartOrder(q, r) == 0
    ensures PartOrder(p, r) == 0
  {
    PartOrderTransitive(p, q, r);
    PartOrderAntisymmetric(p, q);
    PartOrderAntisymmetric(q, r);
    PartOrderTransitive(r, q, p);
    PartOrderAntisymmetric(p, r);
  }

  lemma PartOrderUnroll(p: seq<string>, q: seq<string>)
    ensures PartOrder(p, q) ==
            if Lex(Part(p, 0), Part(q, 0)) != 0 then Lex(Part(p, 0), Part(q, 0)) else PartOrder(Rest(p), Rest(q))
  {
    LexRange("0", "0");
  }

  function Trim(parts: seq<string>): seq<string> {
    if parts != [] && parts[|parts| - 1] == "0" then Trim(parts[..|parts| - 1]) else parts
  }

  lemma {:induction false} PartOrderSelf(p: seq<string>)
    ensures PartOrder(p, p) == 0
  {
    LexRange(Part(p, 0), Part(p, 0));
    if p != [] {
      PartOrderSelf(Rest(p));
    }
  }

  lemma {:induction false} ZeroAppended(p: seq<string>)
    ensures PartOrder(p, p + ["0"]) == 0
  {
    LexRange(Part(p, 0), Part(p, 0));
    if p != [] {
      ZeroAppended(p[1..]);
      assert (p + ["0"])[1..] == p[1..] + ["0"];
    }
  }

  lemma {:induction false} TrimEquivalent(p: seq<string>)
    ensures PartOrder(p, Trim(p)) == 0 && PartOrder(Trim(p), p) == 0
    ensures var t := Trim(p); t == [] || t[|t| - 1] != "0"
  {
    if p != [] && p[|p| - 1] == "0" {
      var front := p[..|p| - 1];
      TrimEquivalent(front);
      ZeroAppended(front);
      assert p == front + ["0"];
      PartOrderAntisymmetric(front, p);
      PartOrderEqualTransitive(p, front, Trim(p));
    } else {
      PartOrderSelf(p);
    }
    PartOrderAntisymmetric(p, Trim(p));
  }

  lemma {:induction false} TrimmedAndEqual(p: seq<string>, q: seq<string>)
    requires p == [] || p[|p| - 1] != "0"
    requires q == [] || q[|q| - 1] != "0"
    requires PartOrder(p, q) == 0
    ensures p == q
    decreases |p| + |q|
  {
    if p != [] || q != [] {
      LexRange(Part(p, 0), Part(q, 0));
      TrimmedAndEqual(Rest(p), Rest(q));
      assert p != [] ==> p == [p[0]] + Rest(p);
      assert q != [] ==> q == [q[0]] + Rest(q);
    }
  }

  /** Two versions compare equal exactly when they differ in trailing "0" parts only. */
  lemma EqualUpToTrailingZeros(p: seq<string>, q: seq<string>)
    ensures PartOrder(p, q) == 0 <==> Trim(p) == Trim(q)
  {
    TrimEquivalent(p);
    TrimEquivalent(q);
    if PartOrder(p, q) == 0 {
      PartOrderEqualTransitive(Trim(p), p, q);
      PartOrderEqualTransitive(Trim(p), q, Trim(q));
      TrimmedAndEqual(Trim(p), Trim(q));
    }
    if Trim(p) == Trim(q) {
      PartOrderEqualTransitive(p, Trim(p), q);
    }
  }

  // ---------------------------------------------------------------- the weighted sum

  /** std::string::compare promises a sign only; a library may return any magnitude up to its own bound. */
  ghost predicate IsCompare(compare: (string, string) -> int, bound: nat) {
    forall a, b :: Sign(compare(a, b)) == Lex(a, b) && Abs(compare(a, b)) <= bound
  }

  function Abs(x: int): nat {
    if x < 0 then -x else x
  }

  function Max(m: nat, n: nat): nat {
    if m > n then m else n
  }

  /** What compare returns for each pair of parts. */
  function Compares(compare: (string, string) -> int, p: seq<string>, q: seq<string>): (ds: seq<int>)
    ensures |ds| == Max(|p|, |q|)
    ensures forall i :: 0 <= i < |ds| ==> ds[i] == compare(Part(p, i), Part(q, i))
  {
    seq(Max(|p|, |q|), i requires 0 <= i => compare(Part(p, i), Part(q, i)))
  }

  function Pow4(n: nat): (r: int)
    ensures r >= 1
  {
    if n == 0 then 1 else 4 * Pow4(n - 1)
  }

  /** Each result weighted by a power of 4, the leftmost one most. */
  function Weighted(ds: seq<int>): int {
    if ds == [] then 0 else Pow4(|ds|) * ds[0] + Weighted(ds[1..])
  }

  /** The sign of the leftmost nonzero result. */
  function Leading(ds: seq<int>): int {
    if ds == [] then 0 else if ds[0] != 0 then Sign(ds[0]) else Leading(ds[1..])
  }

  ghost predicate Within(ds: seq<int>, bound: nat) {
    forall i :: 0 <= i < |ds| ==> Abs(ds[i]) <= bound
  }

  lemma {:induction false} WeightedBound(ds: seq<int>, bound: nat)
    requires Within(ds, bound)
    ensures -(bound * (Pow4(|ds| + 1) - 4)) <= 3 * Weighted(ds) <= bound * (Pow4(|ds| + 1) - 4)
  {
    if ds != [] {
      WeightedBound(ds[1..], bound);
      BoundStep(Pow4(|ds|), ds[0], Weighted(ds[1..]), bound);
      assert Pow4(|ds| + 1) == 4 * Pow4(|ds|);
    } else {
      assert Pow4(1) == 4 * Pow4(0);
    }
  }

  lemma BoundStep(w: int, d: int, rest: int, bound: nat)
    requires w >= 1 && Abs(d) <= bound
    requires -(bound * (w - 4)) <= 3 * rest <= bound * (w - 4)
    ensures -(bound * (4 * w - 4)) <= 3 * (w * d + rest) <= bound * (4 * w - 4)
  {
    Scale(w, d, bound);
    assert bound * (4 * w - 4) == 3 * (w * bound) + bound * (w - 4);
  }

  lemma Scale(w: int, d: int, bound: nat)
    requires w >= 0 && Abs(d) <= bound
    ensures -(w * bound) <= w * d <= w * bound
  {
    assert w * (bound - d) >= 0;
    assert w * (bound + d) >= 0;
  }

  lemma AtLeastItself(w: int, d: int)
    requires w >= 1
    ensures d > 0 ==> w * d >= w
    ensures d < 0 ==> w * d <= -w
  {
    assert d > 0 ==> w * (d - 1) >= 0;
    assert d < 0 ==> w * (-d - 1) >= 0;
  }

  /** With results of magnitude at most 3, no number of parts to the right outweighs the leftmost difference. */
  lemma {:induction false} WeightedHasLeadingSign(ds: seq<int>)
    requires Within(ds, 3)
    ensures Sign(Weighted(ds)) == Leading(ds)
  {
    if ds != [] {
      WeightedHasLeadingSign(ds[1..]);
      if ds[0] != 0 {
        WeightedBound(ds[1..], 3);
        AtLeastItself(Pow4(|ds|), ds[0]);
      }
    }
  }

  /** The weights are sound exactly for comparisons of magnitude at most 3; at 4, results -1 and 4 tie. */
  lemma WeightsSoundUpToThree(bound: nat)
    ensures (forall ds :: Within(ds, bound) ==> Sign(Weighted(ds)) == Leading(ds)) <==> bound <= 3
  {
    if bound <= 3 {
      forall ds | Within(ds, bound)
        ensures Sign(Weighted(ds)) == Leading(ds)
      {
        WeightedHasLeadingSign(ds);
      }
    } else {
      var ds := [-1, 4];
      assert ds[1..] == [4] && [4][1..] == [];
      assert Pow4(2) == 4 * Pow4(1) && Pow4(1) == 4 * Pow4(0);
      assert Weighted([4]) == 16;
      assert Weighted(ds) == 0;
      assert Within(ds, bound) && Leading(ds) == -1;
    }
  }

  // ---------------------------------------------------------------- 32-bit arithmetic

  const INT_LIMIT := 0x8000_0000
  /** 1 << 2n is defined for an int up to n = 15. */
  const MAX_PARTS := 15

  predicate IsInt(x: int) {
    -INT_LIMIT <= x < INT_LIMIT
  }

  /** A comparison may leave the range of int, which C++ leaves undefined. */
  datatype Verdict = Undefined | Defined(sign: int)

  /** The sum after the first i terms. */
  function PartialSum(ds: seq<int>, i: nat): int
    requires i <= |ds|
  {
    Weighted(ds) - Weighted(ds[i..])
  }

  predicate StepInRange(ds: seq<int>, i: nat)
    requires i < |ds|
  {
    IsInt(Pow4(|ds| - i) * ds[i]) && IsInt(PartialSum(ds, i + 1))
  }

  /** Every shift, product and partial sum of the loop stays in range. */
  ghost predicate InRange(ds: seq<int>) {
    |ds| <= MAX_PARTS && forall i :: 0 <= i < |ds| ==> StepInRange(ds, i)
  }

  lemma PartialSumStep(ds: seq<int>, i: nat)
    requires i < |ds|
    ensures PartialSum(ds, i + 1) == PartialSum(ds, i) + Pow4(|ds| - i) * ds[i]
  {
    assert ds[i..][1..] == ds[i + 1..];
  }

  lemma {:induction false} Pow4Monotone(m: nat, n: nat)
    requires m <= n
    ensures Pow4(m) <= Pow4(n)
    decreases n
  {
    if m < n {
      Pow4Monotone(m, n - 1);
    }
  }

  lemma Pow4At16()
    ensures Pow4(16) == 0x1_0000_0000 && Pow4(15) == 0x4000_0000
  {
    assert Pow4(4) == 256;
    assert Pow4(8) == 0x1_0000;
    assert Pow4(12) == 0x100_0000;
    assert Pow4(15) == 64 * Pow4(12);
  }

  /** The partial sum is the weighted sum of the results so far, the others being 0. */
  lemma {:induction false} PartialSumBound(ds: seq<int>, i: nat)
    requires Within(ds, 1) && i <= |ds|
    ensures -(Pow4(|ds| + 1) - Pow4(|ds| + 1 - i)) <= 3 * PartialSum(ds, i) <= Pow4(|ds| + 1) - Pow4(|ds| + 1 - i)
  {
    if i == 0 {
      assert ds[0..] == ds;
    } else {
      PartialSumBound(ds, i - 1);
      PartialSumStep(ds, i - 1);
      Scale(Pow4(|ds| + 1 - i), ds[i - 1], 1);
    }
  }

  /** With a three-valued compare the arithmetic is defined exactly for at most 15 parts. */
  lemma InRangeUpToFifteenParts(ds: seq<int>)
    requires Within(ds, 1)
    ensures InRange(ds) <==> |ds| <= MAX_PARTS
  {
    if |ds| <= MAX_PARTS {
      Pow4At16();
      Pow4Monotone(|ds| + 1, 16);
      forall i | 0 <= i < |ds|
        ensures StepInRange(ds, i)
      {
        Pow4Monotone(|ds| - i, 15);
        Scale(Pow4(|ds| - i), ds[i], 1);
        PartialSumBound(ds, i + 1);
      }
    }
  }

  /** With one part the product with 4 must fit 32 bits. */
  lemma OnePartInRange(d: int)
    ensures InRange([d]) <==> -0x2000_0000 <= d < 0x2000_0000
  {
    assert [d][0..] == [d] && [d][1..] == [];
    assert Pow4(1) == 4 * Pow4(0);
    assert PartialSum([d], 1) == 4 * d;
    assert InRange([d]) <==> StepInRange([d], 0);
  }

  /** The top bit of an int read as unsigned. */
  function TopBit(x: int): (bit: int)
    requires IsInt(x)
    ensures bit == 0 || bit == 1
  {
    (if x < 0 then x + 2 * INT_LIMIT else x) / INT_LIMIT
  }

  /** The 32 bits of the only ints that are or-ed. */
  function ToWord(x: int): bv32
    requires -1 <= x <= 1
  {
    if x < 0 then 0xFFFF_FFFF else if x > 0 then 1 else 0
  }

  function FromWord(w: bv32): int {
    if w >= 0x8000_0000 then w as int - 2 * INT_LIMIT else w as int
  }

  /** The expression that VersionCompare returns. */
  function SignBits(diff: int): int
    requires IsInt(diff)
  {
    FromWord(ToWord(if diff != 0 then 1 else 0) | ToWord(-TopBit(diff)))
  }

  lemma SignBitsAreSign(diff: int)
    requires IsInt(diff)
    ensures SignBits(diff) == Sign(diff)
  {
    if diff < 0 {
      assert TopBit(diff) == 1;
      assert 1 as bv32 | 0xFFFF_FFFF == 0xFFFF_FFFF;
    } else {
      assert TopBit(diff) == 0;
    }
  }

  // ---------------------------------------------------------------- VersionCompare

  lemma OneMoreTerm(ds: seq<int>, i: nat, diff: int, term: int)
    requires i < |ds| && diff == PartialSum(ds, i) && term == Pow4(|ds| - i) * ds[i]
    ensures diff + term == PartialSum(ds, i + 1)
    ensures StepInRange(ds, i) <==> IsInt(term) && IsInt(diff + term)
  {
    PartialSumStep(ds, i);
  }

  lemma FirstAndLastSum(ds: seq<int>)
    ensures PartialSum(ds, 0) == 0 && PartialSum(ds, |ds|) == Weighted(ds)
  {
    assert ds[0..] == ds && ds[|ds|..] == [];
  }

  /** The loop, once both versions are split. */
  method CompareParts(compare: (string, string) -> int, parts1: seq<string>, parts2: seq<string>) returns (r: Verdict)
    ensures var ds := Compares(compare, parts1, parts2);
            r == if InRange(ds) then Defined(Sign(Weighted(ds))) else Undefined
  {
    var maxParts := if |parts1| > |parts2| then |parts1| else |parts2|;
    ghost var ds := Compares(compare, parts1, parts2);
    if maxParts > MAX_PARTS {
      return Undefined;
    }
    var diff := 0;
    var i := 0;
    FirstAndLastSum(ds);
    while i < maxParts
      invariant 0 <= i <= maxParts
      invariant IsInt(diff) && diff == PartialSum(ds, i)
      invariant forall k :: 0 <= k < i ==> StepInRange(ds, k)
    {
      var v1p := if i < |parts1| then parts1[i] else "0";
      var v2p := if i < |parts2| then parts2[i] else "0";
      var term := Pow4(maxParts - i) * compare(v1p, v2p);
      OneMoreTerm(ds, i, diff, term);
      if !IsInt(term) || !IsInt(diff + term) {
        return Undefined;
      }
      diff := diff + term;
      i := i + 1;
    }
    SignBitsAreSign(diff);
    return Defined(SignBits(diff));
  }

  method VersionCompare(compare: (string, string) -> int, version1: string, version2: string) returns (r: Verdict)
    ensures r == if CompareDefined(compare, version1, version2) then Defined(CompareSign(compare, version1, version2))
                 else Undefined
  {
    var parts1 := SplitAtDots(version1);
    var parts2 := SplitAtDots(version2);
    r := CompareParts(compare, parts1, parts2);
  }

  lemma ComparesWithin(compare: (string, string) -> int, bound: nat, p: seq<string>, q: seq<string>)
    requires IsCompare(compare, bound)
    ensures Within(Compares(compare, p, q), bound)
  {
  }

  lemma {:induction false} LeadingIsPartOrder(compare: (string, string) -> int, bound: nat, p: seq<string>, q: seq<string>)
    requires IsCompare(compare, bound)
    ensures Leading(Compares(compare, p, q)) == PartOrder(p, q)
    decreases |p| + |q|
  {
    var ds := Compares(compare, p, q);
    if p != [] || q != [] {
      LeadingIsPartOrder(compare, bound, Rest(p), Rest(q));
      assert forall i :: 0 <= i < |ds| - 1 ==> Part(p, i + 1) == Part(Rest(p), i) && Part(q, i + 1) == Part(Rest(q), i);
      assert ds[1..] == Compares(compare, Rest(p), Rest(q));
    }
  }

  /** What VersionCompare returns where its arithmetic is defined. */
  function CompareSign(compare: (string, string) -> int, v1: string, v2: string): int {
    Sign(Weighted(Compares(compare, Split(v1), Split(v2))))
  }

  /** Whether it is defined. */
  ghost predicate CompareDefined(compare: (string, string) -> int, v1: string, v2: string) {
    InRange(Compares(compare, Split(v1), Split(v2)))
  }

  /** With results of magnitude at most 3 this is the documented order of the two versions. */
  lemma CompareSignIsVersionOrder(compare: (string, string) -> int, v1: string, v2: string)
    requires IsCompare(compare, 3)
    ensures CompareSign(compare, v1, v2) == VersionOrder(v1, v2)
  {
    ComparesWithin(compare, 3, Split(v1), Split(v2));
    WeightedHasLeadingSign(Compares(compare, Split(v1), Split(v2)));
    LeadingIsPartOrder(compare, 3, Split(v1), Split(v2));
  }

  /** With a three-valued compare it is defined exactly for versions of at most 15 parts. */
  lemma CompareDefinedUpToFifteenParts(compare: (string, string) -> int, v1: string, v2: string)
    requires IsCompare(compare, 1)
    ensures CompareDefined(compare, v1, v2) <==> |Split(v1)| <= MAX_PARTS && |Split(v2)| <= MAX_PARTS
  {
    ComparesWithin(compare, 1, Split(v1), Split(v2));
    InRangeUpToFifteenParts(Compares(compare, Split(v1), Split(v2)));
  }

  // ---------------------------------------------------------------- a compare that is too wide

  /** A compare that returns the difference of the first differing bytes, or of the lengths. */
  function ByteDifference(a: string, b: string): int {
    if a == [] || b == [] then |a| - |b|
    else if a[0] != b[0] then a[0] as int - b[0] as int
    else ByteDifference(a[1..], b[1..])
  }

  lemma {:induction false} ByteDifferenceHasLexSign(a: string, b: string)
    ensures Sign(ByteDifference(a, b)) == Lex(a, b)
  {
    if a != [] && b != [] && a[0] == b[0] {
      ByteDifferenceHasLexSign(a[1..], b[1..]);
    }
  }

  lemma SplitTwo(a: string, b: string)
    requires AreParts([a, b])
    ensures Split(a + "." + b) == [a, b]
  {
    assert [a, b][1..] == [b];
    assert Join([a, b]) == a + "." + b;
    SplitJoin([a, b]);
  }

  lemma WeightedTwo(d: int, e: int)
    ensures Weighted([d, e]) == 16 * d + 4 * e
    ensures Abs(d) <= 1000 && Abs(e) <= 1000 ==> InRange([d, e])
  {
    assert [d, e][1..] == [e] && [e][1..] == [] && [d, e][2..] == [];
    assert Pow4(2) == 4 * Pow4(1) && Pow4(1) == 4 * Pow4(0);
    assert Weighted([e]) == 4 * e;
  }

  /** Two versions of two parts each. */
  lemma TwoParts(compare: (string, string) -> int, p: seq<string>, q: seq<string>, v: string, w: string, d: int, e: int)
    requires |p| == |q| == 2 && AreParts(p) && AreParts(q)
    requires v == p[0] + "." + p[1] && w == q[0] + "." + q[1]
    requires d == compare(p[0], q[0]) && e == compare(p[1], q[1]) && Abs(d) <= 1000 && Abs(e) <= 1000
    ensures CompareDefined(compare, v, w) && CompareSign(compare, v, w) == Sign(16 * d + 4 * e)
    ensures VersionOrder(v, w) == PartOrder(p, q)
  {
    assert p == [p[0], p[1]] && q == [q[0], q[1]];
    SplitTwo(p[0], p[1]);
    SplitTwo(q[0], q[1]);
    assert Compares(compare, p, q) == [d, e];
    WeightedTwo(d, e);
  }

  lemma NineAgainstOne()
    ensures Lex("1", "2") == -1 && PartOrder(["1", "9"], ["2", "1"]) == -1
    ensures Lex("2", "1") == 1 && PartOrder(["2", "1"], ["1", "9"]) == 1
    ensures ByteDifference("1", "2") == -1 && ByteDifference("9", "1") == 8
  {
  }

  /** With such a compare 1.9 is ranked above 2.1: the documented order fails. */
  lemma ByteDifferenceMisorders()
    ensures CompareDefined(ByteDifference, "1.9", "2.1") && CompareSign(ByteDifference, "1.9", "2.1") == 1
    ensures VersionOrder("1.9", "2.1") == -1
  {
    NineAgainstOne();
    TwoParts(ByteDifference, ["1", "9"], ["2", "1"], "1.9", "2.1", -1, 8);
  }

  /** A compare as std::string allows it, of magnitude 4 on one pair of strings only. */
  function WideOnce(a: string, b: string): int {
    if a == "9" && b == "1" then 4 else if a == "1" && b == "9" then -4 else Lex(a, b)
  }

  lemma WideOnceIsCompare(bound: nat)
    requires bound >= 4
    ensures IsCompare(WideOnce, bound)
  {
    forall a, b
      ensures Sign(WideOnce(a, b)) == Lex(a, b) && Abs(WideOnce(a, b)) <= bound
    {
      LexRange(a, b);
      assert Lex("9", "1") == 1 && Lex("1", "9") == -1;
    }
  }

  /** It ties 1.9 with 2.1. */
  lemma WideOnceMisorders()
    ensures CompareDefined(WideOnce, "1.9", "2.1") && CompareSign(WideOnce, "1.9", "2.1") == 0
    ensures VersionOrder("1.9", "2.1") == -1
    ensures CompareDefined(WideOnce, "2.1", "1.9") && CompareSign(WideOnce, "2.1", "1.9") == 0
    ensures VersionOrder("2.1", "1.9") == 1
  {
    NineAgainstOne();
    TwoParts(WideOnce, ["1", "9"], ["2", "1"], "1.9", "2.1", -1, 4);
    TwoParts(WideOnce, ["2", "1"], ["1", "9"], "2.1", "1.9", 1, -4);
  }

  /** So VersionCompare is the documented order wherever it is defined, for every compare up to a
      magnitude, exactly if that magnitude is at most 3. */
  lemma VersionCompareSoundUpToThree(bound: nat)
    ensures (forall compare, v1, v2 :: IsCompare(compare, bound) && CompareDefined(compare, v1, v2)
               ==> CompareSign(compare, v1, v2) == VersionOrder(v1, v2))
            <==> bound <= 3
  {
    if bound <= 3 {
      forall compare, v1, v2 | IsCompare(compare, bound)
        ensures CompareSign(compare, v1, v2) == VersionOrder(v1, v2)
      {
        assert IsCompare(compare, 3);
        CompareSignIsVersionOrder(compare, v1, v2);
      }
    } else {
      WideOnceIsCompare(bound);
      WideOnceMisorders();
    }
  }
}
