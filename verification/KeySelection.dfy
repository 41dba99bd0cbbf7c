/**
 AIInterfaceKey and SkirmishAIKey, the order that drives std::set iteration, and the two
 searches of AILibraryManager: the next higher interface and the newest Skirmish AI.
 */
module KeySelection {
  import opened Ordering
  import opened Versions
  import opened Wrappers

  /** A short name and a version; a Skirmish AI key compares by these two alone as well. */
  datatype Key = Key(shortName: string, version: string)

  const UNSPECIFIED := Key("", "")

  /** isLessThen of both key classes. */
  predicate KeyLess(a: Key, b: Key) {
    if a.shortName == b.shortName then Lex(a.version, b.version) < 0 else Lex(a.shortName, b.shortName) < 0
  }

  /** The strict total order that std::set and std::map demand of their keys. */
  lemma KeyLessIsStrictTotalOrder(a: Key, b: Key, c: Key)
    ensures !(KeyLess(a, b) && KeyLess(b, a))
    ensures !KeyLess(a, b) && !KeyLess(b, a) <==> a == b
    ensures KeyLess(a, b) && KeyLess(b, c) ==> KeyLess(a, c)
  {
    LexRange(a.shortName, b.shortName);
    LexRange(a.version, b.version);
    LexRange(b.shortName, c.shortName);
    LexRange(a.shortName, c.shortName);
    if KeyLess(a, b) && KeyLess(b, c) {
      if a.shortName == b.shortName == c.shortName {
        LexTransitive(a.version, b.version, c.version);
      } else if a.shortName != b.shortName && b.shortName != c.shortName {
        LexTransitive(a.shortName, b.shortName, c.shortName);
      }
    }
  }

  /** The keys of a std::set, in iteration order. */
  ghost predicate IsKeySet(keys: seq<Key>) {
    forall i, j :: 0 <= i < j < |keys| ==> KeyLess(keys[i], keys[j])
  }

  // ---------------------------------------------------------------- the next higher interface

  predicate Fits(key: Key, shortName: string, minVersion: string) {
    key.shortName == shortName && VersionOrder(key.version, minVersion) >= 0
  }

  /** The documented choice: a least version among those that fit, and no key if none fits. */
  ghost predicate IsNextHigher(r: Key, shortName: string, minVersion: string, keys: seq<Key>) {
    if exists k :: k in keys && Fits(k, shortName, minVersion) then
      && r in keys
      && Fits(r, shortName, minVersion)
      && forall k :: k in keys && Fits(k, shortName, minVersion) ==> VersionOrder(r.version, k.version) <= 0
    else
      r == UNSPECIFIED
  }

  /** Whether i is the first index whose key has this name and compares to minVersion with this sign. */
  ghost predicate IsFirst(compare: (string, string) -> int, i: int, sign: int, shortName: string, minVersion: string,
                          keys: seq<Key>)
  {
    && 0 <= i < |keys|
    && HasSign(compare, keys[i], sign, shortName, minVersion)
    && forall j :: 0 <= j < i ==> !HasSign(compare, keys[j], sign, shortName, minVersion)
  }

  predicate HasSign(compare: (string, string) -> int, key: Key, sign: int, shortName: string, minVersion: string) {
    key.shortName == shortName && CompareSign(compare, key.version, minVersion) == sign
  }

  /** What the loop chooses: the first key that compares equal, else the first that compares higher, else none. */
  ghost predicate IsChosen(compare: (string, string) -> int, r: Key, shortName: string, minVersion: string, keys: seq<Key>) {
    if exists i :: IsFirst(compare, i, 0, shortName, minVersion, keys) then
      exists i :: IsFirst(compare, i, 0, shortName, minVersion, keys) && r == keys[i]
    else if exists i :: IsFirst(compare, i, 1, shortName, minVersion, keys) then
      exists i :: IsFirst(compare, i, 1, shortName, minVersion, keys) && r == keys[i]
    else
      r == UNSPECIFIED
  }

  const INT_MAX := INT_LIMIT - 1

  /**
   The loop of FindFittingInterfaceKey, which remembers the sign of a comparison as the least difference.
   It compares every key of the name, and has a result exactly if all these comparisons are defined.
   */
  method FindFittingInterfaceKey(compare: (string, string) -> int, shortName: string, minVersion: string, keys: seq<Key>)
    returns (r: Option<Key>)
    ensures r.Some? <==> forall k :: k in keys && k.shortName == shortName ==> CompareDefined(compare, k.version, minVersion)
    ensures r.Some? ==> IsChosen(compare, r.value, shortName, minVersion, keys)
  {
    var minDiff := INT_MAX;
    var fittingKey := UNSPECIFIED;
    ghost var at := -1;
    for n := 0 to |keys|
      invariant minDiff in {0, 1, INT_MAX}
      invariant minDiff == INT_MAX ==> fittingKey == UNSPECIFIED
      invariant minDiff <= 1 ==> IsFirst(compare, at, minDiff, shortName, minVersion, keys) && fittingKey == keys[at]
      invariant forall j, sign :: 0 <= j < n && 0 <= sign <= 1 && HasSign(compare, keys[j], sign, shortName, minVersion)
                                  ==> sign >= minDiff
      invariant forall j :: 0 <= j < n && keys[j].shortName == shortName
                            ==> CompareDefined(compare, keys[j].version, minVersion)
    {
      var key := keys[n];
      if shortName != key.shortName {
        continue;
      }
      var verdict := VersionCompare(compare, key.version, minVersion);
      if verdict.Undefined? {
        assert key in keys;
        return None;
      }
      var diff := verdict.sign;
      if diff < 0 || diff >= minDiff {
        continue;
      }
      fittingKey := key;
      minDiff := diff;
      at := n;
    }
    return Some(fittingKey);
  }

  // ---------------------------------------------------------------- the newest Skirmish AI

  predicate Matches(key: Key, wanted: Key) {
    key.shortName == wanted.shortName && (wanted.version == "" || key.version == wanted.version)
  }

  /** The keys that match, in set order; none for an unspecified request. */
  function Fitting(keys: seq<Key>, wanted: Key): (r: seq<Key>)
    ensures forall k :: k in r <==> k in keys && wanted.shortName != "" && Matches(k, wanted)
  {
    if keys == [] || wanted.shortName == "" then []
    else
      var front := Fitting(keys[..|keys| - 1], wanted);
      var last := keys[|keys| - 1];
      assert keys == keys[..|keys| - 1] + [last];
      if Matches(last, wanted) then front + [last] else front
  }

  method FittingSkirmishAIKeys(keys: seq<Key>, wanted: Key) returns (matchedKeys: seq<Key>)
    ensures matchedKeys == Fitting(keys, wanted)
  {
    matchedKeys := [];
    if wanted.shortName == "" {
      return;
    }
    for n := 0 to |keys|
      invariant matchedKeys == Fitting(keys[..n], wanted)
    {
      assert keys[..n + 1][..n] == keys[..n];
      if wanted.shortName != keys[n].shortName {
        continue;
      }
      if wanted.version != "" && wanted.version != keys[n].version {
        continue;
      }
      matchedKeys := matchedKeys + [keys[n]];
    }
    assert keys[..|keys|] == keys;
  }

  /** A request with a version is served by that very key or not at all; one without by all keys of the name, in order. */
  lemma {:induction false} FittingExactly(keys: seq<Key>, wanted: Key)
    requires IsKeySet(keys) && wanted.shortName != ""
    ensures wanted.version != "" ==> Fitting(keys, wanted) == if wanted in keys then [wanted] else []
    ensures wanted.version == "" ==> forall k :: k in Fitting(keys, wanted) <==> k in keys && k.shortName == wanted.shortName
    ensures IsKeySet(Fitting(keys, wanted))
  {
    if keys != [] {
      var front, last := keys[..|keys| - 1], keys[|keys| - 1];
      FittingExactly(front, wanted);
      assert keys == front + [last];
      forall k | k in front ensures KeyLess(k, last) && k != last {
        KeyLessIsStrictTotalOrder(k, last, last);
      }
    }
  }

  /** b is the first index of a newest version among the first n keys. */
  ghost predicate IsBest(b: int, n: int, fitting: seq<Key>) {
    && 0 <= b < n <= |fitting|
    && (forall j :: 0 <= j < n ==> VersionOrder(fitting[j].version, fitting[b].version) <= 0)
    && (forall j :: 0 <= j < b ==> VersionOrder(fitting[j].version, fitting[b].version) < 0)
  }

  /** One more key: it takes over exactly when it is strictly newer. */
  lemma BestStep(b: int, n: int, fitting: seq<Key>)
    requires IsBest(b, n, fitting) && n < |fitting|
    ensures IsBest(if VersionOrder(fitting[n].version, fitting[b].version) > 0 then n else b, n + 1, fitting)
  {
    var candidate, best := Split(fitting[n].version), Split(fitting[b].version);
    if PartOrder(candidate, best) > 0 {
      PartOrderSelf(candidate);
      PartOrderAntisymmetric(candidate, best);
      forall j | 0 <= j < n
        ensures VersionOrder(fitting[j].version, fitting[n].version) < 0
      {
        assert VersionOrder(fitting[j].version, fitting[b].version) <= 0;
        PartOrderTransitive(Split(fitting[j].version), best, candidate);
      }
    }
  }

  /** The index that the loop has kept after the first n keys: a later key takes over if it compares higher. */
  function Kept(compare: (string, string) -> int, fitting: seq<Key>, n: nat): (b: nat)
    requires n <= |fitting|
    ensures n > 0 ==> b < n
  {
    if n <= 1 then 0
    else
      var b := Kept(compare, fitting, n - 1);
      if CompareSign(compare, fitting[n - 1].version, fitting[b].version) > 0 then n - 1 else b
  }

  /** Whether the comparison of key n with the one kept before it is defined. */
  ghost predicate StepDefined(compare: (string, string) -> int, fitting: seq<Key>, n: nat)
    requires 0 < n < |fitting|
  {
    CompareDefined(compare, fitting[n].version, fitting[Kept(compare, fitting, n)].version)
  }

  ghost predicate AllStepsDefined(compare: (string, string) -> int, fitting: seq<Key>) {
    forall n :: 0 < n < |fitting| ==> StepDefined(compare, fitting, n)
  }

  lemma KeptStep(compare: (string, string) -> int, fitting: seq<Key>, n: nat, verdict: Verdict)
    requires 0 < n < |fitting|
    requires var v, w := fitting[n].version, fitting[Kept(compare, fitting, n)].version;
      verdict == if CompareDefined(compare, v, w) then Defined(CompareSign(compare, v, w)) else Undefined
    ensures StepDefined(compare, fitting, n) <==> verdict.Defined?
    ensures verdict.Defined? ==> Kept(compare, fitting, n + 1) == if verdict.sign > 0 then n else Kept(compare, fitting, n)
  {
  }

  /** The loop, once the fitting keys are there. */
  method NewestOf(compare: (string, string) -> int, fitting: seq<Key>) returns (r: Option<nat>)
    requires fitting != []
    ensures r == if AllStepsDefined(compare, fitting) then Some(Kept(compare, fitting, |fitting|)) else None
  {
    var bestIndex := 0;
    for k := 1 to |fitting|
      invariant bestIndex == Kept(compare, fitting, k)
      invariant forall n :: 0 < n < k ==> StepDefined(compare, fitting, n)
    {
      var verdict := VersionCompare(compare, fitting[k].version, fitting[bestIndex].version);
      KeptStep(compare, fitting, k, verdict);
      if verdict.Undefined? {
        return None;
      }
      if verdict.sign <= 0 {
        continue;
      }
      bestIndex := k;
    }
    return Some(bestIndex);
  }

  method ResolveSkirmishAIKey(compare: (string, string) -> int, keys: seq<Key>, wanted: Key) returns (r: Option<Key>)
    ensures var fitting := Fitting(keys, wanted);
            r == if fitting == [] then Some(UNSPECIFIED)
                 else if !AllStepsDefined(compare, fitting) then None
                 else Some(fitting[Kept(compare, fitting, |fitting|)])
  {
    var fittingKeys := FittingSkirmishAIKeys(keys, wanted);
    if fittingKeys == [] {
      return Some(UNSPECIFIED);
    }
    var best := NewestOf(compare, fittingKeys);
    if best.None? {
      return None;
    }
    return Some(fittingKeys[best.value]);
  }

  lemma {:induction false} KeptIsBest(compare: (string, string) -> int, fitting: seq<Key>, n: nat)
    requires IsCompare(compare, 3) && 0 < n <= |fitting|
    ensures IsBest(Kept(compare, fitting, n), n, fitting)
  {
    if n == 1 {
      PartOrderSelf(Split(fitting[0].version));
    } else {
      KeptIsBest(compare, fitting, n - 1);
      CompareSignIsVersionOrder(compare, fitting[n - 1].version, fitting[Kept(compare, fitting, n - 1)].version);
      BestStep(Kept(compare, fitting, n - 1), n - 1, fitting);
    }
  }

  /** A newest fitting key is what any request gets from any catalogue, wherever there is a result. */
  ghost predicate ResolvesToNewest(compare: (string, string) -> int) {
    forall keys, wanted :: IsKeySet(keys) && AllStepsDefined(compare, Fitting(keys, wanted)) ==> GetsNewest(compare, Fitting(keys, wanted))
  }

  ghost predicate GetsNewest(compare: (string, string) -> int, fitting: seq<Key>) {
    fitting != [] ==> IsBest(Kept(compare, fitting, |fitting|), |fitting|, fitting)
  }

  lemma BothFit(k: Key, l: Key, wanted: Key)
    requires wanted.shortName != "" && Matches(k, wanted) && Matches(l, wanted)
    ensures Fitting([k, l], wanted) == [k, l]
  {
    assert [k, l][..1] == [k] && [k][..0] == [];
    assert Fitting([k], wanted) == [k];
  }

  lemma TwoKeySet(k: Key, l: Key)
    requires k.shortName == l.shortName && k.version != "" && l.version != "" && k.version[0] < l.version[0]
    ensures IsKeySet([k, l])
  {
  }

  lemma TieKeepsFirst(compare: (string, string) -> int, k: Key, l: Key)
    requires CompareDefined(compare, l.version, k.version) && CompareSign(compare, l.version, k.version) == 0
    ensures AllStepsDefined(compare, [k, l]) && Kept(compare, [k, l], 2) == 0
  {
    assert Kept(compare, [k, l], 1) == 0;
  }

  /** The request for any version of "a" gets 1.9, where 2.1 is there. */
  lemma WideOnceGetsOlder()
    ensures !ResolvesToNewest(WideOnce)
  {
    var k, l, wanted := Key("a", "1.9"), Key("a", "2.1"), Key("a", "");
    TwoKeySet(k, l);
    BothFit(k, l, wanted);
    WideOnceMisorders();
    TieKeepsFirst(WideOnce, k, l);
    assert Fitting([k, l], wanted)[1] == l;
    assert !GetsNewest(WideOnce, [k, l]);
  }

  /** All compares of a magnitude choose a newest fitting key exactly if the magnitude is at most 3. */
  lemma ResolveSoundUpToThree(bound: nat)
    ensures (forall compare :: IsCompare(compare, bound) ==> ResolvesToNewest(compare)) <==> bound <= 3
  {
    if bound <= 3 {
      forall compare | IsCompare(compare, bound)
        ensures ResolvesToNewest(compare)
      {
        assert IsCompare(compare, 3);
        forall keys, wanted | IsKeySet(keys) ensures GetsNewest(compare, Fitting(keys, wanted)) {
          var fitting := Fitting(keys, wanted);
          if fitting != [] {
            KeptIsBest(compare, fitting, |fitting|);
          }
        }
      }
    } else {
      WideOnceIsCompare(bound);
      WideOnceGetsOlder();
    }
  }

  /** The newest fitting key is determined: no two different keys can be the result. */
  lemma BestIsUnique(b: int, c: int, fitting: seq<Key>)
    requires IsBest(b, |fitting|, fitting) && IsBest(c, |fitting|, fitting)
    ensures b == c
  {
    var u, v := Split(fitting[b].version), Split(fitting[c].version);
    PartOrderAntisymmetric(u, v);
    assert VersionOrder(fitting[b].version, fitting[c].version) <= 0;
    assert VersionOrder(fitting[c].version, fitting[b].version) <= 0;
  }
}
