/**
 When the iteration order of a std::set makes FindFittingInterfaceKey choose the documented key:
 catalogue by catalogue, and for all catalogues of versions written in some alphabet.
 */
module SetOrder {
  import opened Ordering
  import opened Versions
  import opened KeySelection

  // ---------------------------------------------------------------- which catalogues are served

  /** Of the keys with this name, none stands behind a greater one unless an equal one stands before both. */
  ghost predicate InOrder(shortName: string, keys: seq<Key>) {
    forall i, j :: 0 <= i < j < |keys| && Inverted(i, j, shortName, keys) ==> exists h :: 0 <= h < i && Ties(h, j, shortName, keys)
  }

  predicate Inverted(i: int, j: int, shortName: string, keys: seq<Key>)
    requires 0 <= i < |keys| && 0 <= j < |keys|
  {
    keys[i].shortName == keys[j].shortName == shortName && VersionOrder(keys[i].version, keys[j].version) > 0
  }

  predicate Ties(h: int, j: int, shortName: string, keys: seq<Key>)
    requires 0 <= h < |keys| && 0 <= j < |keys|
  {
    keys[h].shortName == keys[j].shortName == shortName && VersionOrder(keys[h].version, keys[j].version) == 0
  }

  /**
   The documented choice is made for every requested version exactly if the keys of the name are in order.
   The requested versions may be limited to any number of parts beyond those of the keys: with 15 all
   comparisons are defined.
   */
  lemma CatalogueServedExactly(compare: (string, string) -> int, shortName: string, keys: seq<Key>, limit: nat)
    requires IsCompare(compare, 3)
    requires forall k :: k in keys && k.shortName == shortName ==> |Split(k.version)| < limit
    ensures (forall r, minVersion ::
               |Split(minVersion)| <= limit && IsChosen(compare, r, shortName, minVersion, keys)
               ==> IsNextHigher(r, shortName, minVersion, keys))
            <==> InOrder(shortName, keys)
  {
    if InOrder(shortName, keys) {
      forall r: Key, minVersion: string | IsChosen(compare, r, shortName, minVersion, keys)
        ensures IsNextHigher(r, shortName, minVersion, keys)
      {
        ChosenInOrder(compare, r, shortName, minVersion, keys);
      }
    } else {
      var i, j :| 0 <= i < j < |keys| && Inverted(i, j, shortName, keys)
                  && !exists h :: 0 <= h < i && Ties(h, j, shortName, keys);
      InversionMisleads(compare, shortName, keys, i, j, limit);
    }
  }

  lemma {:induction false} FirstUpTo(compare: (string, string) -> int, n: nat, sign: int, shortName: string,
                                     minVersion: string, keys: seq<Key>)
    requires n < |keys| && HasSign(compare, keys[n], sign, shortName, minVersion)
    ensures exists i :: i <= n && IsFirst(compare, i, sign, shortName, minVersion, keys)
  {
    if j :| 0 <= j < n && HasSign(compare, keys[j], sign, shortName, minVersion) {
      FirstUpTo(compare, j, sign, shortName, minVersion, keys);
    } else {
      assert IsFirst(compare, n, sign, shortName, minVersion, keys);
    }
  }

  lemma ChosenInOrder(compare: (string, string) -> int, r: Key, shortName: string, minVersion: string, keys: seq<Key>)
    requires IsCompare(compare, 3) && InOrder(shortName, keys)
    requires IsChosen(compare, r, shortName, minVersion, keys)
    ensures IsNextHigher(r, shortName, minVersion, keys)
  {
    forall k | k in keys && Fits(k, shortName, minVersion)
      ensures r in keys && Fits(r, shortName, minVersion) && VersionOrder(r.version, k.version) <= 0
    {
      var n :| 0 <= n < |keys| && keys[n] == k;
      ChosenIsLeast(compare, r, shortName, minVersion, keys, n);
    }
    if !exists k :: k in keys && Fits(k, shortName, minVersion) {
      forall i
        ensures !IsFirst(compare, i, 0, shortName, minVersion, keys) && !IsFirst(compare, i, 1, shortName, minVersion, keys)
      {
        if 0 <= i < |keys| {
          assert keys[i] in keys;
          CompareSignIsVersionOrder(compare, keys[i].version, minVersion);
        }
      }
    }
  }

  lemma ChosenIsLeast(compare: (string, string) -> int, r: Key, shortName: string, minVersion: string, keys: seq<Key>,
                      n: nat)
    requires IsCompare(compare, 3) && InOrder(shortName, keys)
    requires IsChosen(compare, r, shortName, minVersion, keys) && n < |keys| && Fits(keys[n], shortName, minVersion)
    ensures r in keys && Fits(r, shortName, minVersion) && VersionOrder(r.version, keys[n].version) <= 0
  {
    var k := keys[n];
    PartOrderAntisymmetric(Split(k.version), Split(minVersion));
    CompareSignIsVersionOrder(compare, k.version, minVersion);
    FirstUpTo(compare, n, VersionOrder(k.version, minVersion), shortName, minVersion, keys);
    var sign := if exists i :: IsFirst(compare, i, 0, shortName, minVersion, keys) then 0 else 1;
    var i :| IsFirst(compare, i, sign, shortName, minVersion, keys) && r == keys[i];
    CompareSignIsVersionOrder(compare, r.version, minVersion);
    if sign == 0 {
      PartOrderAntisymmetric(Split(r.version), Split(minVersion));
      PartOrderTransitive(Split(r.version), Split(minVersion), Split(k.version));
    } else if VersionOrder(r.version, k.version) > 0 {
      FirstHasNoInversion(compare, i, n, shortName, minVersion, keys);
    }
  }

  /** Before a key that stands in the way an equal one would have been chosen. */
  lemma FirstHasNoInversion(compare: (string, string) -> int, i: nat, n: nat, shortName: string, minVersion: string,
                            keys: seq<Key>)
    requires IsCompare(compare, 3) && InOrder(shortName, keys) && n < |keys|
    requires IsFirst(compare, i, 1, shortName, minVersion, keys) && HasSign(compare, keys[n], 1, shortName, minVersion)
    ensures VersionOrder(keys[i].version, keys[n].version) <= 0
  {
    if VersionOrder(keys[i].version, keys[n].version) > 0 {
      PartOrderSelf(Split(keys[n].version));
      assert i != n && i < n;
      assert Inverted(i, n, shortName, keys);
      var h :| 0 <= h < i && Ties(h, n, shortName, keys);
      CompareSignIsVersionOrder(compare, keys[h].version, minVersion);
      CompareSignIsVersionOrder(compare, keys[n].version, minVersion);
      EqualsCompareAlike(keys[h].version, keys[n].version, minVersion);
    }
  }

  lemma EqualsCompareAlike(u: string, v: string, w: string)
    requires VersionOrder(u, v) == 0 && VersionOrder(v, w) == 1
    ensures VersionOrder(u, w) == 1
  {
    var p, q, r := Split(u), Split(v), Split(w);
    PartOrderAntisymmetric(p, q);
    PartOrderAntisymmetric(q, r);
    PartOrderAntisymmetric(p, r);
    if PartOrder(p, r) <= 0 {
      PartOrderTransitive(q, p, r);
    }
  }

  const BELOW_ZERO := ['!']

  function Zeros(n: nat): seq<string> {
    seq(n, _ => "0")
  }

  /** A version below q, and above all versions below q that have at most |q| + n parts. */
  function Below(q: seq<string>, n: nat): seq<string> {
    q + Zeros(n) + [BELOW_ZERO]
  }

  lemma {:induction false} JustBelow(x: seq<string>, q: seq<string>, n: nat)
    requires |x| <= |q| + n
    ensures PartOrder(x, Below(q, n)) == if PartOrder(x, q) >= 0 then 1 else -1
    decreases |q| + n
  {
    PartOrderUnroll(x, Below(q, n));
    PartOrderUnroll(x, q);
    LexRange(Part(x, 0), Part(q, 0));
    if q != [] {
      assert Rest(Below(q, n)) == Below(q[1..], n);
      JustBelow(Rest(x), q[1..], n);
    } else if n > 0 {
      assert Rest(Below(q, n)) == Below(q, n - 1);
      JustBelow(Rest(x), q, n - 1);
    } else {
      assert Below(q, n) == [BELOW_ZERO];
      assert Lex("0", BELOW_ZERO) == 1;
    }
  }

  /** The version asked for is the one just below the key in the wrong place. */
  lemma InversionMisleads(compare: (string, string) -> int, shortName: string, keys: seq<Key>, i: nat, j: nat, limit: nat)
    requires IsCompare(compare, 3) && i < j < |keys| && Inverted(i, j, shortName, keys)
    requires !exists h :: 0 <= h < i && Ties(h, j, shortName, keys)
    requires forall k :: k in keys && k.shortName == shortName ==> |Split(k.version)| < limit
    ensures exists r, minVersion ::
              && |Split(minVersion)| <= limit
              && IsChosen(compare, r, shortName, minVersion, keys) && !IsNextHigher(r, shortName, minVersion, keys)
  {
    assert keys[i] in keys && keys[j] in keys;
    var q := Split(keys[j].version);
    var n := limit - 1 - |q|;
    var minVersion := Join(Below(q, n));
    SplitGivesParts(keys[j].version);
    SplitJoin(Below(q, n));
    forall k | k in keys && k.shortName == shortName
      ensures CompareSign(compare, k.version, minVersion) == if VersionOrder(k.version, keys[j].version) >= 0 then 1 else -1
    {
      CompareSignIsVersionOrder(compare, k.version, minVersion);
      JustBelow(Split(k.version), q, n);
    }
    FirstUpTo(compare, i, 1, shortName, minVersion, keys);
    var first :| first <= i && IsFirst(compare, first, 1, shortName, minVersion, keys);
    FirstAboveMisleads(compare, shortName, minVersion, keys, first, i, j);
  }

  lemma FirstAboveMisleads(compare: (string, string) -> int, shortName: string, minVersion: string, keys: seq<Key>,
                           first: nat, i: nat, j: nat)
    requires IsCompare(compare, 3) && first <= i < j < |keys| && Inverted(i, j, shortName, keys)
    requires !exists h :: 0 <= h < i && Ties(h, j, shortName, keys)
    requires IsFirst(compare, first, 1, shortName, minVersion, keys)
    requires forall k :: k in keys && k.shortName == shortName ==>
               CompareSign(compare, k.version, minVersion) == if VersionOrder(k.version, keys[j].version) >= 0 then 1 else -1
    ensures IsChosen(compare, keys[first], shortName, minVersion, keys)
    ensures !IsNextHigher(keys[first], shortName, minVersion, keys)
  {
    assert keys[first] in keys && keys[j] in keys;
    forall n
      ensures !IsFirst(compare, n, 0, shortName, minVersion, keys)
      ensures IsFirst(compare, n, 1, shortName, minVersion, keys) ==> n == first
    {
      assert 0 <= n < |keys| ==> keys[n] in keys;
    }
    PartOrderSelf(Split(keys[j].version));
    CompareSignIsVersionOrder(compare, keys[j].version, minVersion);
    assert Fits(keys[j], shortName, minVersion);
    assert first < i ==> !Ties(first, j, shortName, keys);
    assert VersionOrder(keys[first].version, keys[j].version) > 0;
  }

  // ---------------------------------------------------------------- when set order serves

  /** Every character but the dots is from the alphabet. */
  ghost predicate WrittenIn(alphabet: set<char>, version: string) {
    forall c :: c in version ==> c == '.' || c in alphabet
  }

  predicate OnlyDots(s: string) {
    forall c :: c in s ==> c == '.'
  }

  /** No dot before the first part and only one between two parts: the parts joined by dots begin the version. */
  predicate Tidy(version: string) {
    var joined := Join(Split(version));
    joined <= version && OnlyDots(version[|joined|..])
  }

  /** The keys of a set, all versions over an alphabet, and tidy if that is asked for. */
  ghost predicate Catalogue(alphabet: set<char>, tidy: bool, keys: seq<Key>) {
    IsKeySet(keys) && forall k :: k in keys ==> WrittenIn(alphabet, k.version) && (tidy ==> Tidy(k.version))
  }

  predicate FromZero(version: string) {
    forall c :: c in version ==> c == '.' || c >= '0'
  }

  lemma {:induction false} PartsAreWritten(s: string)
    ensures forall p, c :: p in Split(s) && c in p ==> c in s && c != '.'
    decreases |s|
  {
    if s != [] {
      if s[0] == '.' {
        PartsAreWritten(s[1..]);
      } else {
        var n := TokenLength(s);
        PartsAreWritten(s[n..]);
        forall p, c | p in Split(s) && c in p
          ensures c in s && c != '.'
        {
          assert p == s[..n] || p in Split(s[n..]);
        }
      }
    }
  }

  lemma {:induction false} DotsHaveNoParts(s: string)
    requires OnlyDots(s)
    ensures Split(s) == [] && Tidy(s)
  {
    if s != [] {
      assert s[0] in s;
      assert forall c :: c in s[1..] ==> c in s;
      DotsHaveNoParts(s[1..]);
    }
  }

  lemma JoinIsTidy(parts: seq<string>)
    requires AreParts(parts)
    ensures Tidy(Join(parts))
  {
    SplitJoin(parts);
  }

  /** No part of these characters is below the padding "0". */
  lemma {:induction false} PaddingIsLeast(q: seq<string>)
    requires AreParts(q) && forall p, c :: p in q && c in p ==> c >= '0'
    ensures PartOrder([], q) <= 0
  {
    if q != [] {
      assert q[0] in q && q[0][0] in q[0];
      LexRange("0", q[0]);
      assert Lex("0", q[0]) <= 0;
      RestOfParts(q);
      PaddingIsLeast(q[1..]);
    }
  }

  lemma {:induction false} LexExtend(a: string, b: string, s: string, t: string)
    requires Lex(a, b) > 0 && (forall c :: c in a ==> c >= '0')
    requires t == [] || t[0] == '.'
    ensures Lex(a + s, b + t) > 0
  {
    if b == [] {
      assert a[0] in a && b + t == t;
    } else if a[0] == b[0] {
      assert forall c :: c in a[1..] ==> c in a;
      LexExtend(a[1..], b[1..], s, t);
      assert (a + s)[1..] == a[1..] + s && (b + t)[1..] == b[1..] + t;
    }
  }

  function Tail(parts: seq<string>): string {
    if |parts| <= 1 then "" else "." + Join(parts[1..])
  }

  lemma JoinIsHeadAndTail(parts: seq<string>)
    requires parts != []
    ensures Join(parts) == parts[0] + Tail(parts)
  {
  }

  lemma RestOfParts(parts: seq<string>)
    requires parts != []
    ensures Rest(parts) == parts[1..] && forall x :: x in parts[1..] ==> x in parts
  {
  }

  /** String order on tidy versions extends the padded part order, if no part character is below '0'. */
  lemma {:induction false} StringOrderExtendsPartOrder(p: seq<string>, q: seq<string>, d: string, e: string)
    requires AreParts(p) && AreParts(q) && OnlyDots(d) && OnlyDots(e)
    requires forall x, c :: (x in p || x in q) && c in x ==> c >= '0'
    requires PartOrder(p, q) > 0
    ensures Lex(Join(p) + d, Join(q) + e) > 0
    decreases |p| + |q|
  {
    if p == [] {
      PaddingIsLeast(q);
    } else if q == [] {
      PartBeforeDots(p, d, e);
      assert Join(q) + e == e;
    } else if p[0] != q[0] {
      LexRange(p[0], q[0]);
      assert p[0] in p;
      OtherHead(p, q, d, e);
    } else {
      LexRange(p[0], q[0]);
      RestOfParts(p);
      RestOfParts(q);
      if |p| == 1 {
        PaddingIsLeast(q[1..]);
      } else if |q| > 1 {
        StringOrderExtendsPartOrder(p[1..], q[1..], d, e);
        assert Tail(q) + e == "." + (Join(q[1..]) + e);
        SameHead(p, q, d, e, Join(q[1..]) + e);
      } else if e == [] {
        SameHead(p, q, d, e, []);
      } else {
        DotAfterPart(q, e);
        assert forall c :: c in e[1..] ==> c in e;
        PartBeforeDots(p[1..], d, e[1..]);
        SameHead(p, q, d, e, e[1..]);
      }
    }
  }

  lemma SplitOff(p: seq<string>, d: string)
    requires p != []
    ensures Join(p) + d == p[0] + (Tail(p) + d)
    ensures |p| > 1 ==> Tail(p) + d == "." + (Join(p[1..]) + d)
  {
    JoinIsHeadAndTail(p);
    Regroup(p[0], Tail(p), d);
    if |p| > 1 {
      Regroup(".", Join(p[1..]), d);
    }
  }

  lemma Regroup(a: string, b: string, c: string)
    ensures a + b + c == a + (b + c)
  {
  }

  lemma SameStart(h: string, s: string, t: string, x: string, y: string)
    requires s == "." + x && (t == [] || (t == "." + y && Lex(x, y) > 0))
    ensures Lex(h + s, h + t) > 0
  {
    LexCommonPrefix(h, s, t);
    if t != [] {
      LexCommonPrefix(".", x, y);
    }
  }

  lemma SameHead(p: seq<string>, q: seq<string>, d: string, e: string, rest: string)
    requires |p| > 1 && q != [] && p[0] == q[0]
    requires Tail(q) + e == [] || (Tail(q) + e == "." + rest && Lex(Join(p[1..]) + d, rest) > 0)
    ensures Lex(Join(p) + d, Join(q) + e) > 0
  {
    SplitOff(p, d);
    SplitOff(q, e);
    SameStart(p[0], Tail(p) + d, Tail(q) + e, Join(p[1..]) + d, rest);
  }

  lemma OtherHead(p: seq<string>, q: seq<string>, d: string, e: string)
    requires p != [] && q != [] && p[0] != q[0] && Lex(p[0], q[0]) > 0 && OnlyDots(e)
    requires forall c :: c in p[0] ==> c >= '0'
    ensures Lex(Join(p) + d, Join(q) + e) > 0
  {
    SplitOff(p, d);
    SplitOff(q, e);
    DotAfterPart(q, e);
    LexExtend(p[0], q[0], Tail(p) + d, Tail(q) + e);
  }

  lemma DotAfterPart(q: seq<string>, e: string)
    requires OnlyDots(e)
    ensures var t := Tail(q) + e; t == [] || t[0] == '.'
  {
    if e != [] {
      assert e[0] in e;
    }
  }

  lemma PartBeforeDots(p: seq<string>, d: string, e: string)
    requires AreParts(p) && p != [] && OnlyDots(e)
    requires forall x, c :: x in p && c in x ==> c >= '0'
    ensures Lex(Join(p) + d, e) > 0
  {
    JoinIsHeadAndTail(p);
    assert p[0] in p && p[0][0] in p[0];
    assert (Join(p) + d)[0] == p[0][0];
    if e != [] {
      assert e[0] in e;
    }
  }

  lemma TidyIsJoined(v: string)
    requires Tidy(v)
    ensures v == Join(Split(v)) + v[|Join(Split(v))|..]
  {
  }

  /** So a set visits the tidy versions of one name in ascending order. */
  lemma SetOrderIsVersionOrder(keys: seq<Key>, i: nat, j: nat)
    requires IsKeySet(keys) && i < j < |keys| && keys[i].shortName == keys[j].shortName
    requires Tidy(keys[i].version) && Tidy(keys[j].version) && FromZero(keys[i].version) && FromZero(keys[j].version)
    ensures VersionOrder(keys[i].version, keys[j].version) <= 0
  {
    var u, v := keys[i].version, keys[j].version;
    assert KeyLess(keys[i], keys[j]);
    if VersionOrder(u, v) > 0 {
      SplitGivesParts(u);
      SplitGivesParts(v);
      PartsAreWritten(u);
      PartsAreWritten(v);
      var m, n := |Join(Split(u))|, |Join(Split(v))|;
      TidyIsJoined(u);
      TidyIsJoined(v);
      StringOrderExtendsPartOrder(Split(u), Split(v), u[m..], v[n..]);
    }
  }

  /** The chosen key is the documented one if all versions of the name are tidy and have no character below '0'. */
  lemma ChosenIsNextHigher(compare: (string, string) -> int, r: Key, shortName: string, minVersion: string, keys: seq<Key>)
    requires IsCompare(compare, 3) && IsKeySet(keys)
    requires forall k :: k in keys && k.shortName == shortName ==> Tidy(k.version) && FromZero(k.version)
    requires IsChosen(compare, r, shortName, minVersion, keys)
    ensures IsNextHigher(r, shortName, minVersion, keys)
  {
    forall i, j | 0 <= i < j < |keys| && keys[i].shortName == keys[j].shortName == shortName
      ensures VersionOrder(keys[i].version, keys[j].version) <= 0
    {
      assert keys[i] in keys && keys[j] in keys;
      SetOrderIsVersionOrder(keys, i, j);
    }
    ChosenInOrder(compare, r, shortName, minVersion, keys);
  }

  /** On every catalogue of this kind the choice is the documented one. */
  ghost predicate Served(compare: (string, string) -> int, alphabet: set<char>, tidy: bool) {
    forall r, shortName, minVersion, keys ::
      Catalogue(alphabet, tidy, keys) && WrittenIn(alphabet, minVersion)
      && IsChosen(compare, r, shortName, minVersion, keys)
      ==> IsNextHigher(r, shortName, minVersion, keys)
  }

  /**
   The documented choice is made on every catalogue over an alphabet exactly when no character is below '0'
   and the versions are tidy as well, unless there is nothing to write but dots.
   */
  lemma SetOrderServesExactly(compare: (string, string) -> int, alphabet: set<char>, tidy: bool)
    requires IsCompare(compare, 3) && '.' !in alphabet
    ensures Served(compare, alphabet, tidy)
      <==> (forall c :: c in alphabet ==> c >= '0') && (tidy || alphabet == {})
  {
    if c :| c in alphabet && c < '0' {
      BelowZeroMisleads(compare, alphabet, tidy, c);
    } else if c :| !tidy && c in alphabet {
      GapMisleads(compare, alphabet, c);
    } else {
      forall r: Key, shortName: string, minVersion: string, keys: seq<Key>
        | Catalogue(alphabet, tidy, keys) && IsChosen(compare, r, shortName, minVersion, keys)
        ensures IsNextHigher(r, shortName, minVersion, keys)
      {
        CatalogueServed(compare, alphabet, tidy, r, shortName, minVersion, keys);
      }
    }
  }

  lemma CatalogueServed(compare: (string, string) -> int, alphabet: set<char>, tidy: bool,
                        r: Key, shortName: string, minVersion: string, keys: seq<Key>)
    requires IsCompare(compare, 3) && (forall c :: c in alphabet ==> c >= '0') && (tidy || alphabet == {})
    requires Catalogue(alphabet, tidy, keys) && IsChosen(compare, r, shortName, minVersion, keys)
    ensures IsNextHigher(r, shortName, minVersion, keys)
  {
    forall k | k in keys
      ensures Tidy(k.version) && FromZero(k.version)
    {
      if !tidy {
        DotsHaveNoParts(k.version);
      }
    }
    ChosenIsNextHigher(compare, r, shortName, minVersion, keys);
  }

  /** c, c.c and c.c.c as lists of parts; a part below '0' ranks below its own padding. */
  lemma BelowZeroOrders(c: char)
    requires c < '0' && c != '.'
    ensures var p1, p2, p3 := [[c]], [[c], [c]], [[c], [c], [c]];
            && Split(Join(p1)) == p1 && Split(Join(p2)) == p2 && Split(Join(p3)) == p3
            && PartOrder(p1, p2) == 1 && PartOrder(p1, p3) == 1 && PartOrder(p2, p3) == 1
            && Lex(Join(p1), Join(p2)) == -1
  {
    var p1, p2, p3 := [[c]], [[c], [c]], [[c], [c], [c]];
    SplitJoin(p1);
    SplitJoin(p2);
    SplitJoin(p3);
    assert Lex([c], "0") == -1 && Lex([c], [c]) == 0 && Lex("0", [c]) == 1;
    assert Rest(p3) == p2 && Rest(p2) == p1 && Rest(p1) == [];
    assert PartOrder([], p1) == 1;
    assert PartOrder([], p2) == 1;
    assert PartOrder(p1, p2) == 1;
    JoinIsHeadAndTail(p2);
    LexCommonPrefix([c], "", Tail(p2));
    assert Join(p1) == [c] + "";
  }

  /** Parts of a character below '0' rank below their padding, so c.c.c < c.c < c, while the set visits c first. */
  lemma BelowZeroMisleads(compare: (string, string) -> int, alphabet: set<char>, tidy: bool, c: char)
    requires IsCompare(compare, 3) && c in alphabet && c < '0' && c != '.'
    ensures var one, two := Key("x", Join([[c]])), Key("x", Join([[c], [c]]));
            var minVersion, keys := Join([[c], [c], [c]]), [one, two];
            && Catalogue(alphabet, tidy, keys) && WrittenIn(alphabet, minVersion)
            && IsChosen(compare, one, "x", minVersion, keys) && !IsNextHigher(one, "x", minVersion, keys)
    ensures !Served(compare, alphabet, tidy)
  {
    var p1, p2, p3 := [[c]], [[c], [c]], [[c], [c], [c]];
    BelowZeroOrders(c);
    JoinIsTidy(p1);
    JoinIsTidy(p2);
    JoinIsWritten(alphabet, p1);
    JoinIsWritten(alphabet, p2);
    JoinIsWritten(alphabet, p3);
    Misled(compare, alphabet, tidy, Key("x", Join(p1)), Key("x", Join(p2)), "x", Join(p3));
  }

  lemma {:induction false} JoinIsWritten(alphabet: set<char>, parts: seq<string>)
    requires forall p, c :: p in parts && c in p ==> c in alphabet
    ensures WrittenIn(alphabet, Join(parts))
  {
    if |parts| > 1 {
      JoinIsWritten(alphabet, parts[1..]);
      WrittenTogether(alphabet, ".", Join(parts[1..]));
      assert parts[0] in parts;
      WrittenTogether(alphabet, parts[0], "." + Join(parts[1..]));
      Regroup(parts[0], ".", Join(parts[1..]));
    }
  }

  lemma WrittenTogether(alphabet: set<char>, s: string, t: string)
    requires WrittenIn(alphabet, s) && WrittenIn(alphabet, t)
    ensures WrittenIn(alphabet, s + t)
  {
  }

  function WithGap(p: string): string {
    p + "." + ("." + (p + "." + p))
  }

  /** p..p.p, p.p and p have three parts, two and one; the first is greatest, and sorts before the second. */
  lemma GapOrders(p: string)
    requires p != "" && Dotless(p) && Lex(p, "0") == 1 && p[0] > '.'
    ensures Split(WithGap(p)) == [p, p, p] && Split(p + "." + p) == [p, p] && Split(p) == [p]
    ensures PartOrder([p, p, p], [p, p]) == 1 && PartOrder([p, p, p], [p]) == 1 && PartOrder([p, p], [p]) == 1
    ensures Lex(WithGap(p), p + "." + p) == -1
  {
    GapSplits(p);
    GapPartOrders(p);
    LexCommonPrefix(p + ".", "." + (p + "." + p), p);
  }

  lemma GapSplits(p: string)
    requires p != "" && Dotless(p)
    ensures Split(WithGap(p)) == [p, p, p] && Split(p + "." + p) == [p, p] && Split(p) == [p]
  {
    SplitJoin([p]);
    SplitTwo(p, p);
    var pair := p + "." + p;
    SkipDot(pair);
    SplitAtGap(p, "." + pair);
  }

  lemma SplitAtGap(p: string, rest: string)
    requires p != "" && Dotless(p)
    ensures Split(p + "." + rest) == [p] + Split(rest)
  {
    Regroup(p, ".", rest);
    SplitFirst(p, "." + rest);
    assert ("." + rest)[1..] == rest;
  }

  lemma SkipDot(s: string)
    ensures Split("." + s) == Split(s)
  {
    assert ("." + s)[1..] == s;
  }

  lemma SplitFirst(p: string, rest: string)
    requires p != "" && Dotless(p) && rest != [] && rest[0] == '.'
    ensures Split(p + rest) == [p] + Split(rest[1..])
  {
    TokenThenDot(p, rest);
    assert (p + rest)[..|p|] == p && (p + rest)[|p|..] == rest;
    assert p[0] in p && (p + rest)[0] == p[0];
  }

  lemma GapPartOrders(p: string)
    requires Lex(p, "0") == 1
    ensures PartOrder([p, p, p], [p, p]) == 1 && PartOrder([p, p, p], [p]) == 1 && PartOrder([p, p], [p]) == 1
  {
    LexRange(p, p);
    assert Rest([p, p, p]) == [p, p] && Rest([p, p]) == [p] && Rest([p]) == [];
    assert PartOrder([p], []) == 1;
    assert PartOrder([p, p], []) == 1;
  }

  /** A gap of two dots sorts before any part, so p..p.p, with cc for p, is visited before p.p, which is less. */
  lemma GapMisleads(compare: (string, string) -> int, alphabet: set<char>, c: char)
    requires IsCompare(compare, 3) && c in alphabet && c >= '0'
    ensures var p := [c, c];
            var one, two := Key("x", WithGap(p)), Key("x", p + "." + p);
            && Catalogue(alphabet, false, [one, two]) && WrittenIn(alphabet, p)
            && IsChosen(compare, one, "x", p, [one, two]) && !IsNextHigher(one, "x", p, [one, two])
    ensures !Served(compare, alphabet, false)
  {
    var p := [c, c];
    assert Lex(p, "0") == 1 && p[0] > '.';
    GapOrders(p);
    GapIsWritten(alphabet, p);
    Misled(compare, alphabet, false, Key("x", WithGap(p)), Key("x", p + "." + p), "x", p);
  }

  lemma GapIsWritten(alphabet: set<char>, p: string)
    requires WrittenIn(alphabet, p)
    ensures WrittenIn(alphabet, p + "." + p) && WrittenIn(alphabet, WithGap(p))
  {
    assert WrittenIn(alphabet, ".");
    WrittenTogether(alphabet, p, ".");
    WrittenTogether(alphabet, p + ".", p);
    WrittenTogether(alphabet, ".", p + "." + p);
    WrittenTogether(alphabet, p + ".", "." + (p + "." + p));
  }

  /** Two keys that both compare higher, of which the one visited first is the greater. */
  lemma Misled(compare: (string, string) -> int, alphabet: set<char>, tidy: bool,
               one: Key, two: Key, shortName: string, minVersion: string)
    requires IsCompare(compare, 3) && one.shortName == two.shortName == shortName && Lex(one.version, two.version) == -1
    requires WrittenIn(alphabet, one.version) && WrittenIn(alphabet, two.version) && WrittenIn(alphabet, minVersion)
    requires tidy ==> Tidy(one.version) && Tidy(two.version)
    requires VersionOrder(one.version, two.version) == 1
    requires VersionOrder(one.version, minVersion) == 1 && VersionOrder(two.version, minVersion) == 1
    ensures Catalogue(alphabet, tidy, [one, two])
    ensures IsChosen(compare, one, shortName, minVersion, [one, two]) && !IsNextHigher(one, shortName, minVersion, [one, two])
    ensures !Served(compare, alphabet, tidy)
  {
    FirstOfTwoMisleads(compare, one, two, shortName, minVersion);
  }

  lemma FirstOfTwoMisleads(compare: (string, string) -> int, one: Key, two: Key, shortName: string, minVersion: string)
    requires IsCompare(compare, 3) && one.shortName == two.shortName == shortName
    requires VersionOrder(one.version, two.version) == 1
    requires VersionOrder(one.version, minVersion) == 1 && VersionOrder(two.version, minVersion) == 1
    ensures IsChosen(compare, one, shortName, minVersion, [one, two]) && !IsNextHigher(one, shortName, minVersion, [one, two])
  {
    var keys := [one, two];
    CompareSignIsVersionOrder(compare, one.version, minVersion);
    CompareSignIsVersionOrder(compare, two.version, minVersion);
    assert IsFirst(compare, 0, 1, shortName, minVersion, keys);
    assert forall i :: IsFirst(compare, i, 1, shortName, minVersion, keys) ==> i == 0;
    assert forall i :: !IsFirst(compare, i, 0, shortName, minVersion, keys);
    assert keys[1] in keys && Fits(keys[1], shortName, minVersion);
  }
}
