/** `buildCacheKey` of `src/cache/cache-key.util.ts`. */
module CacheKey {
  import opened Text

  /** A query object: its own properties in insertion order, each with the text `String(value)`. */
  type Query = seq<(string, string)>

  predicate HasDistinctKeys(q: Query) {
    forall i, j | 0 <= i < j < |q| :: q[i].0 != q[j].0
  }

  function Keys(q: Query): (ks: seq<string>)
    ensures |ks| == |q| && forall i | 0 <= i < |q| :: ks[i] == q[i].0
  {
    seq(|q|, i requires 0 <= i < |q| => q[i].0)
  }

  /** The query as a map, in which insertion order plays no part. */
  function AsMap(q: Query): (m: map<string, string>)
    ensures forall k :: k in m <==> exists i | 0 <= i < |q| :: q[i].0 == k
    ensures HasDistinctKeys(q) ==> forall i | 0 <= i < |q| :: m[q[i].0] == q[i].1
  {
    if q == [] then map[]
    else
      var m := AsMap(q[..|q| - 1]);
      assert q == q[..|q| - 1] + [q[|q| - 1]];
      m[q[|q| - 1].0 := q[|q| - 1].1]
  }

  // ---- `sort()`: by code

  predicate Less(a: string, b: string) {
    if b == "" then false
    else if a == "" then true
    else a[0] < b[0] || (a[0] == b[0] && Less(a[1..], b[1..]))
  }

  lemma DifferenceShifts(a: string, b: string, k: nat)
    requires a != "" && b != "" && a[0] == b[0]
    ensures IsFirstDifference(a, b, k + 1) <==> IsFirstDifference(a[1..], b[1..], k)
  {
    if k < |a| && k < |b| {
      assert a[..k + 1] == [a[0]] + a[1..][..k] && b[..k + 1] == [b[0]] + b[1..][..k];
    }
  }

  /** Before means a prefix, or a smaller letter at the first place where the two differ. */
  lemma {:induction false} LessIff(a: string, b: string)
    ensures Less(a, b) <==> exists k :: IsFirstDifference(a, b, k) && IsSmallerAt(a, b, k)
  {
    if a == "" || b == "" || a[0] != b[0] {
      assert IsFirstDifference(a, b, 0) <==> a != b;
    } else {
      LessIff(a[1..], b[1..]);
      assert !IsFirstDifference(a, b, 0);
      hide IsFirstDifference;
      if k :| IsFirstDifference(a[1..], b[1..], k) && IsSmallerAt(a[1..], b[1..], k) {
        DifferenceShifts(a, b, k);
        assert IsFirstDifference(a, b, k + 1);
      }
      if k :| IsFirstDifference(a, b, k) && IsSmallerAt(a, b, k) {
        DifferenceShifts(a, b, k - 1);
        assert IsFirstDifference(a[1..], b[1..], k - 1);
      }
    }
  }

  predicate IsSmallerAt(a: string, b: string, k: int) {
    0 <= k && (k == |a| || (k < |a| && k < |b| && a[k] < b[k]))
  }

  predicate IsFirstDifference(a: string, b: string, k: int) {
    && 0 <= k <= |a| && k <= |b| && a[..k] == b[..k]
    && (k < |a| || k < |b|) && (k < |a| && k < |b| ==> a[k] != b[k])
  }

  lemma {:induction false} LessIsStrictOrder(a: string, b: string, c: string)
    ensures !(Less(a, b) && Less(b, a))
    ensures Less(a, b) && Less(b, c) ==> Less(a, c)
    ensures a == b || Less(a, b) || Less(b, a)
  {
    if a != "" && b != "" {
      LessIsStrictOrder(a[1..], b[1..], if c == "" then c else c[1..]);
      assert a[0] == b[0] && a[1..] == b[1..] ==> a == [a[0]] + a[1..] == b;
    }
  }

  function Insert(x: string, s: seq<string>): (r: seq<string>)
    ensures multiset(r) == multiset(s) + multiset{x}
  {
    if s == [] || Less(x, s[0]) then [x] + s
    else
      assert s == [s[0]] + s[1..];
      [s[0]] + Insert(x, s[1..])
  }

  function Sort(s: seq<string>): (r: seq<string>)
    ensures multiset(r) == multiset(s)
  {
    if s == [] then []
    else
      assert s == [s[0]] + s[1..];
      Insert(s[0], Sort(s[1..]))
  }

  ghost predicate StrictlySorted(s: seq<string>) {
    forall i, j | 0 <= i < j < |s| :: Less(s[i], s[j])
  }

  lemma {:induction false} InsertSorts(x: string, s: seq<string>)
    requires StrictlySorted(s) && x !in s
    ensures StrictlySorted(Insert(x, s))
  {
    if s == [] {
    } else if Less(x, s[0]) {
      forall j | 1 <= j < |s| ensures Less(x, s[j]) { LessIsStrictOrder(x, s[0], s[j]); }
    } else {
      var rest := Insert(x, s[1..]);
      InsertSorts(x, s[1..]);
      LessIsStrictOrder(s[0], x, "");
      forall y | y in rest ensures Less(s[0], y) {
        assert y in multiset(rest);
      }
    }
  }

  lemma {:induction false} SortSorts(s: seq<string>)
    requires forall i, j | 0 <= i < j < |s| :: s[i] != s[j]
    ensures StrictlySorted(Sort(s))
  {
    if s != [] {
      SortSorts(s[1..]);
      assert s[0] in Sort(s[1..]) <==> s[0] in multiset(Sort(s[1..]));
      assert s[0] in multiset(s[1..]) <==> s[0] in s[1..];
      InsertSorts(s[0], Sort(s[1..]));
    }
  }

  lemma NonEmptyHasElement(s: seq<string>)
    ensures s == [] || exists x :: x in s
  {
    if s != [] { assert s[0] in s; }
  }

  /** A strictly sorted sequence is determined by its elements. */
  lemma {:induction false} SortedIsUnique(a: seq<string>, b: seq<string>)
    requires StrictlySorted(a) && StrictlySorted(b)
    requires forall x :: x in a <==> x in b
    ensures a == b
  {
    if a == [] {
      NonEmptyHasElement(b);
    } else {
      assert a[0] in b;
      assert b[0] in a;
      LessIsStrictOrder(a[0], b[0], "");
      assert a[0] == b[0];
      forall x ensures x in a[1..] <==> x in b[1..] {
        LessIsStrictOrder(a[0], a[0], "");
        assert x in a <==> x == a[0] || x in a[1..];
        assert x in b <==> x == b[0] || x in b[1..];
      }
      SortedIsUnique(a[1..], b[1..]);
      assert a == [a[0]] + a[1..] && b == [b[0]] + b[1..];
    }
  }

  // ---- the key

  function Pairs(keys: seq<string>, m: map<string, string>): (parts: seq<string>)
    requires forall k | k in keys :: k in m
    ensures |parts| == |keys| && forall i | 0 <= i < |keys| :: parts[i] == keys[i] + "=" + m[keys[i]]
  {
    seq(|keys|, i requires 0 <= i < |keys| => keys[i] + "=" + m[keys[i]])
  }

  lemma SortedKeysAreKeys(q: Query)
    ensures forall k :: k in Sort(Keys(q)) <==> k in AsMap(q)
  {
    forall k ensures k in Sort(Keys(q)) <==> k in AsMap(q) {
      assert k in Sort(Keys(q)) <==> k in multiset(Sort(Keys(q)));
      assert k in Keys(q) <==> k in multiset(Keys(q));
    }
  }

  function SortedQuery(q: Query): string {
    SortedKeysAreKeys(q);
    Join(Pairs(Sort(Keys(q)), AsMap(q)), '&')
  }

  const CACHE_KEY_PREFIX := "rac3011:cache:"

  function BuildCacheKey(path: string, q: Query): string {
    CACHE_KEY_PREFIX + "GET:" + path + (if SortedQuery(q) != "" then "?" + SortedQuery(q) else "")
  }

  /** Insertion order never affects the key: queries that are equal as maps share one. */
  lemma KeyIgnoresOrder(path: string, q1: Query, q2: Query)
    requires HasDistinctKeys(q1) && HasDistinctKeys(q2) && AsMap(q1) == AsMap(q2)
    ensures BuildCacheKey(path, q1) == BuildCacheKey(path, q2)
  {
    SortSorts(Keys(q1));
    SortSorts(Keys(q2));
    SortedKeysAreKeys(q1);
    SortedKeysAreKeys(q2);
    SortedIsUnique(Sort(Keys(q1)), Sort(Keys(q2)));
  }

  /** What makes keys unambiguous: no '?' in the path, no '&' and no '=' in names, no '&' in values. */
  predicate IsClean(path: string, q: Query) {
    && HasDistinctKeys(q)
    && '?' !in path
    && forall i | 0 <= i < |q| :: '&' !in q[i].0 && '=' !in q[i].0 && '&' !in q[i].1
  }

  lemma FirstSeparator(a: string, b: string, sep: char)
    requires sep !in a
    ensures var s := a + [sep] + b; s[|a|] == sep && forall i | 0 <= i < |a| :: s[i] != sep
    ensures var s := a + [sep] + b; a == s[..|a|] && b == s[|a| + 1..]
  {
  }

  /** Cutting at the first occurrence of a separator is unambiguous. */
  lemma CutIsUnique(a1: string, b1: string, a2: string, b2: string, sep: char)
    requires sep !in a1 && sep !in a2
    requires a1 + [sep] + b1 == a2 + [sep] + b2
    ensures a1 == a2 && b1 == b2
  {
    FirstSeparator(a1, b1, sep);
    FirstSeparator(a2, b2, sep);
  }

  ghost predicate AreParts(parts: seq<string>, sep: char) {
    forall i | 0 <= i < |parts| :: parts[i] != "" && sep !in parts[i]
  }

  lemma JoinOfParts(parts: seq<string>, sep: char)
    requires AreParts(parts, sep)
    ensures Join(parts, sep) == "" <==> parts == []
    ensures sep in Join(parts, sep) <==> |parts| > 1
  {
    if |parts| > 1 { assert Join(parts, sep)[|parts[0]|] == sep; }
  }

  lemma {:induction false} JoinIsInjective(p1: seq<string>, p2: seq<string>, sep: char)
    requires AreParts(p1, sep) && AreParts(p2, sep) && Join(p1, sep) == Join(p2, sep)
    ensures p1 == p2
  {
    JoinOfParts(p1, sep);
    JoinOfParts(p2, sep);
    if |p1| > 1 {
      CutIsUnique(p1[0], Join(p1[1..], sep), p2[0], Join(p2[1..], sep), sep);
      JoinIsInjective(p1[1..], p2[1..], sep);
      assert p1 == [p1[0]] + p1[1..] && p2 == [p2[0]] + p2[1..];
    }
  }

  /** A question mark ends the path when there is one. */
  lemma PathIsUnique(path1: string, s1: string, path2: string, s2: string)
    requires '?' !in path1 && '?' !in path2
    requires path1 + (if s1 != "" then "?" + s1 else "") == path2 + (if s2 != "" then "?" + s2 else "")
    ensures path1 == path2 && s1 == s2
  {
    PathEnds(path1, s1);
    PathEnds(path2, s2);
    assert path1 + "" == path1 && path2 + "" == path2;
    if s1 != "" {
      assert "?" == ['?'] && path1 + ("?" + s1) == path1 + ['?'] + s1 && path2 + ("?" + s2) == path2 + ['?'] + s2;
      CutIsUnique(path1, s1, path2, s2, '?');
    }
  }

  lemma PathEnds(path: string, s: string)
    requires '?' !in path
    ensures '?' in path + (if s != "" then "?" + s else "") <==> s != ""
  {
    if s != "" { assert (path + ("?" + s))[|path|] == '?'; }
  }

  lemma PairsAreParts(q: Query)
    requires IsClean("", q)
    ensures (forall k | k in AsMap(q) :: '&' !in k && '=' !in k && '&' !in AsMap(q)[k])
    ensures forall k | k in Sort(Keys(q)) :: k in AsMap(q)
    ensures AreParts(Pairs(Sort(Keys(q)), AsMap(q)), '&')
  {
    var m, ks := AsMap(q), Sort(Keys(q));
    SortedKeysAreKeys(q);
    forall i | 0 <= i < |ks| ensures '&' !in Pairs(ks, m)[i] && Pairs(ks, m)[i] != "" {
      assert ks[i] in m;
    }
  }

  lemma PairIsUnique(k1: string, v1: string, k2: string, v2: string)
    requires '=' !in k1 && '=' !in k2 && k1 + "=" + v1 == k2 + "=" + v2
    ensures k1 == k2 && v1 == v2
  {
    assert "=" == ['='];
    CutIsUnique(k1, v1, k2, v2, '=');
  }

  lemma PairsAreInjective(k1: seq<string>, m1: map<string, string>, k2: seq<string>, m2: map<string, string>)
    requires forall k | k in k1 :: k in m1 && '=' !in k
    requires forall k | k in k2 :: k in m2 && '=' !in k
    requires Pairs(k1, m1) == Pairs(k2, m2)
    ensures k1 == k2 && forall k | k in k1 :: m1[k] == m2[k]
  {
    var p1, p2 := Pairs(k1, m1), Pairs(k2, m2);
    assert |k1| == |p1| && |k2| == |p2|;
    forall i | 0 <= i < |k1| ensures k1[i] == k2[i] && m1[k1[i]] == m2[k2[i]] {
      assert p1[i] == p2[i];
      PairIsUnique(k1[i], m1[k1[i]], k2[i], m2[k2[i]]);
    }
  }

  lemma SortedQueryIsInjective(q1: Query, q2: Query)
    requires IsClean("", q1) && IsClean("", q2) && SortedQuery(q1) == SortedQuery(q2)
    ensures AsMap(q1) == AsMap(q2)
  {
    hide Sort, Join, AreParts, Pairs, Keys, AsMap;
    var m1, m2 := AsMap(q1), AsMap(q2);
    var k1, k2 := Sort(Keys(q1)), Sort(Keys(q2));
    PairsAreParts(q1);
    PairsAreParts(q2);
    SortedKeysAreKeys(q1);
    SortedKeysAreKeys(q2);
    hide IsClean;
    JoinIsInjective(Pairs(k1, m1), Pairs(k2, m2), '&');
    PairsAreInjective(k1, m1, k2, m2);
  }

  /** Among clean requests, equal keys mean equal paths and equal queries. */
  lemma KeyIsInjective(path1: string, q1: Query, path2: string, q2: Query)
    requires IsClean(path1, q1) && IsClean(path2, q2)
    requires BuildCacheKey(path1, q1) == BuildCacheKey(path2, q2)
    ensures path1 == path2 && AsMap(q1) == AsMap(q2)
  {
    hide SortedQuery, AsMap;
    KeyTexts(path1, q1, path2, q2);
    SortedQueryIsInjective(q1, q2);
  }

  lemma OneParameter(a: string, x: string)
    ensures AsMap([(a, x)]) == map[a := x]
    ensures SortedQuery([(a, x)]) == a + "=" + x
  {
    var q: Query := [(a, x)];
    assert AsMap(q)[a] == q[0].1;
    assert Keys(q) == [a] && Sort([a]) == [a];
  }

  lemma SortOfTwo(a: string, b: string)
    requires Less(a, b)
    ensures Sort([a, b]) == [a, b]
  {
    assert Sort([b]) == [b];
  }

  lemma TwoParameters(a: string, v: string, b: string, w: string)
    requires Less(a, b)
    ensures AsMap([(a, v), (b, w)]) == map[a := v, b := w]
    ensures SortedQuery([(a, v), (b, w)]) == a + "=" + v + ['&'] + (b + "=" + w)
  {
    assert a != b by { LessIsStrictOrder(a, b, ""); }
    MapOfTwo(a, v, b, w);
    SortOfTwo(a, b);
    var q: Query := [(a, v), (b, w)];
    assert Keys(q) == [a, b];
    hide Sort, Less, AsMap, Join;
    assert Pairs([a, b], AsMap(q)) == [a + "=" + v, b + "=" + w];
    JoinOfTwo(a + "=" + v, b + "=" + w, '&');
  }

  lemma MapOfTwo(a: string, v: string, b: string, w: string)
    requires a != b
    ensures AsMap([(a, v), (b, w)]) == map[a := v, b := w]
  {
    hide Less, SortedQuery;
    var q: Query := [(a, v), (b, w)];
    assert q[..1] == [(a, v)];
    OneParameter(a, v);
  }

  lemma JoinOfTwo(x: string, y: string, sep: char)
    ensures Join([x, y], sep) == x + [sep] + y
  {
    assert [x, y][1..] == [y];
  }

  /** The restriction matters: a value that contains '&' can pass for two parameters. */
  lemma UncleanKeysCollide(path: string, a: string, v: string, b: string, w: string)
    requires Less(a, b)
    ensures BuildCacheKey(path, [(a, v + "&" + b + "=" + w)]) == BuildCacheKey(path, [(a, v), (b, w)])
    ensures AsMap([(a, v + "&" + b + "=" + w)]) != AsMap([(a, v), (b, w)])
  {
    LessIsStrictOrder(a, b, "");
    hide SortedQuery, AsMap, Less;
    OneParameter(a, v + "&" + b + "=" + w);
    TwoParameters(a, v, b, w);
    assert a + "=" + v + ['&'] + (b + "=" + w) == a + "=" + (v + "&" + b + "=" + w);
    assert b in map[a := v, b := w] && b !in map[a := v + "&" + b + "=" + w];
  }

  // ---- exactly which queries share a key

  /** An equals sign at these two places. */
  predicate HasEqualsAt(s: string, i: nat, j: nat) {
    i < j < |s| && s[i] == '=' && s[j] == '='
  }

  ghost predicate HasTwoEquals(s: string) {
    exists i, j :: HasEqualsAt(s, i, j)
  }

  /** The text of a query with two parameters or more starts with a name and goes on after another parameter. */
  lemma ManyParameters(q: Query) returns (name: string, rest: string)
    requires HasDistinctKeys(q) && |q| >= 2
    ensures SortedQuery(q) == name + "=" + rest && HasTwoEquals(SortedQuery(q))
  {
    SortedKeysAreKeys(q);
    var ks := Sort(Keys(q));
    assert |ks| >= 2 by { assert |ks| == |multiset(ks)| == |multiset(Keys(q))| == |q|; }
    hide Sort, Keys, AsMap, HasDistinctKeys, HasTwoEquals;
    rest := ManyPairs(ks, AsMap(q));
    name := ks[0];
  }

  lemma ManyPairs(ks: seq<string>, m: map<string, string>) returns (rest: string)
    requires |ks| >= 2 && forall k <- ks :: k in m
    ensures Join(Pairs(ks, m), '&') == ks[0] + "=" + rest && HasTwoEquals(Join(Pairs(ks, m), '&'))
  {
    var parts := Pairs(ks, m);
    var later := Join(parts[1..], '&');
    JoinIsFirstAndRest(parts, '&');
    StartsWithPart(parts[1..], '&');
    assert parts[0] == ks[0] + "=" + m[ks[0]] && parts[1] == ks[1] + "=" + m[ks[1]];
    hide Pairs, Join;
    rest := TwoParts(ks[0], m[ks[0]], ks[1], m[ks[1]], later);
  }

  lemma TwoParts(a: string, v: string, b: string, w: string, later: string) returns (rest: string)
    requires b + "=" + w <= later
    ensures a + "=" + v + ['&'] + later == a + "=" + rest && HasTwoEquals(a + "=" + v + ['&'] + later)
  {
    rest := v + "&" + later;
    var text, at := a + "=" + v + ['&'] + later, |a| + 1 + |v| + 1 + |b|;
    assert text == a + "=" + rest;
    assert later[|b|] == (b + "=" + w)[|b|] == '=';
    assert HasEqualsAt(text, |a|, at);
  }

  lemma JoinIsFirstAndRest(parts: seq<string>, sep: char)
    requires |parts| >= 2
    ensures Join(parts, sep) == parts[0] + [sep] + Join(parts[1..], sep)
  {
  }

  lemma StartsWithPart(parts: seq<string>, sep: char)
    requires parts != []
    ensures parts[0] <= Join(parts, sep)
  {
  }

  lemma DistinctMaps(a: string, v: string, q: Query)
    requires HasDistinctKeys(q) && |q| >= 2
    ensures AsMap([(a, v)]) != AsMap(q)
  {
    OneParameter(a, v);
    assert q[0].0 in AsMap(q) && q[1].0 in AsMap(q);
    hide AsMap;
    assert q[0].0 != q[1].0;
  }

  /** Two places of an equals sign are two ways to read a text as one parameter. */
  lemma TwoReadings(a: string, v: string)
    requires '=' in a || '=' in v
    ensures exists b, w :: b != a && a + "=" + v == b + "=" + w
  {
    var text := a + "=" + v;
    if '=' in a {
      var i :| 0 <= i < |a| && a[i] == '=';
      assert text == a[..i] + "=" + (a[i + 1..] + "=" + v);
      assert |a[..i]| < |a|;
    } else {
      var i :| 0 <= i < |v| && v[i] == '=';
      assert text == (a + "=" + v[..i]) + "=" + v[i + 1..];
      assert |a + "=" + v[..i]| > |a|;
    }
  }

  predicate IsAmbiguous(q: Query) {
    |q| >= 2 || (|q| == 1 && ('=' in q[0].0 || '=' in q[0].1))
  }

  /** Another query that has the same text. */
  ghost predicate SharesText(q: Query, other: Query) {
    HasDistinctKeys(other) && AsMap(other) != AsMap(q) && SortedQuery(other) == SortedQuery(q)
  }

  lemma AmbiguousShares(q: Query) returns (other: Query)
    requires HasDistinctKeys(q) && IsAmbiguous(q)
    ensures SharesText(q, other)
  {
    if |q| >= 2 {
      var name, rest := ManyParameters(q);
      other := [(name, rest)];
      OneParameter(name, rest);
      DistinctMaps(name, rest, q);
    } else {
      hide SortedQuery, AsMap;
      TwoReadings(q[0].0, q[0].1);
      var b, w :| b != q[0].0 && q[0].0 + "=" + q[0].1 == b + "=" + w;
      other := [(b, w)];
      assert q == [(q[0].0, q[0].1)];
      OneParameter(q[0].0, q[0].1);
      OneParameter(b, w);
      assert q[0].0 in map[q[0].0 := q[0].1] && q[0].0 !in map[b := w];
    }
  }

  lemma OnlyOneEquals(a: string, v: string)
    requires '=' !in a && '=' !in v
    ensures forall i | 0 <= i < |a + "=" + v| && (a + "=" + v)[i] == '=' :: i == |a|
    ensures !HasTwoEquals(a + "=" + v)
  {
    var text := a + "=" + v;
    assert forall i | 0 <= i < |a| :: text[i] == a[i];
    assert forall i | |a| < i < |text| :: text[i] == v[i - |a| - 1];
  }

  lemma UnambiguousDoesNotShare(q: Query, other: Query)
    requires HasDistinctKeys(q) && !IsAmbiguous(q) && HasDistinctKeys(other) && SortedQuery(other) == SortedQuery(q)
    ensures AsMap(other) == AsMap(q)
  {
    if q == [] {
      assert SortedQuery([]) == "" by { assert Keys([]) == []; }
    } else {
      assert q == [(q[0].0, q[0].1)];
      OneParameter(q[0].0, q[0].1);
      OnlyOneEquals(q[0].0, q[0].1);
    }
    if |other| >= 2 {
      var name, rest := ManyParameters(other);
    } else if |other| == 1 {
      assert other == [(other[0].0, other[0].1)];
      OneParameter(other[0].0, other[0].1);
      hide SortedQuery, AsMap;
      if q != [] { SameReading(q[0].0, q[0].1, other[0].0, other[0].1); }
    } else {
      assert SortedQuery(other) == "" by { assert Keys(other) == []; }
    }
  }

  lemma SameReading(a: string, v: string, b: string, w: string)
    requires '=' !in a && '=' !in v && a + "=" + v == b + "=" + w
    ensures a == b && v == w
  {
    OnlyOneEquals(a, v);
    assert (b + "=" + w)[|b|] == '=';
    assert a == (a + "=" + v)[..|a|] && b == (b + "=" + w)[..|b|];
    assert v == (a + "=" + v)[|a| + 1..] && w == (b + "=" + w)[|b| + 1..];
  }

  /** Among the requests whose paths have no '?', a request shares its key with another if and only if its query has
      two parameters, or one with an equals sign in its name or its value. */
  lemma SharesKeyIff(path: string, q: Query)
    requires '?' !in path && HasDistinctKeys(q)
    ensures (exists p, other :: IsOtherOfKey(path, q, p, other)) <==> IsAmbiguous(q)
  {
    hide SortedQuery, AsMap, HasDistinctKeys, IsAmbiguous;
    if IsAmbiguous(q) {
      var other := AmbiguousShares(q);
      assert IsOtherOfKey(path, q, path, other);
    }
    if p, other :| IsOtherOfKey(path, q, p, other) {
      KeyTexts(path, q, p, other);
      if !IsAmbiguous(q) { UnambiguousDoesNotShare(q, other); }
    }
  }

  ghost predicate IsOtherOfKey(path: string, q: Query, p: string, other: Query) {
    && '?' !in p && HasDistinctKeys(other) && (p != path || AsMap(other) != AsMap(q))
    && BuildCacheKey(p, other) == BuildCacheKey(path, q)
  }

  lemma KeyTexts(path1: string, q1: Query, path2: string, q2: Query)
    requires '?' !in path1 && '?' !in path2 && BuildCacheKey(path1, q1) == BuildCacheKey(path2, q2)
    ensures path1 == path2 && SortedQuery(q1) == SortedQuery(q2)
  {
    var s1, s2 := SortedQuery(q1), SortedQuery(q2);
    hide SortedQuery;
    var start := CACHE_KEY_PREFIX + "GET:";
    var t1 := path1 + (if s1 != "" then "?" + s1 else "");
    var t2 := path2 + (if s2 != "" then "?" + s2 else "");
    assert BuildCacheKey(path1, q1) == start + t1 && BuildCacheKey(path2, q2) == start + t2;
    assert t1 == (start + t1)[|start|..] && t2 == (start + t2)[|start|..];
    PathIsUnique(path1, s1, path2, s2);
  }
}
