/** The zone-name normal form of `prisma/seed/zones.ts`. */
module ZoneNames {
  import opened Text

  const CANONICAL_ZONES: seq<string> := ["Prithvi", "Agni", "Vayu", "Akash"]

  /** `name.replace(/^zone\s+/i, '')`. */
  function StripZonePrefix(name: string): string {
    if |name| >= 5 && ToLower(name[..4]) == "zone" && IsSpace(name[4]) then TrimStart(name[4..]) else name
  }

  /** `zones.find((z) => z.toLowerCase() === lower)`. */
  function FindZone(zones: seq<string>, lower: string): (r: Option<string>)
    ensures r.Some? ==> r.value in zones && ToLower(r.value) == lower
    ensures r.None? ==> forall z :: z in zones ==> ToLower(z) != lower
  {
    if zones == [] then None
    else if ToLower(zones[0]) == lower then Some(zones[0])
    else FindZone(zones[1..], lower)
  }

  function CanonicalZoneName(raw: string): string {
    var name := Trim(raw);
    var stripped := Trim(StripZonePrefix(name));
    match FindZone(CANONICAL_ZONES, ToLower(stripped))
    case Some(z) => z
    case None => name
  }

  lemma LowerSeparatesCanonicalZones(a: string, b: string)
    requires a in CANONICAL_ZONES && b in CANONICAL_ZONES && ToLower(a) == ToLower(b)
    ensures a == b
  {
    assert |a| == |b|;
    assert ToLower(a)[0] == ToLower(b)[0];
  }

  lemma CanonicalZoneHasNoPrefix(z: string)
    requires z in CANONICAL_ZONES
    ensures IsTrimmed(z) && StripZonePrefix(z) == z
  {
    if |z| >= 5 { assert ToLower(z[..4])[0] == LowerChar(z[0]) != 'z'; }
  }

  lemma CanonicalZoneIsFixed(z: string)
    requires z in CANONICAL_ZONES
    ensures CanonicalZoneName(z) == z
  {
    hide StripZonePrefix, Trim, FindZone, IsTrimmed, CANONICAL_ZONES;
    CanonicalZoneHasNoPrefix(z);
    assert Trim(z) == z;
    var r := FindZone(CANONICAL_ZONES, ToLower(z));
    assert r.Some?;
    LowerSeparatesCanonicalZones(r.value, z);
  }

  /** Taking the normal form twice changes nothing; every later theorem about zones rests on this. */
  lemma CanonicalIsIdempotent(raw: string)
    ensures CanonicalZoneName(CanonicalZoneName(raw)) == CanonicalZoneName(raw)
  {
    var c := CanonicalZoneName(raw);
    if c in CANONICAL_ZONES {
      CanonicalZoneIsFixed(c);
    } else {
      assert c == Trim(raw);
    }
  }

  // ---- which texts name a canonical zone

  /** White space, the name in any letter case, white space. */
  predicate IsPlainName(z: string, a: string, name: string, b: string) {
    IsSpaces(a) && IsSpaces(b) && ToLower(name) == ToLower(z)
  }

  /** The same with the word zone and some white space in front of the name. */
  predicate IsPrefixedName(z: string, a: string, word: string, gap: string, name: string, b: string) {
    IsPlainName(z, a, name, b) && ToLower(word) == "zone" && gap != "" && IsSpaces(gap)
  }

  ghost predicate Names(raw: string, z: string) {
    || (exists a, name, b :: IsPlainName(z, a, name, b) && raw == a + name + b)
    || (exists a, word, gap, name, b :: IsPrefixedName(z, a, word, gap, name, b) && raw == a + word + gap + name + b)
  }

  lemma NameIsTrimmed(z: string, name: string)
    requires z in CANONICAL_ZONES && ToLower(name) == ToLower(z)
    ensures name != "" && IsTrimmed(name) && LowerChar(name[0]) != 'z'
  {
    assert |name| == |z| && z != "" && IsTrimmed(z);
    assert forall c :: IsSpace(c) ==> LowerChar(c) == c;
    assert forall i | 0 <= i < |z| :: LowerChar(name[i]) == ToLower(name)[i] == ToLower(z)[i] == LowerChar(z[i]);
    assert forall i | 0 <= i < |z| :: !IsSpace(LowerChar(z[i]));
  }

  lemma FoundByLower(z: string, name: string)
    requires z in CANONICAL_ZONES && ToLower(name) == ToLower(z)
    ensures FindZone(CANONICAL_ZONES, ToLower(name)) == Some(z)
  {
    hide CANONICAL_ZONES, FindZone;
    var r := FindZone(CANONICAL_ZONES, ToLower(name));
    assert r.Some?;
    LowerSeparatesCanonicalZones(r.value, z);
  }

  lemma CanonicalOf(raw: string, z: string, stripped: string)
    requires z in CANONICAL_ZONES && StripZonePrefix(Trim(raw)) == stripped
    requires IsTrimmed(stripped) && ToLower(stripped) == ToLower(z)
    ensures CanonicalZoneName(raw) == z
  {
    FoundByLower(z, stripped);
    hide StripZonePrefix, ToLower, FindZone, CANONICAL_ZONES;
  }

  lemma NameHasNoPrefix(name: string)
    requires name != "" && LowerChar(name[0]) != 'z'
    ensures StripZonePrefix(name) == name
  {
    if |name| >= 5 { assert ToLower(name[..4])[0] == LowerChar(name[0]); }
  }

  lemma PlainNameIsCanonical(z: string, a: string, name: string, b: string)
    requires z in CANONICAL_ZONES && IsPlainName(z, a, name, b)
    ensures CanonicalZoneName(a + name + b) == z
  {
    NameIsTrimmed(z, name);
    NameHasNoPrefix(name);
    hide StripZonePrefix, ToLower, IsTrimmed, CANONICAL_ZONES, IsSpaces, CanonicalZoneName, Trim;
    TrimSkips(a, name, b);
    CanonicalOf(a + name + b, z, name);
  }

  lemma PrefixParts(word: string, gap: string, name: string)
    requires |word| == 4 && gap != "" && name != ""
    ensures var s := word + gap + name;
            && |s| >= 6 && s[..4] == word && s[4..] == gap + name
            && s[0] == word[0] && s[4] == gap[0] && s[|s| - 1] == name[|name| - 1]
  {
  }

  lemma PrefixIsStripped(word: string, gap: string, name: string)
    requires ToLower(word) == "zone" && gap != "" && IsSpaces(gap) && name != "" && IsTrimmed(name)
    ensures StripZonePrefix(word + gap + name) == name && IsTrimmed(word + gap + name)
  {
    assert |word| == |ToLower(word)| == 4;
    assert LowerChar(word[0]) == ToLower(word)[0] == 'z';
    TrimStartSkips(gap, name);
    PrefixParts(word, gap, name);
    assert IsSpace(gap[0]) && !IsSpace(word[0]);
    hide ToLower, TrimStart, IsSpace;
  }

  lemma PrefixedNameIsCanonical(z: string, a: string, word: string, gap: string, name: string, b: string)
    requires z in CANONICAL_ZONES && IsPrefixedName(z, a, word, gap, name, b)
    ensures CanonicalZoneName(a + word + gap + name + b) == z
  {
    NameIsTrimmed(z, name);
    hide StripZonePrefix, ToLower, IsTrimmed, CANONICAL_ZONES, IsSpaces, CanonicalZoneName, Trim;
    PrefixIsStripped(word, gap, name);
    var s := word + gap + name;
    TrimSkips(a, s, b);
    CanonicalOf(a + s + b, z, name);
    Regroup(a, word, gap, name, b);
  }

  lemma Regroup(a: string, word: string, gap: string, name: string, b: string)
    ensures a + (word + gap + name) + b == a + word + gap + name + b
  {
  }

  /** The prefix that is stripped is the word zone and some white space. */
  lemma StrippedIsPrefix(s: string) returns (word: string, gap: string)
    requires IsTrimmed(s) && StripZonePrefix(s) != s
    ensures s == word + gap + StripZonePrefix(s) && ToLower(word) == "zone" && gap != "" && IsSpaces(gap)
    ensures IsTrimmed(StripZonePrefix(s))
  {
    hide IsSpace;
    gap := TrimStartCuts(s[4..]);
    word := s[..4];
    SpaceIsCut(s[4..], gap);
    RestIsTrimmed(word, gap, TrimStart(s[4..]));
    hide TrimStart, ToLower, IsSpaces;
  }

  lemma SpaceIsCut(s: string, gap: string)
    requires s != "" && IsSpace(s[0]) && s == gap + TrimStart(s)
    ensures gap != ""
  {
    hide IsSpace;
    hide TrimStart;
  }

  lemma RestIsTrimmed(word: string, gap: string, rest: string)
    requires IsTrimmed(word + gap + rest) && (rest == "" || !IsSpace(rest[0]))
    ensures IsTrimmed(rest)
  {
    hide IsSpace;
    if rest != "" { assert (word + gap + rest)[|word + gap + rest| - 1] == rest[|rest| - 1]; }
  }

  lemma NamesIsCanonical(raw: string, z: string)
    requires z in CANONICAL_ZONES && Names(raw, z)
    ensures CanonicalZoneName(raw) == z
  {
    hide CanonicalZoneName, IsPlainName, IsPrefixedName;
    if a, name, b :| IsPlainName(z, a, name, b) && raw == a + name + b {
      PlainNameIsCanonical(z, a, name, b);
    } else {
      var a, word, gap, name, b :| IsPrefixedName(z, a, word, gap, name, b) && raw == a + word + gap + name + b;
      PrefixedNameIsCanonical(z, a, word, gap, name, b);
    }
  }

  lemma FoundIsNamed(raw: string, z: string)
    requires ToLower(Trim(StripZonePrefix(Trim(raw)))) == ToLower(z)
    ensures Names(raw, z)
  {
    var a, b := TrimCuts(raw);
    var name := Trim(raw);
    var stripped := StripZonePrefix(name);
    hide StripZonePrefix, Trim, ToLower;
    if stripped == name {
      assert IsPlainName(z, a, name, b);
    } else {
      var word, gap := StrippedIsPrefix(name);
      assert IsPrefixedName(z, a, word, gap, stripped, b);
      assert raw == a + word + gap + stripped + b;
    }
  }

  /** A text has a canonical zone as its normal form exactly when it names it, with or without the prefix; a text that
      names none is only trimmed. */
  lemma NormalFormIff(raw: string, z: string)
    requires z in CANONICAL_ZONES
    ensures Names(raw, z) <==> CanonicalZoneName(raw) == z
    ensures (forall y | y in CANONICAL_ZONES :: !Names(raw, y)) ==> CanonicalZoneName(raw) == Trim(raw)
  {
    if Names(raw, z) { NamesIsCanonical(raw, z); }
    CanonicalZoneHasNoPrefix(z);
    hide Names, StripZonePrefix, CANONICAL_ZONES, ToLower, Trim, FindZone, IsTrimmed;
    var found := FindZone(CANONICAL_ZONES, ToLower(Trim(StripZonePrefix(Trim(raw)))));
    if found.Some? { FoundIsNamed(raw, found.value); }
  }
}
