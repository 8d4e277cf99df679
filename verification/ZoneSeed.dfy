/** `seedZonesFromClubs` of `prisma/seed/zones.ts`: the merge, one zone row per zone name, and a zone id
    and a slug for every club. */
module ZoneSeed {
  import opened Sets
  import opened Text
  import opened ZoneNames
  import opened ZoneTables
  import opened ZoneQuotient
  import opened ZoneMergeLoop

  /** The names to seed, in insertion order: the four canonical ones, then what the clubs add. */
  function SeedNames(texts: seq<string>): (names: seq<string>)
    ensures NoDuplicates(names)
    ensures forall n | n in names :: !IsAlias(n)
    ensures forall n :: n in names <==>
              n in CANONICAL_ZONES || (n != "" && exists x | x in texts :: x != "" && n == CanonicalZoneName(x))
  {
    hide CanonicalZoneName;
    if texts == [] then
      CanonicalZonesAreFixed();
      CANONICAL_ZONES
    else
      var text := texts[|texts| - 1];
      assert texts == texts[..|texts| - 1] + [text];
      var rest := SeedNames(texts[..|texts| - 1]);
      var name := if text == "" then "" else CanonicalZoneName(text);
      CanonicalIsIdempotent(text);
      if name == "" || name in rest then rest else rest + [name]
  }

  lemma CanonicalZonesAreFixed()
    ensures forall z | z in CANONICAL_ZONES :: !IsAlias(z)
  {
    hide CanonicalZoneName;
    forall z | z in CANONICAL_ZONES ensures !IsAlias(z) { CanonicalZoneIsFixed(z); }
  }

  function OrderOf(name: string, i: nat): nat {
    var order := Position(CANONICAL_ZONES, name);
    if order < |CANONICAL_ZONES| then order else 10 + i
  }

  lemma {:induction false} CanonicalZonesComeFirst(texts: seq<string>)
    ensures CANONICAL_ZONES <= SeedNames(texts)
  {
    if texts != [] { CanonicalZonesComeFirst(texts[..|texts| - 1]); }
    hide CanonicalZoneName;
  }

  /** The canonical zones have the orders 0 to 3 and the others, in the order in which they came, follow from 14 on. */
  lemma OrderOfSeeded(texts: seq<string>, i: nat)
    requires i < |SeedNames(texts)|
    ensures OrderOf(SeedNames(texts)[i], i) == if i < 4 then i else 10 + i
    ensures i < 4 ==> SeedNames(texts)[i] == ["Prithvi", "Agni", "Vayu", "Akash"][i]
  {
    hide SeedNames;
    var names := SeedNames(texts);
    CanonicalZonesComeFirst(texts);
    var p := Position(CANONICAL_ZONES, names[i]);
    assert forall j | 0 <= j < 4 :: names[j] == CANONICAL_ZONES[j];
    assert p < 4 ==> names[p] == names[i];
  }

  /** The zone id that a club with this zone text ends up with. */
  ghost predicate ZoneIdIsRight(zones: map<Id, Zone>, c: Club) {
    if IsGiven(c.zone) && exists z :: z in zones && zones[z].name == CanonicalZoneName(c.zone.value) then
      c.zoneId.Some? && c.zoneId.value in zones && zones[c.zoneId.value].name == CanonicalZoneName(c.zone.value)
    else
      c.zoneId == None
  }

  /** A slug that the seed will not touch again. It is empty only when there is nothing to build one from. */
  predicate SlugIsSettled(id: Id, c: Club, slugify: string -> string) {
    c.slug.Some? && (c.slug.value == "" ==> slugify(c.name) == "" && ToLower(id) == "")
  }

  ghost predicate ZoneIsSeeded(zones: map<Id, Zone>, name: string, order: int) {
    exists z :: z in zones && zones[z] == Zone(name, order)
  }

  ghost predicate ZonesAreSeeded(zones: map<Id, Zone>, names: seq<string>) {
    forall i | 0 <= i < |names| :: ZoneIsSeeded(zones, names[i], OrderOf(names[i], i))
  }

  ghost predicate ClubIsSettled(zones: map<Id, Zone>, id: Id, c: Club, slugify: string -> string) {
    ZoneIdIsRight(zones, c) && SlugIsSettled(id, c, slugify)
  }

  ghost predicate AllSettled(zones: map<Id, Zone>, clubs: map<Id, Club>, slugify: string -> string) {
    forall c | c in clubs :: ClubIsSettled(zones, c, clubs[c], slugify)
  }

  /** The state that one successful run of the seed establishes and the next one leaves alone. */
  ghost predicate Settled(t: Tables, texts: seq<string>, slugify: string -> string) {
    && UniqueNames(t.zones) && NoAliases(t.zones)
    && ZonesAreSeeded(t.zones, SeedNames(texts))
    && AllSettled(t.zones, t.clubs, slugify)
  }

  /** `zone.upsert({ where: { name }, ... })`; `cuid` is the id a created row would draw. */
  method UpsertZone(db: ZoneStore, cuid: Id, name: string, order: int)
    requires cuid !in db.zones && UniqueNames(db.zones) && !IsAlias(name)
    modifies db`zones
    ensures UniqueNames(db.zones) && (NoAliases(old(db.zones)) ==> NoAliases(db.zones))
    ensures old(db.zones).Keys <= db.zones.Keys <= old(db.zones).Keys + {cuid}
    ensures forall z | z in old(db.zones) :: db.zones[z].name == old(db.zones)[z].name
    ensures ZoneIsSeeded(db.zones, name, order)
    ensures forall n, o | n != name && ZoneIsSeeded(old(db.zones), n, o) :: ZoneIsSeeded(db.zones, n, o)
    ensures ZoneIsSeeded(old(db.zones), name, order) ==> db.zones == old(db.zones)
  {
    hide CanonicalZoneName;
    ghost var before := db.zones;
    if exists z | z in db.zones :: db.zones[z].name == name {
      var z :| z in db.zones && db.zones[z].name == name;
      db.zones := db.zones[z := db.zones[z].(order := order)];
      assert db.zones[z] == Zone(name, order);
    } else {
      db.zones := db.zones[cuid := Zone(name, order)];
      assert db.zones[cuid] == Zone(name, order);
    }
    forall n, o | n != name && ZoneIsSeeded(before, n, o) ensures ZoneIsSeeded(db.zones, n, o) {
      var y :| y in before && before[y] == Zone(n, o);
      assert db.zones[y] == Zone(n, o);
    }
  }

  method UpsertZones(db: ZoneStore, texts: seq<string>, cuids: seq<Id>)
    requires UniqueNames(db.zones)
    requires NoDuplicates(cuids) && |cuids| >= |SeedNames(texts)| && forall id | id in cuids :: id !in db.zones
    modifies db`zones
    ensures UniqueNames(db.zones) && (NoAliases(old(db.zones)) ==> NoAliases(db.zones))
    ensures old(db.zones).Keys <= db.zones.Keys
    ensures ZonesAreSeeded(db.zones, SeedNames(texts))
    ensures ZonesAreSeeded(old(db.zones), SeedNames(texts)) ==> db.zones == old(db.zones)
  {
    hide CanonicalZoneName, SeedNames, OrderOf, ZoneIsSeeded;
    ghost var before := db.zones;
    var names := SeedNames(texts);
    for i := 0 to |names|
      invariant UniqueNames(db.zones) && (NoAliases(before) ==> NoAliases(db.zones))
      invariant before.Keys <= db.zones.Keys
      invariant forall j | i <= j < |names| :: cuids[j] !in db.zones
      invariant forall j | 0 <= j < i :: ZoneIsSeeded(db.zones, names[j], OrderOf(names[j], j))
      invariant ZonesAreSeeded(before, names) ==> db.zones == before
    {
      UpsertZone(db, cuids[i], names[i], OrderOf(names[i], i));
    }
  }

  /** The unique slug is enforced. */
  method UpdateClub(db: ZoneStore, id: Id, zoneId: Option<Id>, slug: string) returns (ok: bool)
    requires id in db.clubs
    modifies db`clubs
    ensures ok <==> forall c | c in old(db.clubs) && c != id :: old(db.clubs)[c].slug != Some(slug)
    ensures db.clubs == if ok then old(db.clubs)[id := old(db.clubs)[id].(zoneId := zoneId, slug := Some(slug))]
                        else old(db.clubs)
  {
    ok := forall c | c in db.clubs :: c != id ==> db.clubs[c].slug != Some(slug);
    if ok { db.clubs := db.clubs[id := db.clubs[id].(zoneId := zoneId, slug := Some(slug))]; }
  }

  /** `zones.map((z) => [z.name, z.id])` as a map. */
  function IdsByName(zones: map<Id, Zone>): (m: map<string, Id>)
    requires UniqueNames(zones)
    ensures forall n | n in m :: m[n] in zones && zones[m[n]].name == n
    ensures forall z | z in zones :: zones[z].name in m && m[zones[z].name] == z
  {
    map z | z in zones :: zones[z].name := z
  }

  function ZoneIdFor(byName: map<string, Id>, c: Club): Option<Id> {
    if IsGiven(c.zone) && CanonicalZoneName(c.zone.value) in byName then Some(byName[CanonicalZoneName(c.zone.value)])
    else None
  }

  lemma ZoneIdForIsRight(zones: map<Id, Zone>, c: Club, slug: Option<string>)
    requires UniqueNames(zones)
    ensures ZoneIdIsRight(zones, c.(zoneId := ZoneIdFor(IdsByName(zones), c), slug := slug))
    ensures ZoneIdIsRight(zones, c) ==> c.zoneId == ZoneIdFor(IdsByName(zones), c)
  {
    hide CanonicalZoneName;
  }

  /** `slugify(name) || id`, with a suffix when it is taken. */
  function SlugFor(id: Id, c: Club, taken: set<string>, slugify: string -> string): string {
    var base := if slugify(c.name) != "" then slugify(c.name) else ToLower(id);
    if base in taken then base + "-" + ToLower(id)[..if |id| < 6 then |id| else 6] else base
  }

  /** The slug is the slug of the name, or else the id in lower case; when that is taken, the first six letters of the
      id in lower case come behind it, after a hyphen. */
  lemma SlugForIs(id: Id, c: Club, taken: set<string>, slugify: string -> string, base: string)
    requires if slugify(c.name) == "" then base == ToLower(id) else base == slugify(c.name)
    ensures base !in taken ==> SlugFor(id, c, taken, slugify) == base
    ensures base in taken ==> exists head, tail ::
              && ToLower(id) == head + tail && (|head| == 6 || (|head| < 6 && tail == ""))
              && SlugFor(id, c, taken, slugify) == base + "-" + head
  {
    var n := if |id| < 6 then |id| else 6;
    var head, tail := ToLower(id)[..n], ToLower(id)[n..];
    assert ToLower(id) == head + tail && (|head| == 6 || (|head| < 6 && tail == ""));
  }

  predicate SameTexts(c: Club, d: Club) {
    d.name == c.name && d.zone == c.zone
  }

  ghost predicate UniqueSlugs(clubs: map<Id, Club>) {
    forall c, d | c in clubs && d in clubs && clubs[c].slug.Some? && clubs[c].slug == clubs[d].slug :: c == d
  }

  /** `takenSlugs`: the slugs in the table, but for an empty one. */
  ghost predicate TakenIsRight(clubs: map<Id, Club>, taken: set<string>) {
    forall s :: s in taken <==> s != "" && HasSlug(clubs, s)
  }

  ghost predicate HasSlug(clubs: map<Id, Club>, slug: string) {
    exists c :: c in clubs && clubs[c].slug == Some(slug)
  }

  function Head(id: Id): string {
    ToLower(id)[..if |id| < 6 then |id| else 6]
  }

  /** The club has no slug, and both that it could get are in use. */
  ghost predicate HasNoFreeSlug(clubs: map<Id, Club>, id: Id, slugify: string -> string)
    requires id in clubs
  {
    var base := if slugify(clubs[id].name) != "" then slugify(clubs[id].name) else ToLower(id);
    !IsGiven(clubs[id].slug) && HasSlug(clubs, base) && HasSlug(clubs, base + "-" + Head(id))
  }

  /** The club as one iteration leaves it. */
  function AssignedClub(id: Id, c: Club, byName: map<string, Id>, taken: set<string>, slugify: string -> string): Club {
    c.(zoneId := ZoneIdFor(byName, c),
       slug := Some(if IsGiven(c.slug) then c.slug.value else SlugFor(id, c, taken, slugify)))
  }

  /** The unique slug refuses the update exactly when no slug is left for the club. */
  lemma RefusedIffNoFreeSlug(clubs: map<Id, Club>, id: Id, byName: map<string, Id>, taken: set<string>,
                             slugify: string -> string)
    requires UniqueSlugs(clubs) && TakenIsRight(clubs, taken) && id in clubs && id != ""
    ensures var slug := AssignedClub(id, clubs[id], byName, taken, slugify).slug;
            && slug.Some? && slug.value != ""
            && ((exists c :: c in clubs && c != id && clubs[c].slug == slug) <==> HasNoFreeSlug(clubs, id, slugify))
  {
    hide ToLower;
    var c := clubs[id];
    var base := if slugify(c.name) != "" then slugify(c.name) else ToLower(id);
    assert base != "";
    if !IsGiven(c.slug) {
      var slug := SlugFor(id, c, taken, slugify);
      assert slug == if base in taken then base + "-" + Head(id) else base;
      if d :| d in clubs && clubs[d].slug == Some(slug) { assert d != id; }
    }
  }

  /** An update that is not refused keeps slugs unique and `takenSlugs` right. */
  lemma AssignedKeepsSlugs(clubs: map<Id, Club>, id: Id, c: Club, taken: set<string>)
    requires UniqueSlugs(clubs) && TakenIsRight(clubs, taken) && id in clubs && c.slug.Some? && c.slug.value != ""
    requires forall d | d in clubs && d != id :: clubs[d].slug != c.slug
    requires IsGiven(clubs[id].slug) ==> c.slug == clubs[id].slug
    ensures UniqueSlugs(clubs[id := c]) && TakenIsRight(clubs[id := c], taken + {c.slug.value})
  {
    var clubs' := clubs[id := c];
    forall s ensures s in taken + {c.slug.value} <==> s != "" && HasSlug(clubs', s) {
      if d :| d in clubs && clubs[d].slug == Some(s) {
        assert s != "" ==> clubs'[d].slug == Some(s) || clubs[id].slug == Some(s);
      }
      if s == c.slug.value { assert clubs'[id].slug == Some(s); }
    }
  }

  /** One iteration of the loop over clubs. */
  method AssignClub(db: ZoneStore, id: Id, byName: map<string, Id>, taken: set<string>, slugify: string -> string)
    returns (ok: bool, taken': set<string>)
    requires UniqueNames(db.zones) && byName == IdsByName(db.zones) && id in db.clubs
    modifies db`clubs
    ensures db.clubs.Keys == old(db.clubs).Keys
    ensures forall c | c in db.clubs && c != id :: db.clubs[c] == old(db.clubs)[c]
    ensures SameTexts(old(db.clubs)[id], db.clubs[id])
    ensures ok ==> ClubIsSettled(db.zones, id, db.clubs[id], slugify)
    ensures var was := old(db.clubs)[id];
            var c := AssignedClub(id, was, byName, taken, slugify);
            && ok == (c == was || forall d | d in db.clubs && d != id :: old(db.clubs)[d].slug != c.slug)
            && db.clubs == (if ok then old(db.clubs)[id := c] else old(db.clubs))
            && taken' == taken + if IsGiven(was.slug) then {} else {c.slug.value}
    ensures ClubIsSettled(db.zones, id, old(db.clubs)[id], slugify) && ("" in taken ==> id != "")
            ==> ok && db.clubs == old(db.clubs) && taken' <= taken + (if id == "" then {""} else {})
  {
    hide CanonicalZoneName, ZoneIdIsRight, ZoneIdFor, IdsByName;
    var club := db.clubs[id];
    var zoneId := ZoneIdFor(byName, club);
    var slug: string;
    taken' := taken;
    if IsGiven(club.slug) {
      slug := club.slug.value;
    } else {
      slug := SlugFor(id, club, taken, slugify);
      taken' := taken + {slug};
    }
    ZoneIdForIsRight(db.zones, club, Some(slug));
    assert zoneId == club.zoneId && Some(slug) == club.slug ==> club == club.(zoneId := zoneId, slug := Some(slug));
    ok := true;
    if zoneId != club.zoneId || Some(slug) != club.slug {
      ok := UpdateClub(db, id, zoneId, slug);
    }
  }

  /** The first `i` clubs of the listing are settled, the others as they were. */
  ghost predicate AssignedUpTo(zones: map<Id, Zone>, before: map<Id, Club>, clubs: map<Id, Club>, order: seq<Id>,
                               i: nat, slugify: string -> string)
  {
    && clubs.Keys == before.Keys == (set c | c in order) && NoDuplicates(order)
    && (forall c | c in clubs :: SameTexts(before[c], clubs[c]))
    && (forall j | 0 <= j < |order| ::
          if j < i then ClubIsSettled(zones, order[j], clubs[order[j]], slugify)
          else clubs[order[j]] == before[order[j]])
  }

  lemma AssignedOneMore(zones: map<Id, Zone>, before: map<Id, Club>, clubs: map<Id, Club>, clubs': map<Id, Club>,
                        order: seq<Id>, i: nat, slugify: string -> string)
    requires i < |order| && AssignedUpTo(zones, before, clubs, order, i, slugify)
    requires order[i] in clubs && clubs'.Keys == clubs.Keys
    requires forall c | c in clubs' && c != order[i] :: clubs'[c] == clubs[c]
    requires SameTexts(clubs[order[i]], clubs'[order[i]]) && ClubIsSettled(zones, order[i], clubs'[order[i]], slugify)
    ensures AssignedUpTo(zones, before, clubs', order, i + 1, slugify)
  {
    hide ClubIsSettled;
  }

  lemma TextsSoFar(zones: map<Id, Zone>, before: map<Id, Club>, clubs: map<Id, Club>, order: seq<Id>, i: nat,
                   slugify: string -> string)
    requires AssignedUpTo(zones, before, clubs, order, i, slugify)
    ensures clubs.Keys == before.Keys && forall c | c in clubs :: SameTexts(before[c], clubs[c])
  {
    hide SameTexts, ClubIsSettled;
  }

  lemma AllAssigned(zones: map<Id, Zone>, before: map<Id, Club>, clubs: map<Id, Club>, order: seq<Id>,
                    slugify: string -> string)
    requires AssignedUpTo(zones, before, clubs, order, |order|, slugify)
    ensures AllSettled(zones, clubs, slugify)
  {
    hide ClubIsSettled;
  }

  /** What the loop keeps about slugs, for tables in which they are unique to begin with. */
  ghost predicate SlugsAreRight(before: map<Id, Club>, clubs: map<Id, Club>, taken: set<string>) {
    UniqueSlugs(before) && "" !in before ==> UniqueSlugs(clubs) && TakenIsRight(clubs, taken)
  }

  /** What an iteration keeps, and why it stops the loop. */
  lemma SlugsAfterOne(clubs: map<Id, Club>, id: Id, byName: map<string, Id>, taken: set<string>,
                      slugify: string -> string)
    requires UniqueSlugs(clubs) && TakenIsRight(clubs, taken) && id in clubs && id != ""
    ensures var was := clubs[id];
            var c := AssignedClub(id, was, byName, taken, slugify);
            if c == was || forall d | d in clubs && d != id :: clubs[d].slug != c.slug then
              && UniqueSlugs(clubs[id := c])
              && TakenIsRight(clubs[id := c], taken + if IsGiven(was.slug) then {} else {c.slug.value})
            else HasNoFreeSlug(clubs, id, slugify)
  {
    RefusedIffNoFreeSlug(clubs, id, byName, taken, slugify);
    var was := clubs[id];
    var c := AssignedClub(id, was, byName, taken, slugify);
    hide HasNoFreeSlug;
    if c == was || forall d | d in clubs && d != id :: clubs[d].slug != c.slug {
      AssignedKeepsSlugs(clubs, id, c, taken);
      if IsGiven(was.slug) { SlugIsTaken(clubs, id, taken); }
    }
  }

  lemma SlugsStayRight(before: map<Id, Club>, clubs: map<Id, Club>, clubs': map<Id, Club>, id: Id,
                       byName: map<string, Id>, taken: set<string>, taken': set<string>, ok: bool,
                       slugify: string -> string)
    requires SlugsAreRight(before, clubs, taken) && clubs.Keys == before.Keys && id in clubs
    requires var c := AssignedClub(id, clubs[id], byName, taken, slugify);
             && ok == (c == clubs[id] || forall d | d in clubs && d != id :: clubs[d].slug != c.slug)
             && clubs' == (if ok then clubs[id := c] else clubs)
             && taken' == taken + if IsGiven(clubs[id].slug) then {} else {c.slug.value}
    ensures ok ==> SlugsAreRight(before, clubs', taken')
    ensures UniqueSlugs(before) && "" !in before ==>
              UniqueSlugs(clubs') && (!ok ==> HasNoFreeSlug(clubs', id, slugify))
  {
    hide UniqueSlugs, TakenIsRight, HasNoFreeSlug;
    if UniqueSlugs(before) && "" !in before { SlugsAfterOne(clubs, id, byName, taken, slugify); }
  }

  lemma SlugIsTaken(clubs: map<Id, Club>, id: Id, taken: set<string>)
    requires TakenIsRight(clubs, taken) && id in clubs && IsGiven(clubs[id].slug)
    ensures taken + {clubs[id].slug.value} == taken + {}
  {
    assert HasSlug(clubs, clubs[id].slug.value);
  }

  /** A settled club has its slug, so none is missing. */
  lemma SettledLacksNoSlug(zones: map<Id, Zone>, clubs: map<Id, Club>, slugify: string -> string)
    requires AllSettled(zones, clubs, slugify) && "" !in clubs
    ensures forall c | c in clubs :: !HasNoFreeSlug(clubs, c, slugify)
  {
    hide ZoneIdIsRight;
    forall c | c in clubs ensures !HasNoFreeSlug(clubs, c, slugify) {
      assert ClubIsSettled(zones, c, clubs[c], slugify) && |ToLower(c)| == |c|;
    }
  }

  lemma TakenAtStart(clubs: map<Id, Club>, taken: set<string>)
    requires taken == set c | c in clubs && IsGiven(clubs[c].slug) :: SlugText(clubs[c])
    ensures TakenIsRight(clubs, taken)
  {
    forall s ensures s in taken <==> s != "" && HasSlug(clubs, s) {
      if s != "" && HasSlug(clubs, s) {
        var c :| c in clubs && clubs[c].slug == Some(s);
        assert SlugText(clubs[c]) == s;
      }
    }
  }

  method AssignClubs(db: ZoneStore, clubOrder: seq<Id>, slugify: string -> string) returns (ok: bool)
    requires UniqueNames(db.zones) && IsListing(clubOrder, db.clubs.Keys)
    modifies db`clubs
    ensures db.clubs.Keys == old(db.clubs).Keys
    ensures forall c | c in db.clubs :: SameTexts(old(db.clubs)[c], db.clubs[c])
    ensures ok ==> AllSettled(db.zones, db.clubs, slugify)
    ensures UniqueSlugs(old(db.clubs)) && "" !in db.clubs ==>
              && UniqueSlugs(db.clubs)
              && (ok <==> forall c | c in db.clubs :: !HasNoFreeSlug(db.clubs, c, slugify))
    ensures AllSettled(db.zones, old(db.clubs), slugify) ==> ok && db.clubs == old(db.clubs)
  {
    hide ClubIsSettled, IdsByName, SameTexts, IsGiven, UniqueSlugs, HasNoFreeSlug, AssignedClub;
    ghost var before := db.clubs;
    var byName := IdsByName(db.zones);
    var taken := set c | c in db.clubs && IsGiven(db.clubs[c].slug) :: SlugText(db.clubs[c]);
    ok := true;
    NothingAssigned(db.zones, before, clubOrder, slugify);
    NoEmptySlugs(db.clubs);
    TakenAtStart(db.clubs, taken);
    assert SlugsAreRight(before, before, taken);
    hide AssignedUpTo, UniqueNames, SlugsAreRight, TakenIsRight;
    forall i | 0 <= i < |clubOrder|
      ensures AllSettled(db.zones, before, slugify) ==>
                ClubIsSettled(db.zones, clubOrder[i], before[clubOrder[i]], slugify)
      ensures "" in clubOrder[..i] ==> clubOrder[i] != ""
    {
      ListedOnce(clubOrder, i);
    }
    hide AllSettled, NoDuplicates;
    for i := 0 to |clubOrder|
      invariant ok && db.clubs.Keys == before.Keys
      invariant AssignedUpTo(db.zones, before, db.clubs, clubOrder, i, slugify)
      invariant SlugsAreRight(before, db.clubs, taken)
      invariant AllSettled(db.zones, before, slugify) ==> db.clubs == before && ("" in taken ==> "" in clubOrder[..i])
    {
      var id := clubOrder[i];
      ghost var clubs := db.clubs;
      assert clubOrder[..i + 1] == clubOrder[..i] + [id];
      ghost var takenBefore := taken;
      ok, taken := AssignClub(db, id, byName, taken, slugify);
      SlugsStayRight(before, clubs, db.clubs, id, byName, takenBefore, taken, ok, slugify);
      if !ok {
        TextsSoFar(db.zones, before, clubs, clubOrder, i, slugify);
        return;
      }
      AssignedOneMore(db.zones, before, clubs, db.clubs, clubOrder, i, slugify);
    }
    TextsSoFar(db.zones, before, db.clubs, clubOrder, |clubOrder|, slugify);
    AllAssigned(db.zones, before, db.clubs, clubOrder, slugify);
    if "" !in before { SettledLacksNoSlug(db.zones, db.clubs, slugify); }
  }

  function SlugText(c: Club): string {
    if c.slug.Some? then c.slug.value else ""
  }

  lemma NoEmptySlugs(clubs: map<Id, Club>)
    ensures "" !in (set c | c in clubs && IsGiven(clubs[c].slug) :: SlugText(clubs[c]))
  {
  }

  lemma ListedOnce(order: seq<Id>, i: nat)
    requires i < |order| && NoDuplicates(order)
    ensures order[i] !in order[..i]
  {
  }

  lemma NothingAssigned(zones: map<Id, Zone>, before: map<Id, Club>, order: seq<Id>, slugify: string -> string)
    requires IsListing(order, before.Keys)
    ensures AssignedUpTo(zones, before, before, order, 0, slugify)
  {
    hide ClubIsSettled;
  }

  /** The whole seed. `merged` says whether the merge transaction went through or was skipped; `texts` is
      the database's listing of the distinct zone texts of the clubs. */
  method SeedZonesFromClubs(db: ZoneStore, merged: bool, zoneOrder: seq<Id>, texts: seq<string>, clubOrder: seq<Id>,
                            cuids: seq<Id>, slugify: string -> string) returns (ok: bool)
    requires Valid(db.Rows()) && IsListing(zoneOrder, db.zones.Keys) && IsListing(clubOrder, db.clubs.Keys)
    requires NoDuplicates(cuids) && |cuids| >= |SeedNames(texts)| && forall id | id in cuids :: id !in db.zones
    modifies db
    ensures ok && (merged || NoAliases(old(db.zones))) ==> Settled(db.Rows(), texts, slugify)
    ensures UniqueSlugs(old(db.clubs)) && "" !in old(db.clubs) ==>
              && UniqueSlugs(db.clubs)
              && (ok <==> forall c | c in db.clubs :: !HasNoFreeSlug(db.clubs, c, slugify))
    ensures Settled(old(db.Rows()), texts, slugify) ==> ok && db.Rows() == old(db.Rows())
  {
    hide CanonicalZoneName, IsQuotient, SeedNames, ZonesAreSeeded, ZoneIdIsRight, SlugIsSettled, HasNoFreeSlug;
    hide UniqueSlugs;
    if merged {
      var outcome, f := db.MergeAliasZonesInTx(zoneOrder);
      MergedHasNoAliases(old(db.Rows()), db.Rows(), f);
      MergedHasSameSlugs(old(db.Rows()), db.Rows(), f);
    }
    assert merged || NoAliases(old(db.zones)) ==> NoAliases(db.zones);
    UpsertZones(db, texts, cuids);
    ok := AssignClubs(db, clubOrder, slugify);
  }

  lemma MergedHasSameSlugs(t0: Tables, t: Tables, f: map<Id, Id>)
    requires IsQuotient(t0, t, f)
    ensures t.clubs.Keys == t0.clubs.Keys && (UniqueSlugs(t0.clubs) ==> UniqueSlugs(t.clubs))
  {
    hide CanonicalZoneName;
    assert forall c | c in t.clubs :: t.clubs[c].slug == t0.clubs[c].slug;
  }

  lemma MergedHasNoAliases(t0: Tables, t: Tables, f: map<Id, Id>)
    requires IsQuotient(t0, t, f)
    ensures NoAliases(t.zones) && UniqueNames(t.zones) && t.zones.Keys <= t0.zones.Keys && t.clubs.Keys == t0.clubs.Keys
  {
    hide CanonicalZoneName;
    forall z | z in t.zones ensures !IsAlias(t.zones[z].name) {
      assert f[z] == z;
      CanonicalIsIdempotent(t0.zones[z].name);
    }
  }

  /** In the settled state every club whose zone text is among the texts, and does not trim to nothing, is in
      the row of its canonical zone; that row exists once, because the seed made it. */
  lemma SettledClubsHaveZones(t: Tables, texts: seq<string>, slugify: string -> string, c: Id)
    requires Settled(t, texts, slugify) && c in t.clubs && IsGiven(t.clubs[c].zone)
    requires t.clubs[c].zone.value in texts && CanonicalZoneName(t.clubs[c].zone.value) != ""
    ensures t.clubs[c].zoneId.Some? && t.clubs[c].zoneId.value in t.zones
    ensures t.zones[t.clubs[c].zoneId.value].name == CanonicalZoneName(t.clubs[c].zone.value)
  {
    hide CanonicalZoneName, SlugIsSettled, SeedNames, OrderOf, UniqueNames, NoAliases;
    var name := CanonicalZoneName(t.clubs[c].zone.value);
    assert name in SeedNames(texts);
    var i :| 0 <= i < |SeedNames(texts)| && SeedNames(texts)[i] == name;
    assert ZoneIsSeeded(t.zones, name, OrderOf(name, i));
    var z :| z in t.zones && t.zones[z] == Zone(name, OrderOf(name, i));
    assert ClubIsSettled(t.zones, c, t.clubs[c], slugify);
  }
}
