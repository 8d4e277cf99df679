/** What the zone alias merge must achieve, as relations between the tables before and after, and the lemmas that
    carry them through one iteration of the loop. */
module ZoneQuotient {
  import opened Sets
  import opened Text
  import opened ZoneNames
  import opened ZoneTables

  /** A map on zone ids, read as the identity on ids that are not zones: scope ids and audience ids
      have no foreign key, so they may name no zone at all. */
  function Image(f: map<Id, Id>, z: Id): Id {
    if z in f then f[z] else z
  }

  function GrantImage(f: map<Id, Id>, g: Grant): Grant {
    if g.scopeType.ZoneScope? && g.scopeId.Some? then g.(scopeId := Some(Image(f, g.scopeId.value))) else g
  }

  function JsonImage(f: map<Id, Id>, e: Json): Json {
    if e.Str? then Str(Image(f, e.text)) else e
  }

  /** Every club is kept, with its zone replaced by the image and nothing else changed. */
  ghost predicate ClubsAreImage(c0: map<Id, Club>, c1: map<Id, Club>, f: map<Id, Id>) {
    && c1.Keys == c0.Keys
    && forall c | c in c0 ::
         c1[c] == if c0[c].zoneId.Some? then c0[c].(zoneId := Some(Image(f, c0[c].zoneId.value))) else c0[c]
  }

  /** The grants held afterwards are exactly the images of the grants held before; a row is deleted only
      when another row holds its image, and rows outside zone scope all stay. */
  ghost predicate RolesAreImage(r0: map<Id, Grant>, r1: map<Id, Grant>, f: map<Id, Id>) {
    && (forall a | a in r1 :: a in r0 && r1[a] == GrantImage(f, r0[a]))
    && (forall a | a in r0 :: HasGrant(r1, GrantImage(f, r0[a])))
    && (forall a | a in r0 && !r0[a].scopeType.ZoneScope? :: a in r1)
    && UniqueGrants(r1)
  }

  ghost predicate HasGrant(roles: map<Id, Grant>, g: Grant) {
    exists b :: b in roles && roles[b] == g
  }

  /** The zone ids of an announcement become their image as a set; a rewritten array has no duplicates. */
  ghost predicate AudienceIsImage(a0: Audience, a1: Audience, f: map<Id, Id>) {
    && a1.ZoneArray? == a0.ZoneArray?
    && (a0.ZoneArray? ==>
          && Elements(a1.zoneIds) == JsonImages(f, Elements(a0.zoneIds))
          && (a1 == a0 || NoDuplicates(a1.zoneIds)))
  }

  function Elements(ids: seq<Json>): set<Json> {
    set e | e in ids
  }

  ghost predicate AudiencesAreImage(m0: map<Id, Audience>, m1: map<Id, Audience>, f: map<Id, Id>) {
    m1.Keys == m0.Keys && forall a | a in m0 :: AudienceIsImage(m0[a], m1[a], f)
  }

  ghost predicate TablesAreImage(t0: Tables, t: Tables, f: map<Id, Id>) {
    && ClubsAreImage(t0.clubs, t.clubs, f)
    && RolesAreImage(t0.roles, t.roles, f)
    && AudiencesAreImage(t0.audiences, t.audiences, f)
  }

  /** `f` sends each old zone row to a surviving row, surviving rows stay put and keep their order
      number, and no two surviving rows share a name. */
  ghost predicate Retracts(z0: map<Id, Zone>, z: map<Id, Zone>, f: map<Id, Id>) {
    && f.Keys == z0.Keys && z.Keys <= z0.Keys
    && (forall a | a in z0 :: f[a] in z)
    && (forall s | s in z :: f[s] == s && z[s].order == z0[s].order)
    && UniqueNames(z)
  }

  /** The quotient theorem: `f` identifies two rows exactly when their canonical names agree, the
      surviving row carries that name, and every reference to a zone is moved along `f`. */
  ghost predicate IsQuotient(t0: Tables, t: Tables, f: map<Id, Id>) {
    && Retracts(t0.zones, t.zones, f)
    && (forall a | a in t0.zones :: t.zones[f[a]].name == CanonicalZoneName(t0.zones[a].name))
    && (forall a, b | a in t0.zones && b in t0.zones ::
          f[a] == f[b] <==> CanonicalZoneName(t0.zones[a].name) == CanonicalZoneName(t0.zones[b].name))
    && TablesAreImage(t0, t, f)
    && Valid(t)
  }

  predicate IsAlias(name: string) {
    CanonicalZoneName(name) != name
  }

  /** The name that the row of `a` ought to have once the rows in `done` have been visited. */
  function NameSoFar(z0: map<Id, Zone>, done: set<Id>, a: Id): string
    requires a in z0
  {
    if a in done then CanonicalZoneName(z0[a].name) else z0[a].name
  }

  /** Where old row `a` stands between two iterations: the row it was merged into has the name that is
      due, and an alias that has not been visited is still a row of its own. */
  ghost predicate StandsAt(z0: map<Id, Zone>, z: map<Id, Zone>, done: set<Id>, f: map<Id, Id>, a: Id)
    requires a in z0
  {
    && a in f && f[a] in z
    && z[f[a]].name == NameSoFar(z0, done, a)
    && (a !in done && IsAlias(z0[a].name) ==> f[a] == a)
  }

  ghost predicate Survives(z0: map<Id, Zone>, z: map<Id, Zone>, f: map<Id, Id>, s: Id)
    requires s in z
  {
    s in z0 && s in f && f[s] == s && z[s].order == z0[s].order
  }

  ghost predicate ZonesSoFar(z0: map<Id, Zone>, z: map<Id, Zone>, done: set<Id>, f: map<Id, Id>) {
    && f.Keys == z0.Keys
    && (forall a {:trigger StandsAt(z0, z, done, f, a)} | a in z0 :: StandsAt(z0, z, done, f, a))
    && (forall s {:trigger Survives(z0, z, f, s)} | s in z :: Survives(z0, z, f, s))
    && UniqueNames(z)
  }

  /** What holds between two iterations about zones and references. */
  ghost predicate MergedSoFar(t0: Tables, t: Tables, done: set<Id>, f: map<Id, Id>) {
    && ZonesSoFar(t0.zones, t.zones, done, f)
    && TablesAreImage(t0, t, f)
  }

  lemma RedirectClubsCounts(clubs: map<Id, Club>, from: Id, to: Id, z: Id)
    requires from != to
    ensures ClubsIn(RedirectClubs(clubs, from, to), z)
         == if z == from then {} else if z == to then ClubsIn(clubs, to) + ClubsIn(clubs, from) else ClubsIn(clubs, z)
  {
  }

  function Compose(f: map<Id, Id>, from: Id, to: Id): map<Id, Id> {
    map a | a in f :: if f[a] == from then to else f[a]
  }

  /** Moving `from` to `to` after `f` is moving along the composition. */
  lemma GrantImageOfCompose(f: map<Id, Id>, from: Id, to: Id, g: Grant)
    requires from in f && f[from] == from
    ensures GrantImage(Compose(f, from, to), g) == RedirectGrant(GrantImage(f, g), from, to)
  {
  }

  lemma JsonImageOfCompose(f: map<Id, Id>, from: Id, to: Id, e: Json)
    requires from in f && f[from] == from
    ensures JsonImage(Compose(f, from, to), e) == RedirectJson(JsonImage(f, e), from, to)
  {
  }

  /** The delete that precedes the update is exactly what the unique key needs. */
  lemma RedirectRolesStaysUnique(r: map<Id, Grant>, from: Id, to: Id)
    requires UniqueGrants(r) && from != to
    ensures UniqueGrants(RedirectRoles(DropClashing(r, from, to), from, to))
  {
    var r' := RedirectRoles(DropClashing(r, from, to), from, to);
    forall a, b | a in r' && b in r' && r'[a] == r'[b] && r'[a].scopeId.Some? ensures a == b {
      assert !Clashes(r, a, from, to) && !Clashes(r, b, from, to);
    }
  }

  lemma RedirectedGrantIsHeld(r: map<Id, Grant>, from: Id, to: Id, g: Grant)
    requires HasGrant(r, g) && from != to
    ensures HasGrant(RedirectRoles(DropClashing(r, from, to), from, to), RedirectGrant(g, from, to))
  {
    hide UniqueGrants;
    var r' := RedirectRoles(DropClashing(r, from, to), from, to);
    var b :| b in r && r[b] == g;
    if Clashes(r, b, from, to) {
      var b' :| b' in r && r[b'] == RedirectGrant(r[b], from, to);
      assert !Clashes(r, b', from, to);
      assert r'[b'] == RedirectGrant(g, from, to);
    } else {
      assert r'[b] == RedirectGrant(g, from, to);
    }
  }

  lemma RedirectRolesKeepsImage(r0: map<Id, Grant>, r: map<Id, Grant>, f: map<Id, Id>, from: Id, to: Id)
    requires RolesAreImage(r0, r, f) && from in f && f[from] == from && from != to
    ensures RolesAreImage(r0, RedirectRoles(DropClashing(r, from, to), from, to), Compose(f, from, to))
  {
    hide UniqueGrants, HasGrant, Image, Compose;
    RedirectRolesStaysUnique(r, from, to);
    forall a | a in r0
      ensures GrantImage(Compose(f, from, to), r0[a]) == RedirectGrant(GrantImage(f, r0[a]), from, to)
    {
      GrantImageOfCompose(f, from, to, r0[a]);
    }
    forall a | a in r0
      ensures HasGrant(RedirectRoles(DropClashing(r, from, to), from, to), GrantImage(Compose(f, from, to), r0[a]))
    {
      RedirectedGrantIsHeld(r, from, to, GrantImage(f, r0[a]));
    }
  }

  /** What a rewritten array holds; an array without `from` is left as it is. */
  lemma RedirectedIds(a: Audience, from: Id, to: Id)
    requires a.ZoneArray?
    ensures Elements(RedirectAudience(a, from, to).zoneIds)
         == set e | e in Elements(a.zoneIds) :: RedirectJson(e, from, to)
  {
    if Str(from) !in a.zoneIds {
      assert forall e :: e in a.zoneIds ==> RedirectJson(e, from, to) == e;
    }
  }

  function JsonImages(f: map<Id, Id>, s: set<Json>): set<Json> {
    set e | e in s :: JsonImage(f, e)
  }

  lemma JsonImagesOfCompose(f: map<Id, Id>, from: Id, to: Id, s: set<Json>)
    requires from in f && f[from] == from
    ensures JsonImages(Compose(f, from, to), s) == set e | e in JsonImages(f, s) :: RedirectJson(e, from, to)
  {
    hide Image, Compose, JsonImage, RedirectJson;
    var f' := Compose(f, from, to);
    forall e | e in s
      ensures JsonImage(f', e) in (set x | x in JsonImages(f, s) :: RedirectJson(x, from, to))
      ensures RedirectJson(JsonImage(f, e), from, to) in JsonImages(f', s)
    {
      JsonImageOfCompose(f, from, to, e);
    }
  }

  lemma RedirectAudienceKeepsImage(a0: Audience, a: Audience, f: map<Id, Id>, from: Id, to: Id)
    requires AudienceIsImage(a0, a, f) && from in f && f[from] == from
    ensures AudienceIsImage(a0, RedirectAudience(a, from, to), Compose(f, from, to))
  {
    if a0.ZoneArray? {
      hide Compose, NoDuplicates, JsonImages, Elements;
      RedirectedIds(a, from, to);
      JsonImagesOfCompose(f, from, to, Elements(a0.zoneIds));
    }
  }

  lemma RedirectKeepsImage(t0: Tables, t: Tables, f: map<Id, Id>, from: Id, to: Id)
    requires TablesAreImage(t0, t, f) && from in f && f[from] == from && from != to
    ensures ClubsAreImage(t0.clubs, RedirectClubs(t.clubs, from, to), Compose(f, from, to))
    ensures RolesAreImage(t0.roles, RedirectRoles(DropClashing(t.roles, from, to), from, to), Compose(f, from, to))
    ensures AudiencesAreImage(t0.audiences, RedirectAudiences(t.audiences, from, to), Compose(f, from, to))
  {
    RedirectRolesKeepsImage(t0.roles, t.roles, f, from, to);
    forall a | a in t0.audiences
      ensures AudienceIsImage(t0.audiences[a], RedirectAudience(t.audiences[a], from, to), Compose(f, from, to))
    {
      RedirectAudienceKeepsImage(t0.audiences[a], t.audiences[a], f, from, to);
    }
  }

  /** A visited row whose name is already canonical. */
  lemma SkipKeepsZones(z0: map<Id, Zone>, z: map<Id, Zone>, done: set<Id>, f: map<Id, Id>, alias: Id)
    requires ZonesSoFar(z0, z, done, f) && alias in z0 && !IsAlias(z0[alias].name)
    ensures ZonesSoFar(z0, z, done + {alias}, f)
  {
    hide CanonicalZoneName;
    forall a | a in z0 ensures StandsAt(z0, z, done + {alias}, f, a) {
      assert StandsAt(z0, z, done, f, a);
    }
  }

  /** Old rows that now stand at an unvisited alias: that alias and nothing else. */
  lemma OnlyAliasAtAlias(z0: map<Id, Zone>, z: map<Id, Zone>, done: set<Id>, f: map<Id, Id>, alias: Id, a: Id)
    requires UniqueNames(z0) && ZonesSoFar(z0, z, done, f)
    requires alias in z0 && alias !in done && IsAlias(z0[alias].name)
    requires a in z0 && a in f && f[a] == alias
    ensures a == alias
  {
    hide CanonicalZoneName;
    assert StandsAt(z0, z, done, f, a) && StandsAt(z0, z, done, f, alias);
    CanonicalIsIdempotent(z0[a].name);
  }

  lemma RenamedRowStandsAt(z0: map<Id, Zone>, z: map<Id, Zone>, done: set<Id>, f: map<Id, Id>, alias: Id, a: Id)
    requires alias in z0 && alias in z && a in z0 && StandsAt(z0, z, done, f, a) && (f[a] == alias ==> a == alias)
    requires f[alias := alias] == f
    ensures StandsAt(z0, z[alias := z[alias].(name := CanonicalZoneName(z0[alias].name))], done + {alias}, f, a)
  {
    hide CanonicalZoneName;
  }

  lemma RenameKeepsUniqueNames(z: map<Id, Zone>, alias: Id, name: string)
    requires UniqueNames(z) && alias in z && forall s | s in z :: z[s].name != name
    ensures UniqueNames(z[alias := z[alias].(name := name)])
  {
  }

  lemma RenamedRowsSurvive(z0: map<Id, Zone>, z: map<Id, Zone>, f: map<Id, Id>, alias: Id, name: string)
    requires (forall s {:trigger Survives(z0, z, f, s)} | s in z :: Survives(z0, z, f, s)) && alias in z
    ensures var z' := z[alias := z[alias].(name := name)];
            forall s {:trigger Survives(z0, z', f, s)} | s in z' :: Survives(z0, z', f, s)
  {
    var z' := z[alias := z[alias].(name := name)];
    forall s | s in z' ensures Survives(z0, z', f, s) {
      assert Survives(z0, z, f, s);
    }
  }

  /** Visiting an alias whose canonical name nobody has yet. */
  lemma RenameKeepsZones(z0: map<Id, Zone>, z: map<Id, Zone>, done: set<Id>, f: map<Id, Id>, alias: Id)
    requires UniqueNames(z0) && ZonesSoFar(z0, z, done, f)
    requires alias in z0 && alias !in done && IsAlias(z0[alias].name)
    requires forall s | s in z :: z[s].name != CanonicalZoneName(z0[alias].name)
    ensures alias in z
    ensures ZonesSoFar(z0, z[alias := z[alias].(name := CanonicalZoneName(z0[alias].name))], done + {alias}, f)
  {
    hide CanonicalZoneName;
    assert StandsAt(z0, z, done, f, alias);
    var name := CanonicalZoneName(z0[alias].name);
    RenameKeepsUniqueNames(z, alias, name);
    RenamedRowsSurvive(z0, z, f, alias, name);
    hide UniqueNames;
    forall a | a in z0 ensures StandsAt(z0, z[alias := z[alias].(name := name)], done + {alias}, f, a) {
      assert StandsAt(z0, z, done, f, a);
      if f[a] == alias { OnlyAliasAtAlias(z0, z, done, f, alias, a); }
      RenamedRowStandsAt(z0, z, done, f, alias, a);
    }
  }

  lemma MergeKeepsUniqueNames(z: map<Id, Zone>, drop: Id, keep: Id, name: string)
    requires UniqueNames(z) && drop in z && keep in z && drop != keep
    requires z[drop].name == name || z[keep].name == name
    ensures UniqueNames((z - {drop})[keep := z[keep].(name := name)])
  {
  }

  lemma MergedRowsSurvive(z0: map<Id, Zone>, z: map<Id, Zone>, f: map<Id, Id>, drop: Id, keep: Id, name: string)
    requires (forall s {:trigger Survives(z0, z, f, s)} | s in z :: Survives(z0, z, f, s))
    requires drop in z && keep in z && drop != keep
    ensures var z' := (z - {drop})[keep := z[keep].(name := name)];
            forall s {:trigger Survives(z0, z', Compose(f, drop, keep), s)} | s in z' ::
              Survives(z0, z', Compose(f, drop, keep), s)
  {
    var z' := (z - {drop})[keep := z[keep].(name := name)];
    forall s | s in z' ensures Survives(z0, z', Compose(f, drop, keep), s) {
      assert Survives(z0, z, f, s);
    }
  }

  lemma MergedRowStandsAt(z0: map<Id, Zone>, z: map<Id, Zone>, done: set<Id>, f: map<Id, Id>, alias: Id,
                          existing: Id, drop: Id, keep: Id, a: Id)
    requires alias in z0 && alias !in done && IsAlias(z0[alias].name)
    requires StandsAt(z0, z, done, f, alias) && a in z0 && StandsAt(z0, z, done, f, a) && (f[a] == alias ==> a == alias)
    requires existing in z && z[existing].name == CanonicalZoneName(z0[alias].name) && !IsAlias(z[existing].name)
    requires (drop == alias && keep == existing) || (drop == existing && keep == alias)
    ensures StandsAt(z0, (z - {drop})[keep := z[keep].(name := CanonicalZoneName(z0[alias].name))],
                     done + {alias}, Compose(f, drop, keep), a)
  {
    hide CanonicalZoneName;
  }

  /** Visiting an alias while the row `existing` has its canonical name: merging the two, whichever of
      them is kept. */
  lemma MergeKeepsZones(z0: map<Id, Zone>, z: map<Id, Zone>, done: set<Id>, f: map<Id, Id>, alias: Id,
                        existing: Id, drop: Id, keep: Id)
    requires UniqueNames(z0) && ZonesSoFar(z0, z, done, f)
    requires alias in z0 && alias !in done && IsAlias(z0[alias].name)
    requires existing in z && z[existing].name == CanonicalZoneName(z0[alias].name)
    requires (drop == alias && keep == existing) || (drop == existing && keep == alias)
    ensures drop != keep && drop in f && f[drop] == drop && keep in z
    ensures ZonesSoFar(z0, (z - {drop})[keep := z[keep].(name := CanonicalZoneName(z0[alias].name))],
                       done + {alias}, Compose(f, drop, keep))
  {
    hide CanonicalZoneName;
    CanonicalIsIdempotent(z0[alias].name);
    assert StandsAt(z0, z, done, f, alias) && Survives(z0, z, f, existing);
    var z' := (z - {drop})[keep := z[keep].(name := CanonicalZoneName(z0[alias].name))];
    var f' := Compose(f, drop, keep);
    MergeKeepsUniqueNames(z, drop, keep, CanonicalZoneName(z0[alias].name));
    hide UniqueNames;
    forall a | a in z0 ensures StandsAt(z0, z', done + {alias}, f', a) {
      assert StandsAt(z0, z, done, f, a);
      if f[a] == alias { OnlyAliasAtAlias(z0, z, done, f, alias, a); }
      MergedRowStandsAt(z0, z, done, f, alias, existing, drop, keep, a);
    }
    MergedRowsSurvive(z0, z, f, drop, keep, CanonicalZoneName(z0[alias].name));
  }

  /** Once every row has been visited, the loop's relation is the quotient. */
  lemma MergedIsQuotient(t0: Tables, t: Tables, f: map<Id, Id>)
    requires Valid(t0) && MergedSoFar(t0, t, t0.zones.Keys, f)
    ensures IsQuotient(t0, t, f)
  {
    hide CanonicalZoneName, ClubsAreImage, RolesAreImage, AudiencesAreImage, UniqueGrants;
    GrantsStayUnique(t0, t, f);
    RowsRetract(t0.zones, t.zones, f);
    SameRowIffSameName(t0.zones, t.zones, f);
    ReferencesStayRight(t0, t, f);
    hide UniqueNames, ZonesSoFar, ZoneRefsExist;
  }

  lemma RowsRetract(z0: map<Id, Zone>, z: map<Id, Zone>, f: map<Id, Id>)
    requires ZonesSoFar(z0, z, z0.Keys, f)
    ensures Retracts(z0, z, f)
    ensures forall a | a in z0 :: z[f[a]].name == CanonicalZoneName(z0[a].name)
  {
    hide CanonicalZoneName, UniqueNames;
    forall a | a in z0 ensures f[a] in z && z[f[a]].name == CanonicalZoneName(z0[a].name) {
      assert StandsAt(z0, z, z0.Keys, f, a);
    }
    forall s | s in z ensures s in z0 && f[s] == s && z[s].order == z0[s].order {
      assert Survives(z0, z, f, s);
    }
  }

  lemma SameRowIffSameName(z0: map<Id, Zone>, z: map<Id, Zone>, f: map<Id, Id>)
    requires UniqueNames(z) && f.Keys == z0.Keys
    requires forall a | a in z0 :: f[a] in z && z[f[a]].name == CanonicalZoneName(z0[a].name)
    ensures forall a, b | a in z0 && b in z0 ::
              f[a] == f[b] <==> CanonicalZoneName(z0[a].name) == CanonicalZoneName(z0[b].name)
  {
    hide CanonicalZoneName;
  }

  lemma ReferencesStayRight(t0: Tables, t: Tables, f: map<Id, Id>)
    requires ZoneRefsExist(t0) && ClubsAreImage(t0.clubs, t.clubs, f)
    requires f.Keys == t0.zones.Keys && forall a | a in t0.zones :: f[a] in t.zones
    ensures ZoneRefsExist(t)
  {
    forall c | c in t.clubs && t.clubs[c].zoneId.Some? ensures t.clubs[c].zoneId.value in t.zones {
      assert t0.clubs[c].zoneId.Some?;
    }
  }

  lemma GrantsStayUnique(t0: Tables, t: Tables, f: map<Id, Id>)
    requires TablesAreImage(t0, t, f)
    ensures UniqueGrants(t.roles)
  {
  }
}
