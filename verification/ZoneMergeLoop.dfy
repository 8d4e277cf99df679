/** The merge loop of `prisma/seed/zones.ts`, over a database whose statements enforce the constraints. */
module ZoneMergeLoop {
  import opened Sets
  import opened Text
  import opened ZoneNames
  import opened ZoneTables
  import opened ZoneQuotient

  /** A row of the snapshot, with the club count that was read with it. */
  datatype Snap = Snap(id: Id, name: string, clubs: nat)

  datatype Outcome = Committed | Aborted

  function Pow2(n: nat): nat {
    if n == 0 then 1 else 2 * Pow2(n - 1)
  }

  // ---- the cost of a merge: how often each club's zone id has been rewritten

  /** A club that has been rewritten n times sits in a zone of at least 2^n clubs. */
  ghost predicate MovesArePaidFor(clubs: map<Id, Club>, moves: map<Id, nat>) {
    && moves.Keys == clubs.Keys
    && forall c | c in clubs ::
         if clubs[c].zoneId.Some? then Pow2(moves[c]) <= |ClubsIn(clubs, clubs[c].zoneId.value)| else moves[c] == 0
  }

  function CountMoves(clubs: map<Id, Club>, moves: map<Id, nat>, from: Id): map<Id, nat>
    requires moves.Keys == clubs.Keys
  {
    map c | c in clubs :: if clubs[c].zoneId == Some(from) then moves[c] + 1 else moves[c]
  }

  lemma RedirectKeepsMovesPaidFor(clubs: map<Id, Club>, moves: map<Id, nat>, from: Id, to: Id)
    requires MovesArePaidFor(clubs, moves) && from != to
    requires |ClubsIn(clubs, from)| <= |ClubsIn(clubs, to)|
    ensures MovesArePaidFor(RedirectClubs(clubs, from, to), CountMoves(clubs, moves, from))
    ensures |ClubsIn(RedirectClubs(clubs, from, to), to)| == |ClubsIn(clubs, from)| + |ClubsIn(clubs, to)|
  {
    var clubs' := RedirectClubs(clubs, from, to);
    RedirectClubsCounts(clubs, from, to, to);
    assert ClubsIn(clubs, from) !! ClubsIn(clubs, to);
    forall c | c in clubs && clubs[c].zoneId.Some?
      ensures Pow2(CountMoves(clubs, moves, from)[c]) <= |ClubsIn(clubs', clubs'[c].zoneId.value)|
    {
      var z := clubs[c].zoneId.value;
      assert Pow2(moves[c]) <= |ClubsIn(clubs, z)|;
      RedirectClubsCounts(clubs, from, to, z);
    }
  }

  lemma NoMovesArePaidFor(clubs: map<Id, Club>)
    ensures MovesArePaidFor(clubs, map c | c in clubs :: 0)
  {
    forall c | c in clubs && clubs[c].zoneId.Some? ensures 1 <= |ClubsIn(clubs, clubs[c].zoneId.value)| {
      assert c in ClubsIn(clubs, clubs[c].zoneId.value);
    }
  }

  /** No club is rewritten more than log2(number of clubs) times. */
  lemma MovesAreLogarithmic(clubs: map<Id, Club>, moves: map<Id, nat>, c: Id)
    requires MovesArePaidFor(clubs, moves) && c in clubs
    ensures Pow2(moves[c]) <= |clubs|
  {
    if clubs[c].zoneId.Some? {
      SubsetIsNoLarger(ClubsIn(clubs, clubs[c].zoneId.value), clubs.Keys);
    } else {
      SubsetIsNoLarger({c}, clubs.Keys);
    }
  }

  // ---- the index by name, which goes stale only at alias names

  ghost predicate IndexMatches(zones: map<Id, Zone>, clubs: map<Id, Club>, byName: map<string, Snap>) {
    && (forall n | n in byName && !IsAlias(n) ::
          && byName[n].id in zones && zones[byName[n].id].name == n && byName[n].name == n
          && byName[n].clubs == |ClubsIn(clubs, byName[n].id)|)
    && (forall s | s in zones && !IsAlias(zones[s].name) :: zones[s].name in byName)
  }

  /** The snapshot's count is still right for every alias that has not been visited. */
  ghost predicate CountsPending(t0: Tables, clubs: map<Id, Club>, done: set<Id>) {
    forall a | a in t0.zones && a !in done && IsAlias(t0.zones[a].name) :: ClubsIn(clubs, a) == ClubsIn(t0.clubs, a)
  }

  /** `new Map(zones.map((z) => [z.name, z]))`. */
  function IndexByName(zones: map<Id, Zone>, clubs: map<Id, Club>): map<string, Snap>
    requires UniqueNames(zones)
  {
    map z | z in zones :: zones[z].name := Snap(z, zones[z].name, |ClubsIn(clubs, z)|)
  }

  lemma FreshIndexMatches(zones: map<Id, Zone>, clubs: map<Id, Club>)
    requires UniqueNames(zones)
    ensures IndexMatches(zones, clubs, IndexByName(zones, clubs))
  {
    hide CanonicalZoneName, ClubsIn;
  }

  lemma IndexAfterRename(zones: map<Id, Zone>, clubs: map<Id, Club>, byName: map<string, Snap>, alias: Snap,
                         name: string)
    requires IndexMatches(zones, clubs, byName) && UniqueNames(zones)
    requires alias.id in zones && zones[alias.id].name == alias.name && IsAlias(alias.name) && !IsAlias(name)
    requires alias.clubs == |ClubsIn(clubs, alias.id)| && name !in byName
    ensures forall s | s in zones :: zones[s].name != name
    ensures IndexMatches(zones[alias.id := zones[alias.id].(name := name)], clubs,
                         (byName - {alias.name})[name := alias.(name := name)])
  {
    hide CanonicalZoneName, ClubsIn;
  }

  lemma IndexAfterMerge(zones: map<Id, Zone>, clubs: map<Id, Club>, byName: map<string, Snap>, alias: Snap,
                        name: string, drop: Snap, keep: Snap)
    requires IndexMatches(zones, clubs, byName) && UniqueNames(zones)
    requires alias.id in zones && zones[alias.id].name == alias.name && IsAlias(alias.name) && !IsAlias(name)
    requires alias.clubs == |ClubsIn(clubs, alias.id)| && name in byName
    requires (drop == alias && keep == byName[name]) || (drop == byName[name] && keep == alias)
    ensures drop.id != keep.id && keep.id in zones
    ensures IndexMatches((zones - {drop.id})[keep.id := zones[keep.id].(name := name)],
                         RedirectClubs(clubs, drop.id, keep.id),
                         (byName - {drop.name})[name := Snap(keep.id, name, alias.clubs + byName[name].clubs)])
  {
    hide CanonicalZoneName, ClubsIn, RedirectClubs;
    var zones' := (zones - {drop.id})[keep.id := zones[keep.id].(name := name)];
    var byName' := (byName - {drop.name})[name := Snap(keep.id, name, alias.clubs + byName[name].clubs)];
    RedirectClubsCounts(clubs, drop.id, keep.id, keep.id);
    ClubsInTwoZones(clubs, keep.id, drop.id);
    forall n | n in byName' && !IsAlias(n) && n != name
      ensures n in byName && byName'[n] == byName[n] && byName[n].id != drop.id && byName[n].id != keep.id
      ensures ClubsIn(RedirectClubs(clubs, drop.id, keep.id), byName[n].id) == ClubsIn(clubs, byName[n].id)
    {
      RedirectClubsCounts(clubs, drop.id, keep.id, byName[n].id);
    }
  }

  lemma ClubsInTwoZones(clubs: map<Id, Club>, a: Id, b: Id)
    requires a != b
    ensures |ClubsIn(clubs, a) + ClubsIn(clubs, b)| == |ClubsIn(clubs, a)| + |ClubsIn(clubs, b)|
  {
    assert ClubsIn(clubs, a) !! ClubsIn(clubs, b);
  }

  /** What holds between two iterations. */
  ghost predicate Between(t0: Tables, t: Tables, byName: map<string, Snap>, done: set<Id>, f: map<Id, Id>,
                          moves: map<Id, nat>) {
    && MergedSoFar(t0, t, done, f)
    && IndexMatches(t.zones, t.clubs, byName)
    && CountsPending(t0, t.clubs, done)
    && MovesArePaidFor(t.clubs, moves)
  }

  ghost predicate IsSnapOf(t: Tables, s: Snap) {
    s.id in t.zones && s.name == t.zones[s.id].name && s.clubs == |ClubsIn(t.clubs, s.id)|
  }

  lemma SkipStep(t0: Tables, t: Tables, byName: map<string, Snap>, done: set<Id>, f: map<Id, Id>, moves: map<Id, nat>,
                 alias: Snap)
    requires Between(t0, t, byName, done, f, moves) && IsSnapOf(t0, alias) && !IsAlias(alias.name)
    ensures Between(t0, t, byName, done + {alias.id}, f, moves)
  {
    hide CanonicalZoneName, ZonesSoFar, TablesAreImage, IndexMatches, MovesArePaidFor;
    SkipKeepsZones(t0.zones, t.zones, done, f, alias.id);
  }

  /** The row of an alias that is about to be visited. */
  lemma AliasIsPending(t0: Tables, t: Tables, byName: map<string, Snap>, done: set<Id>, f: map<Id, Id>,
                       moves: map<Id, nat>, alias: Snap)
    requires Between(t0, t, byName, done, f, moves) && IsSnapOf(t0, alias) && alias.id !in done && IsAlias(alias.name)
    ensures IsSnapOf(t, alias) && !IsAlias(CanonicalZoneName(alias.name)) && UniqueGrants(t.roles)
            && UniqueNames(t.zones)
  {
    hide CanonicalZoneName, IndexMatches, MovesArePaidFor, UniqueGrants, UniqueNames;
    assert StandsAt(t0.zones, t.zones, done, f, alias.id);
    CanonicalIsIdempotent(alias.name);
  }

  lemma RenameStep(t0: Tables, t: Tables, byName: map<string, Snap>, done: set<Id>, f: map<Id, Id>, moves: map<Id, nat>,
                   alias: Snap, name: string)
    requires Between(t0, t, byName, done, f, moves) && IsSnapOf(t0, alias) && alias.id !in done && IsAlias(alias.name)
    requires name == CanonicalZoneName(alias.name) && name !in byName && UniqueNames(t0.zones)
    ensures alias.id in t.zones && NameIsFree(t.zones, alias.id, name)
    ensures Between(t0, t.(zones := t.zones[alias.id := t.zones[alias.id].(name := name)]),
                    (byName - {alias.name})[name := alias.(name := name)], done + {alias.id}, f, moves)
  {
    hide CanonicalZoneName, MovesArePaidFor, ClubsAreImage, RolesAreImage, AudiencesAreImage;
    AliasIsPending(t0, t, byName, done, f, moves, alias);
    IndexAfterRename(t.zones, t.clubs, byName, alias, name);
    RenameKeepsZones(t0.zones, t.zones, done, f, alias.id);
    hide IndexMatches, ZonesSoFar, UniqueNames;
  }

  lemma MergeStep(t0: Tables, t: Tables, byName: map<string, Snap>, done: set<Id>, f: map<Id, Id>, moves: map<Id, nat>,
                  alias: Snap, name: string, drop: Snap, keep: Snap)
    requires Between(t0, t, byName, done, f, moves) && IsSnapOf(t0, alias) && alias.id !in done && IsAlias(alias.name)
    requires name == CanonicalZoneName(alias.name) && name in byName && UniqueNames(t0.zones)
    requires (drop == alias && keep == byName[name]) || (drop == byName[name] && keep == alias)
    requires drop.clubs <= keep.clubs
    ensures drop.id != keep.id && IsSnapOf(t, drop) && IsSnapOf(t, keep) && byName[name].name == name
    ensures moves.Keys == t.clubs.Keys
    ensures Between(t0, MergeRows(t, drop.id, keep.id, name),
                    (byName - {drop.name})[name := Snap(keep.id, name, alias.clubs + byName[name].clubs)],
                    done + {alias.id}, Compose(f, drop.id, keep.id), CountMoves(t.clubs, moves, drop.id))
  {
    hide CanonicalZoneName, ClubsAreImage, RolesAreImage, AudiencesAreImage, ClubsIn, RedirectClubs;
    var existing := byName[name];
    var clubs' := RedirectClubs(t.clubs, drop.id, keep.id);
    AliasIsPending(t0, t, byName, done, f, moves, alias);
    assert IsSnapOf(t, existing) && existing.name == name;
    IndexAfterMerge(t.zones, t.clubs, byName, alias, name, drop, keep);
    MergeKeepsZones(t0.zones, t.zones, done, f, alias.id, existing.id, drop.id, keep.id);
    RedirectKeepsImage(t0, t, f, drop.id, keep.id);
    RedirectKeepsMovesPaidFor(t.clubs, moves, drop.id, keep.id);
    hide IndexMatches, MovesArePaidFor, UniqueNames;
    forall a | a in t0.zones && a !in done + {alias.id} && IsAlias(t0.zones[a].name)
      ensures ClubsIn(clubs', a) == ClubsIn(t0.clubs, a)
    {
      assert StandsAt(t0.zones, t.zones, done, f, a);
      RedirectClubsCounts(t.clubs, drop.id, keep.id, a);
    }
    hide ZonesSoFar;
  }

  /** The unique key lets row `id` take `name`. */
  predicate NameIsFree(zones: map<Id, Zone>, id: Id, name: string) {
    forall z | z in zones :: z != id ==> zones[z].name != name
  }

  lemma RenamingToOwnName(zones: map<Id, Zone>, id: Id, name: string)
    requires id in zones && zones[id].name == name
    ensures zones == zones[id := zones[id].(name := name)]
  {
  }

  lemma NameIsFreeAfterDelete(zones: map<Id, Zone>, drop: Id, id: Id, name: string)
    requires UniqueNames(zones) && drop in zones && zones[drop].name == name
    ensures NameIsFree(zones - {drop}, id, name)
  {
  }

  ghost predicate NoAliases(zones: map<Id, Zone>) {
    forall z | z in zones :: !IsAlias(zones[z].name)
  }

  ghost predicate IsListing(order: seq<Id>, ids: set<Id>) {
    NoDuplicates(order) && ids == set i | i in order
  }

  class ZoneStore {
    var zones: map<Id, Zone>
    var clubs: map<Id, Club>
    var roles: map<Id, Grant>
    var audiences: map<Id, Audience>

    /** How often the statements of the current transaction have rewritten each club's zone id. */
    ghost var rewrites: map<Id, nat>

    ghost function Rows(): Tables
      reads this
    {
      Tables(zones, clubs, roles, audiences)
    }

    /** The unique name is enforced: the update fails rather than make two rows share one. */
    method UpdateZoneName(id: Id, name: string) returns (ok: bool)
      modifies `zones
      ensures ok <==> id in old(zones) && NameIsFree(old(zones), id, name)
      ensures zones == if ok then old(zones)[id := old(zones)[id].(name := name)] else old(zones)
    {
      ok := id in zones && NameIsFree(zones, id, name);
      if ok { zones := zones[id := zones[id].(name := name)]; }
    }

    /** `club.updateMany({ where: { zoneId: from }, data: { zoneId: to } })`. */
    method UpdateClubZone(from: Id, to: Id)
      requires rewrites.Keys == clubs.Keys
      modifies `clubs, `rewrites
      ensures clubs == RedirectClubs(old(clubs), from, to)
      ensures rewrites == CountMoves(old(clubs), old(rewrites), from)
    {
      rewrites := CountMoves(clubs, rewrites, from);
      clubs := RedirectClubs(clubs, from, to);
    }

    /** `clubs.zone_id` is ON DELETE SET NULL. */
    method DeleteZone(id: Id)
      modifies `zones, `clubs
      ensures zones == old(zones) - {id}
      ensures ClubsIn(old(clubs), id) == {} ==> clubs == old(clubs)
      ensures clubs == map c | c in old(clubs) ::
                         if old(clubs)[c].zoneId == Some(id) then old(clubs)[c].(zoneId := None) else old(clubs)[c]
    {
      assert forall c | c in clubs :: clubs[c].zoneId == Some(id) ==> c in ClubsIn(clubs, id);
      zones := zones - {id};
      clubs := map c | c in clubs :: if clubs[c].zoneId == Some(id) then clubs[c].(zoneId := None) else clubs[c];
    }

    /** The unique key on grants is enforced. */
    method UpdateRoleScope(from: Id, to: Id) returns (ok: bool)
      modifies `roles
      ensures ok <==> UniqueGrants(RedirectRoles(old(roles), from, to))
      ensures roles == if ok then RedirectRoles(old(roles), from, to) else old(roles)
    {
      var updated := RedirectRoles(roles, from, to);
      ok := UniqueGrants(updated);
      if ok { roles := updated; }
    }

    method MoveZoneScopedRoles(fromZoneId: Id, toZoneId: Id) returns (dropped: nat, ok: bool)
      requires UniqueGrants(roles) && fromZoneId != toZoneId
      modifies `roles
      ensures ok && UniqueGrants(roles)
      ensures roles == RedirectRoles(DropClashing(old(roles), fromZoneId, toZoneId), fromZoneId, toZoneId)
      ensures dropped + |roles| == |old(roles)|
    {
      ghost var before := roles;
      RedirectRolesStaysUnique(roles, fromZoneId, toZoneId);
      var rest := DropClashing(roles, fromZoneId, toZoneId);
      assert rest.Keys <= roles.Keys;
      SubsetIsNoLarger(rest.Keys, roles.Keys);
      dropped := |roles| - |rest|;
      roles := rest;
      ok := UpdateRoleScope(fromZoneId, toZoneId);
      assert roles.Keys == rest.Keys;
    }

    /** The statements of the branch that finds `canonical` taken. */
    method MergePair(keep: Id, drop: Id, renameKeep: bool, canonical: string) returns (ok: bool)
      requires keep in zones && drop in zones && keep != drop && UniqueGrants(roles) && UniqueNames(zones)
      requires if renameKeep then zones[drop].name == canonical else zones[keep].name == canonical
      requires rewrites.Keys == clubs.Keys
      modifies this
      ensures ok
      ensures Rows() == MergeRows(old(Rows()), drop, keep, canonical)
      ensures rewrites == CountMoves(old(clubs), old(rewrites), drop)
    {
      hide UniqueGrants, DropClashing, RedirectRoles, RedirectAudiences, RedirectClubs, ClubsIn, UniqueNames,
        CountMoves, NameIsFree;
      if renameKeep { NameIsFreeAfterDelete(zones, drop, keep, canonical); }
      UpdateClubZone(drop, keep);
      var dropped, moved := MoveZoneScopedRoles(drop, keep);
      audiences := RedirectAudiences(audiences, drop, keep);
      RedirectClubsCounts(old(clubs), drop, keep, drop);
      var stranded := |ClubsIn(clubs, drop)|;
      ok := moved && stranded == 0;
      assert ok && zones == old(zones);
      if ok {
        DeleteZone(drop);
        assert clubs == RedirectClubs(old(clubs), drop, keep) && zones == old(zones) - {drop};
        if renameKeep {
          ok := UpdateZoneName(keep, canonical);
        } else {
          RenamingToOwnName(zones, keep, canonical);
        }
      }
    }

    /** One iteration of the loop, for the row `alias` of the snapshot. */
    method VisitRow(alias: Snap, byName: map<string, Snap>, ghost t0: Tables, ghost done: set<Id>, ghost f: map<Id, Id>)
      returns (r: Outcome, byName': map<string, Snap>, ghost f': map<Id, Id>)
      requires Valid(t0) && Between(t0, Rows(), byName, done, f, rewrites) && IsSnapOf(t0, alias) && alias.id !in done
      modifies this
      ensures r == Committed && Between(t0, Rows(), byName', done + {alias.id}, f', rewrites)
      ensures !IsAlias(alias.name) ==> Rows() == old(Rows())
    {
      hide CanonicalZoneName, MergeRows, Between, NameIsFree, UniqueGrants, ZoneRefsExist, Compose, CountMoves, ClubsIn;
      r, byName', f' := Committed, byName, f;
      var canonical := CanonicalZoneName(alias.name);
      if canonical == alias.name {
        SkipStep(t0, Rows(), byName, done, f, rewrites, alias);
        return;
      }
      AliasIsPending(t0, Rows(), byName, done, f, rewrites, alias);
      var ok: bool;
      if canonical in byName {
        var existing := byName[canonical];
        var keep, drop := existing, alias;
        if alias.clubs > existing.clubs { keep, drop := alias, existing; }
        MergeStep(t0, Rows(), byName, done, f, rewrites, alias, canonical, drop, keep);
        hide UniqueNames;
        f' := Compose(f, drop.id, keep.id);
        ok := MergePair(keep.id, drop.id, keep.id == alias.id, canonical);
        byName' := (byName - {drop.name})[canonical := Snap(keep.id, canonical, alias.clubs + existing.clubs)];
      } else {
        RenameStep(t0, Rows(), byName, done, f, rewrites, alias, canonical);
        hide UniqueNames;
        ok := UpdateZoneName(alias.id, canonical);
        byName' := (byName - {alias.name})[canonical := alias.(name := canonical)];
      }
      if !ok { r := Aborted; }
    }

    /** The loop. `order` is the order in which the database lists the rows; `f` is the quotient map. */
    method MergeAliasZonesInTx(order: seq<Id>) returns (r: Outcome, ghost f: map<Id, Id>)
      requires Valid(Rows()) && IsListing(order, zones.Keys)
      modifies this
      ensures r == Committed
      ensures IsQuotient(old(Rows()), Rows(), f)
      ensures MovesArePaidFor(clubs, rewrites)
      ensures NoAliases(old(zones)) ==> Rows() == old(Rows())
    {
      hide CanonicalZoneName, IsQuotient, MovesArePaidFor, IndexByName, Between, UniqueNames, UniqueGrants, ClubsIn,
        MergedSoFar;
      ghost var t0 := Rows();
      var snapshot := seq(|order|, i requires 0 <= i < |order| && order[i] in zones reads this =>
                                     Snap(order[i], zones[order[i]].name, |ClubsIn(clubs, order[i])|));
      var byName := IndexByName(zones, clubs);
      f := map z | z in zones :: z;
      rewrites := map c | c in clubs :: 0;
      FirstIteration(t0);
      ghost var done: set<Id> := {};
      r := Committed;
      for i := 0 to |snapshot|
        invariant r == Committed
        invariant done == set j | 0 <= j < i :: order[j]
        invariant Between(t0, Rows(), byName, done, f, rewrites)
        invariant NoAliases(t0.zones) ==> Rows() == t0
      {
        var alias := snapshot[i];
        assert IsSnapOf(t0, alias) && alias.id !in done;
        r, byName, f := VisitRow(alias, byName, t0, done, f);
        if r == Aborted { break; }
        done := done + {alias.id};
      }
      assert done == t0.zones.Keys;
      LastIteration(t0, Rows(), byName, done, f, rewrites);
      MergedIsQuotient(t0, Rows(), f);
    }
  }

  lemma FirstIteration(t: Tables)
    requires Valid(t)
    ensures Between(t, t, IndexByName(t.zones, t.clubs), {}, map z | z in t.zones :: z, map c | c in t.clubs :: 0)
  {
    hide CanonicalZoneName, MergedSoFar, IndexMatches, MovesArePaidFor, IndexByName;
    NothingMergedYet(t, map z | z in t.zones :: z);
    NoMovesArePaidFor(t.clubs);
    FreshIndexMatches(t.zones, t.clubs);
  }

  lemma LastIteration(t0: Tables, t: Tables, byName: map<string, Snap>, done: set<Id>, f: map<Id, Id>,
                      moves: map<Id, nat>)
    requires Between(t0, t, byName, done, f, moves)
    ensures MergedSoFar(t0, t, done, f) && MovesArePaidFor(t.clubs, moves)
  {
  }

  lemma NothingMergedYet(t: Tables, f: map<Id, Id>)
    requires Valid(t) && f == map z | z in t.zones :: z
    ensures MergedSoFar(t, t, {}, f)
  {
    hide CanonicalZoneName, UniqueGrants, UniqueNames, JsonImages, Elements, HasGrant;
    forall a | a in t.zones ensures StandsAt(t.zones, t.zones, {}, f, a) && Survives(t.zones, t.zones, f, a) {
    }
    forall g ensures GrantImage(f, g) == g {
    }
    forall a | a in t.roles ensures HasGrant(t.roles, t.roles[a]) {
      RowIsHeld(t.roles, a);
    }
    forall a | a in t.audiences ensures AudienceIsImage(t.audiences[a], t.audiences[a], f) {
      if t.audiences[a].ZoneArray? { JsonImagesOfIdentity(f, Elements(t.audiences[a].zoneIds)); }
    }
  }

  lemma RowIsHeld(roles: map<Id, Grant>, a: Id)
    requires a in roles
    ensures HasGrant(roles, roles[a])
  {
  }

  lemma JsonImagesOfIdentity(f: map<Id, Id>, s: set<Json>)
    requires forall z | z in f :: f[z] == z
    ensures JsonImages(f, s) == s
  {
    assert forall e :: JsonImage(f, e) == e;
  }
}
