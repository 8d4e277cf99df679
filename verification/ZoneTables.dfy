/** The zone alias merge of `prisma/seed/zones.ts`: rows of four tables, and the SQL statements that the
    merge issues as functions on those tables. */
module ZoneTables {
  import opened Sets
  import opened Text

  type Id = string

  datatype Zone = Zone(name: string, order: int)
  datatype Club = Club(name: string, zone: Option<string>, zoneId: Option<Id>, slug: Option<string>)
  datatype ScopeType = NoScope | ClubScope | ZoneScope | ProjectScope
  datatype Grant = Grant(userId: Id, roleId: Id, scopeType: ScopeType, scopeId: Option<Id>)

  /** An element of a Json array: a string, or any other Json value. */
  datatype Json = Str(text: string) | Other(tag: int)

  /** `announcements.audience`, which is free-form Json: an object whose `zoneIds` is an array, or not. */
  datatype Audience = ZoneArray(zoneIds: seq<Json>) | NoZoneArray

  datatype Tables = Tables(
    zones: map<Id, Zone>, clubs: map<Id, Club>, roles: map<Id, Grant>, audiences: map<Id, Audience>)

  // ---- constraints that the database enforces

  ghost predicate UniqueNames(zones: map<Id, Zone>) {
    forall a, b | a in zones && b in zones && zones[a].name == zones[b].name :: a == b
  }

  /** The unique key [userId, roleId, scopeType, scopeId]; null scope ids never clash. */
  predicate UniqueGrants(roles: map<Id, Grant>) {
    forall a, b | a in roles && b in roles :: roles[a] == roles[b] && roles[a].scopeId.Some? ==> a == b
  }

  ghost predicate ZoneRefsExist(t: Tables) {
    forall c | c in t.clubs && t.clubs[c].zoneId.Some? :: t.clubs[c].zoneId.value in t.zones
  }

  ghost predicate Valid(t: Tables) {
    UniqueNames(t.zones) && UniqueGrants(t.roles) && ZoneRefsExist(t)
  }

  // ---- the statements

  function ClubsIn(clubs: map<Id, Club>, z: Id): set<Id> {
    set c | c in clubs && clubs[c].zoneId == Some(z)
  }

  function RedirectClubs(clubs: map<Id, Club>, from: Id, to: Id): map<Id, Club> {
    map c | c in clubs :: if clubs[c].zoneId == Some(from) then clubs[c].(zoneId := Some(to)) else clubs[c]
  }

  function RedirectGrant(g: Grant, from: Id, to: Id): Grant {
    if g.scopeType.ZoneScope? && g.scopeId == Some(from) then g.(scopeId := Some(to)) else g
  }

  /** A zone grant on `from` whose holder already has the role on `to`. */
  predicate Clashes(roles: map<Id, Grant>, a: Id, from: Id, to: Id)
    requires a in roles
  {
    && roles[a].scopeType.ZoneScope? && roles[a].scopeId == Some(from)
    && exists b | b in roles :: roles[b] == RedirectGrant(roles[a], from, to)
  }

  function DropClashing(roles: map<Id, Grant>, from: Id, to: Id): map<Id, Grant> {
    map a | a in roles && !Clashes(roles, a, from, to) :: roles[a]
  }

  function RedirectRoles(roles: map<Id, Grant>, from: Id, to: Id): map<Id, Grant> {
    map a | a in roles :: RedirectGrant(roles[a], from, to)
  }

  function RedirectJson(e: Json, from: Id, to: Id): Json {
    if e == Str(from) then Str(to) else e
  }

  /** `jsonb_agg(DISTINCT CASE WHEN e = from THEN to ELSE e END)`. */
  function RedirectDistinct(ids: seq<Json>, from: Id, to: Id): (r: seq<Json>)
    ensures NoDuplicates(r)
    ensures forall e :: e in r <==> exists x | x in ids :: e == RedirectJson(x, from, to)
  {
    if ids == [] then []
    else
      var rest := RedirectDistinct(ids[..|ids| - 1], from, to);
      var e := RedirectJson(ids[|ids| - 1], from, to);
      assert ids == ids[..|ids| - 1] + [ids[|ids| - 1]];
      if e in rest then rest else rest + [e]
  }

  function RedirectAudience(a: Audience, from: Id, to: Id): Audience {
    if a.ZoneArray? && Str(from) in a.zoneIds then ZoneArray(RedirectDistinct(a.zoneIds, from, to)) else a
  }

  function RedirectAudiences(audiences: map<Id, Audience>, from: Id, to: Id): map<Id, Audience> {
    map a | a in audiences :: RedirectAudience(audiences[a], from, to)
  }

  /** Everything that one merge of row `drop` into row `keep` does, in one go. */
  function MergeRows(t: Tables, drop: Id, keep: Id, name: string): Tables
    requires keep in t.zones && drop != keep
  {
    Tables((t.zones - {drop})[keep := t.zones[keep].(name := name)],
           RedirectClubs(t.clubs, drop, keep),
           RedirectRoles(DropClashing(t.roles, drop, keep), drop, keep),
           RedirectAudiences(t.audiences, drop, keep))
  }
}
