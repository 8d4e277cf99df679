/** Who gets an announcement addressed to roles: `findRoleHolderCandidates` of
    `src/announcements/announcements.repository.ts` and `resolveRoleHolders` of
    `src/announcements/audience-resolver.ts`. */
module Audience {
  import opened Text

  datatype ScopeType = NoScope | ClubScope | ZoneScope | ProjectScope

  datatype Grant = Grant(userId: string, roleKey: string, scopeType: ScopeType, scopeId: Option<string>)

  datatype Profile = Profile(userId: string, clubId: string, approved: bool)

  datatype Club = Club(id: string, zoneId: Option<string>)

  datatype Tables = Tables(grants: seq<Grant>, profiles: seq<Profile>, clubs: seq<Club>)

  datatype Candidate = Candidate(userId: string, clubId: Option<string>, zoneId: Option<string>,
                                 scopedClubIds: set<string>, scopedZoneIds: set<string>)

  /** The unique columns and the foreign key of the schema. */
  ghost predicate Valid(db: Tables) {
    && (forall p, q | p in db.profiles && q in db.profiles && p.userId == q.userId :: p == q)
    && (forall c, d | c in db.clubs && d in db.clubs && c.id == d.id :: c == d)
    && (forall p | p in db.profiles :: IsClub(db.clubs, p.clubId))
  }

  ghost predicate IsClub(clubs: seq<Club>, id: string) {
    exists zoneId :: Club(id, zoneId) in clubs
  }

  // ---- the audience as a set, without any index

  ghost predicate Holds(db: Tables, roleKeys: seq<string>, userId: string, scopeType: ScopeType,
                        scopeId: Option<string>)
  {
    exists key | key in roleKeys :: Grant(userId, key, scopeType, scopeId) in db.grants
  }

  ghost predicate IsHolder(db: Tables, roleKeys: seq<string>, userId: string) {
    exists scopeType, scopeId :: Holds(db, roleKeys, userId, scopeType, scopeId)
  }

  ghost predicate IsUnapproved(db: Tables, userId: string) {
    exists clubId :: Profile(userId, clubId, false) in db.profiles
  }

  ghost predicate OwnClub(db: Tables, userId: string, clubId: string) {
    exists approved :: Profile(userId, clubId, approved) in db.profiles
  }

  ghost predicate OwnZone(db: Tables, userId: string, zoneId: string) {
    exists clubId :: OwnClub(db, userId, clubId) && Club(clubId, Some(zoneId)) in db.clubs
  }

  ghost predicate GivesZoneOf(db: Tables, roleKeys: seq<string>, userId: string, clubId: string, zoneId: string) {
    && clubId != "" && zoneId != ""
    && Holds(db, roleKeys, userId, ClubScope, Some(clubId)) && Club(clubId, Some(zoneId)) in db.clubs
  }

  ghost predicate GivesClubOf(db: Tables, roleKeys: seq<string>, userId: string, zoneId: string, clubId: string) {
    && zoneId != ""
    && Holds(db, roleKeys, userId, ZoneScope, Some(zoneId)) && Club(clubId, Some(zoneId)) in db.clubs
  }

  /** A requested role held for the club, or for the zone the club is in. */
  ghost predicate GivesClub(db: Tables, roleKeys: seq<string>, userId: string, clubId: string) {
    || (clubId != "" && Holds(db, roleKeys, userId, ClubScope, Some(clubId)))
    || exists zoneId :: GivesClubOf(db, roleKeys, userId, zoneId, clubId)
  }

  /** A requested role held for the zone, or for some club of the zone. */
  ghost predicate GivesZone(db: Tables, roleKeys: seq<string>, userId: string, zoneId: string) {
    || (zoneId != "" && Holds(db, roleKeys, userId, ZoneScope, Some(zoneId)))
    || exists clubId :: GivesZoneOf(db, roleKeys, userId, clubId, zoneId)
  }

  ghost predicate InClubs(db: Tables, roleKeys: seq<string>, userId: string, clubIds: seq<string>) {
    exists id | id in clubIds :: OwnClub(db, userId, id) || GivesClub(db, roleKeys, userId, id)
  }

  ghost predicate InZones(db: Tables, roleKeys: seq<string>, userId: string, zoneIds: seq<string>) {
    exists id | id in zoneIds :: OwnZone(db, userId, id) || GivesZone(db, roleKeys, userId, id)
  }

  ghost predicate IsRecipient(db: Tables, roleKeys: seq<string>, zoneIds: seq<string>, clubIds: seq<string>,
                              userId: string)
  {
    && IsHolder(db, roleKeys, userId)
    && !IsUnapproved(db, userId)
    && ((zoneIds == [] && clubIds == []) || InClubs(db, roleKeys, userId, clubIds)
        || InZones(db, roleKeys, userId, zoneIds))
  }

  // ---- the queries

  function HeldGrants(grants: seq<Grant>, roleKeys: seq<string>): (r: seq<Grant>)
    ensures forall g :: g in r <==> g in grants && g.roleKey in roleKeys
  {
    if grants == [] then []
    else
      (if grants[0].roleKey in roleKeys then [grants[0]] else []) + HeldGrants(grants[1..], roleKeys)
  }

  function ProfilesOf(profiles: seq<Profile>, userIds: seq<string>): (r: seq<Profile>)
    ensures forall p :: p in r <==> p in profiles && p.userId in userIds
  {
    if profiles == [] then []
    else
      (if profiles[0].userId in userIds then [profiles[0]] else []) + ProfilesOf(profiles[1..], userIds)
  }

  function ClubsById(clubs: seq<Club>, ids: set<string>): (r: seq<Club>)
    ensures forall c :: c in r <==> c in clubs && c.id in ids
  {
    if clubs == [] then []
    else
      (if clubs[0].id in ids then [clubs[0]] else []) + ClubsById(clubs[1..], ids)
  }

  function ClubsByZone(clubs: seq<Club>, ids: set<string>): (r: seq<Club>)
    ensures forall c :: c in r <==> c in clubs && c.zoneId.Some? && c.zoneId.value in ids
  {
    if clubs == [] then []
    else
      (if clubs[0].zoneId.Some? && clubs[0].zoneId.value in ids then [clubs[0]] else []) + ClubsByZone(clubs[1..], ids)
  }

  /** The club of a profile, selected along the foreign key. */
  function ZoneIdOf(clubs: seq<Club>, id: string): (zoneId: Option<string>)
    requires IsClub(clubs, id)
    ensures Club(id, zoneId) in clubs
  {
    if clubs[0].id == id then clubs[0].zoneId else ZoneIdOf(clubs[1..], id)
  }

  // ---- the indexes

  /** `[...new Set(grants.map((g) => g.userId))]`: each user once. */
  method DistinctUsers(grants: seq<Grant>) returns (userIds: seq<string>)
    ensures forall u :: u in userIds <==> exists g :: g in grants && g.userId == u
    ensures forall i, j | 0 <= i < j < |userIds| :: userIds[i] != userIds[j]
  {
    userIds := [];
    for k := 0 to |grants|
      invariant forall u :: u in userIds <==> exists g :: g in grants[..k] && g.userId == u
      invariant forall i, j | 0 <= i < j < |userIds| :: userIds[i] != userIds[j]
    {
      assert grants[..k + 1] == grants[..k] + [grants[k]];
      if grants[k].userId !in userIds { userIds := userIds + [grants[k].userId]; }
    }
    assert grants[..|grants|] == grants;
  }

  function ScopeIds(grants: seq<Grant>, scopeType: ScopeType): (r: set<string>) {
    set g | g in grants && g.scopeType == scopeType && g.scopeId.Some? && g.scopeId.value != "" :: g.scopeId.value
  }

  method ProfileByUserId(profiles: seq<Profile>) returns (byUserId: map<string, Profile>, excluded: set<string>)
    requires forall p, q | p in profiles && q in profiles && p.userId == q.userId :: p == q
    ensures forall u | u in byUserId :: byUserId[u] in profiles && byUserId[u].userId == u
    ensures forall p | p in profiles :: p.userId in byUserId && byUserId[p.userId] == p
    ensures forall u :: u in excluded <==> exists p :: p in profiles && p.userId == u && !p.approved
  {
    byUserId := map[];
    for k := 0 to |profiles|
      invariant forall u | u in byUserId :: byUserId[u] in profiles[..k] && byUserId[u].userId == u
      invariant forall p | p in profiles[..k] :: p.userId in byUserId && byUserId[p.userId] == p
    {
      assert profiles[..k + 1] == profiles[..k] + [profiles[k]];
      byUserId := byUserId[profiles[k].userId := profiles[k]];
    }
    assert profiles[..|profiles|] == profiles;
    excluded := set p | p in profiles && !p.approved :: p.userId;
  }

  predicate Maps(m: map<string, Option<string>>, key: string, value: Option<string>) {
    key in m && m[key] == value
  }

  method ZoneIdOfClub(clubs: seq<Club>) returns (zoneIdOfClub: map<string, Option<string>>)
    requires forall c, d | c in clubs && d in clubs && c.id == d.id :: c == d
    ensures forall id, z :: Maps(zoneIdOfClub, id, z) <==> Club(id, z) in clubs
  {
    zoneIdOfClub := map[];
    for k := 0 to |clubs|
      invariant forall id, z :: Maps(zoneIdOfClub, id, z) <==> Club(id, z) in clubs[..k]
    {
      assert clubs[..k + 1] == clubs[..k] + [clubs[k]];
      zoneIdOfClub := zoneIdOfClub[clubs[k].id := clubs[k].zoneId];
    }
    assert clubs[..|clubs|] == clubs;
  }

  function Get<T>(m: map<string, seq<T>>, key: string): seq<T> {
    if key in m then m[key] else []
  }

  method ClubIdsOfZone(clubs: seq<Club>) returns (clubIdsOfZone: map<string, seq<string>>)
    ensures forall z, id :: id in Get(clubIdsOfZone, z) <==> z != "" && Club(id, Some(z)) in clubs
  {
    clubIdsOfZone := map[];
    for k := 0 to |clubs|
      invariant forall z, id :: id in Get(clubIdsOfZone, z) <==> z != "" && Club(id, Some(z)) in clubs[..k]
    {
      assert clubs[..k + 1] == clubs[..k] + [clubs[k]];
      var club := clubs[k];
      if club.zoneId == None || club.zoneId == Some("") { continue; }
      var zoneId := club.zoneId.value;
      clubIdsOfZone := clubIdsOfZone[zoneId := Get(clubIdsOfZone, zoneId) + [club.id]];
    }
    assert clubs[..|clubs|] == clubs;
  }

  method GrantsByUserId(grants: seq<Grant>) returns (grantsByUserId: map<string, seq<Grant>>)
    ensures forall u, g :: g in Get(grantsByUserId, u) <==> g in grants && g.userId == u
  {
    grantsByUserId := map[];
    for k := 0 to |grants|
      invariant forall u, g :: g in Get(grantsByUserId, u) <==> g in grants[..k] && g.userId == u
    {
      assert grants[..k + 1] == grants[..k] + [grants[k]];
      var userId := grants[k].userId;
      ghost var before := grantsByUserId;
      grantsByUserId := grantsByUserId[userId := Get(grantsByUserId, userId) + [grants[k]]];
      assert Get(grantsByUserId, userId) == Get(before, userId) + [grants[k]];
      assert forall u | u != userId :: Get(grantsByUserId, u) == Get(before, u);
      hide Get;
    }
    assert grants[..|grants|] == grants;
  }

  // ---- what the grants of one user reach, read off the indexes

  function ClubsOfGrant(g: Grant, clubIdsOfZone: map<string, seq<string>>): set<string> {
    if g.scopeId == None || g.scopeId == Some("") then {}
    else if g.scopeType == ClubScope then {g.scopeId.value}
    else if g.scopeType == ZoneScope then set id | id in Get(clubIdsOfZone, g.scopeId.value)
    else {}
  }

  function ZonesOfGrant(g: Grant, zoneIdOfClub: map<string, Option<string>>): set<string> {
    if g.scopeId == None || g.scopeId == Some("") then {}
    else if g.scopeType == ZoneScope then {g.scopeId.value}
    else if g.scopeType == ClubScope && g.scopeId.value in zoneIdOfClub
            && zoneIdOfClub[g.scopeId.value] != None && zoneIdOfClub[g.scopeId.value] != Some("") then
      {zoneIdOfClub[g.scopeId.value].value}
    else {}
  }

  method ScopedIds(grants: seq<Grant>, zoneIdOfClub: map<string, Option<string>>,
                   clubIdsOfZone: map<string, seq<string>>)
    returns (clubIds: set<string>, zoneIds: set<string>)
    ensures forall id :: id in clubIds <==> exists g :: g in grants && id in ClubsOfGrant(g, clubIdsOfZone)
    ensures forall id :: id in zoneIds <==> exists g :: g in grants && id in ZonesOfGrant(g, zoneIdOfClub)
  {
    hide Get;
    clubIds, zoneIds := {}, {};
    for k := 0 to |grants|
      invariant forall id :: id in clubIds <==> exists g :: g in grants[..k] && id in ClubsOfGrant(g, clubIdsOfZone)
      invariant forall id :: id in zoneIds <==> exists g :: g in grants[..k] && id in ZonesOfGrant(g, zoneIdOfClub)
    {
      assert grants[..k + 1] == grants[..k] + [grants[k]];
      var g := grants[k];
      ghost var clubs, zones := clubIds, zoneIds;
      if g.scopeType == ClubScope && g.scopeId != None && g.scopeId != Some("") {
        var id := g.scopeId.value;
        clubIds := clubIds + {id};
        var zoneId := if id in zoneIdOfClub then zoneIdOfClub[id] else None;
        if zoneId != None && zoneId != Some("") { zoneIds := zoneIds + {zoneId.value}; }
      } else if g.scopeType == ZoneScope && g.scopeId != None && g.scopeId != Some("") {
        var id := g.scopeId.value;
        zoneIds := zoneIds + {id};
        var list := Get(clubIdsOfZone, id);
        for j := 0 to |list|
          invariant clubIds == clubs + set id | id in list[..j]
        {
          assert list[..j + 1] == list[..j] + [list[j]];
          clubIds := clubIds + {list[j]};
        }
        assert list[..|list|] == list;
      }
      assert clubIds == clubs + ClubsOfGrant(g, clubIdsOfZone);
      assert zoneIds == zones + ZonesOfGrant(g, zoneIdOfClub);
    }
    assert grants[..|grants|] == grants;
  }

  /** A candidate describes its user: own club, own zone, and what the requested roles of the user reach. */
  ghost predicate IsCandidate(db: Tables, roleKeys: seq<string>, c: Candidate) {
    && IsHolder(db, roleKeys, c.userId) && !IsUnapproved(db, c.userId)
    && (forall id :: c.clubId == Some(id) <==> OwnClub(db, c.userId, id))
    && (forall id :: c.zoneId == Some(id) <==> OwnZone(db, c.userId, id))
    && (forall id :: id in c.scopedClubIds <==> GivesClub(db, roleKeys, c.userId, id))
    && (forall id :: id in c.scopedZoneIds <==> GivesZone(db, roleKeys, c.userId, id))
  }

  lemma HoldersHaveGrants(db: Tables, roleKeys: seq<string>)
    ensures forall u :: IsHolder(db, roleKeys, u) <==> exists g :: g in HeldGrants(db.grants, roleKeys) && g.userId == u
  {
    forall u ensures IsHolder(db, roleKeys, u) <==> exists g :: g in HeldGrants(db.grants, roleKeys) && g.userId == u {
      if g :| g in HeldGrants(db.grants, roleKeys) && g.userId == u {
        HeldIsHolds(db, roleKeys, g);
      }
      if t, i :| Holds(db, roleKeys, u, t, i) {
        var g := HoldsIsHeld(db, roleKeys, u, t, i);
      }
    }
  }

  lemma HeldIsHolds(db: Tables, roleKeys: seq<string>, g: Grant)
    requires g in HeldGrants(db.grants, roleKeys)
    ensures Holds(db, roleKeys, g.userId, g.scopeType, g.scopeId)
  {
    assert g == Grant(g.userId, g.roleKey, g.scopeType, g.scopeId);
  }

  lemma HoldsIsHeld(db: Tables, roleKeys: seq<string>, userId: string, scopeType: ScopeType, scopeId: Option<string>)
    returns (g: Grant)
    requires Holds(db, roleKeys, userId, scopeType, scopeId)
    ensures g in HeldGrants(db.grants, roleKeys) && g.userId == userId && g.scopeType == scopeType
            && g.scopeId == scopeId
  {
    var key :| key in roleKeys && Grant(userId, key, scopeType, scopeId) in db.grants;
    g := Grant(userId, key, scopeType, scopeId);
  }

  ghost predicate ListsZones(db: Tables, grants: seq<Grant>, clubIdsOfZone: map<string, seq<string>>) {
    forall z, id :: id in Get(clubIdsOfZone, z) <==> z in ScopeIds(grants, ZoneScope) && Club(id, Some(z)) in db.clubs
  }

  ghost predicate ListsClubs(db: Tables, grants: seq<Grant>, zoneIdOfClub: map<string, Option<string>>) {
    forall id, z :: Maps(zoneIdOfClub, id, z) <==> id in ScopeIds(grants, ClubScope) && Club(id, z) in db.clubs
  }

  lemma GivesClubIndexed(db: Tables, roleKeys: seq<string>, clubIdsOfZone: map<string, seq<string>>, userId: string,
                         id: string)
    requires ListsZones(db, HeldGrants(db.grants, roleKeys), clubIdsOfZone)
    ensures GivesClub(db, roleKeys, userId, id) <==>
            exists g ::
              g in HeldGrants(db.grants, roleKeys) && g.userId == userId && id in ClubsOfGrant(g, clubIdsOfZone)
  {
    hide HeldGrants, Holds, Get;
    if g :| g in HeldGrants(db.grants, roleKeys) && g.userId == userId && id in ClubsOfGrant(g, clubIdsOfZone) {
      HeldIsHolds(db, roleKeys, g);
      if g.scopeType == ZoneScope { assert GivesClubOf(db, roleKeys, userId, g.scopeId.value, id); }
    }
    if id != "" && Holds(db, roleKeys, userId, ClubScope, Some(id)) {
      var g := HoldsIsHeld(db, roleKeys, userId, ClubScope, Some(id));
      assert id in ClubsOfGrant(g, clubIdsOfZone);
    }
    if z :| GivesClubOf(db, roleKeys, userId, z, id) {
      var g := HoldsIsHeld(db, roleKeys, userId, ZoneScope, Some(z));
      assert z in ScopeIds(HeldGrants(db.grants, roleKeys), ZoneScope);
      assert id in ClubsOfGrant(g, clubIdsOfZone);
    }
  }

  lemma GivesZoneIndexed(db: Tables, roleKeys: seq<string>, zoneIdOfClub: map<string, Option<string>>, userId: string,
                         id: string)
    requires ListsClubs(db, HeldGrants(db.grants, roleKeys), zoneIdOfClub)
    ensures GivesZone(db, roleKeys, userId, id) <==>
            exists g ::
              g in HeldGrants(db.grants, roleKeys) && g.userId == userId && id in ZonesOfGrant(g, zoneIdOfClub)
  {
    hide HeldGrants, Holds;
    if g :| g in HeldGrants(db.grants, roleKeys) && g.userId == userId && id in ZonesOfGrant(g, zoneIdOfClub) {
      HeldIsHolds(db, roleKeys, g);
      if g.scopeType == ClubScope {
        assert Maps(zoneIdOfClub, g.scopeId.value, Some(id));
        assert GivesZoneOf(db, roleKeys, userId, g.scopeId.value, id);
      }
    }
    if id != "" && Holds(db, roleKeys, userId, ZoneScope, Some(id)) {
      var g := HoldsIsHeld(db, roleKeys, userId, ZoneScope, Some(id));
      assert id in ZonesOfGrant(g, zoneIdOfClub);
    }
    if c :| GivesZoneOf(db, roleKeys, userId, c, id) {
      var g := HoldsIsHeld(db, roleKeys, userId, ClubScope, Some(c));
      assert c in ScopeIds(HeldGrants(db.grants, roleKeys), ClubScope);
      assert Maps(zoneIdOfClub, c, Some(id));
      assert id in ZonesOfGrant(g, zoneIdOfClub);
    }
  }

  /** The two lookups between clubs and zones; a query is made only when there is something to look up. */
  method Indexes(db: Tables, grants: seq<Grant>)
    returns (zoneIdOfClub: map<string, Option<string>>, clubIdsOfZone: map<string, seq<string>>)
    requires Valid(db)
    ensures ListsClubs(db, grants, zoneIdOfClub) && ListsZones(db, grants, clubIdsOfZone)
  {
    var grantedClubIds := ScopeIds(grants, ClubScope);
    var grantedZoneIds := ScopeIds(grants, ZoneScope);
    var clubsWithZone := if grantedClubIds != {} then ClubsById(db.clubs, grantedClubIds) else [];
    var clubsInGrantedZones := if grantedZoneIds != {} then ClubsByZone(db.clubs, grantedZoneIds) else [];
    zoneIdOfClub := ZoneIdOfClub(clubsWithZone);
    clubIdsOfZone := ClubIdsOfZone(clubsInGrantedZones);
    assert forall id, z :: Club(id, z) in clubsWithZone <==> Club(id, z) in db.clubs && id in grantedClubIds;
    assert forall id, z ::
        Club(id, Some(z)) in clubsInGrantedZones <==> Club(id, Some(z)) in db.clubs && z in grantedZoneIds;
  }

  lemma UnapprovedIsListed(db: Tables, userIds: seq<string>, userId: string)
    requires userId in userIds
    ensures IsUnapproved(db, userId)
            <==> exists p :: p in ProfilesOf(db.profiles, userIds) && p.userId == userId && !p.approved
  {
    if p :| p in ProfilesOf(db.profiles, userIds) && p.userId == userId && !p.approved {
      assert p == Profile(userId, p.clubId, false);
    }
    if clubId :| Profile(userId, clubId, false) in db.profiles {
      assert Profile(userId, clubId, false) in ProfilesOf(db.profiles, userIds);
    }
  }

  /** `profile?.clubId ?? null` and `profile?.club.zoneId ?? null`. */
  method OwnClubAndZone(db: Tables, userId: string, profileByUserId: map<string, Profile>)
    returns (clubId: Option<string>, zoneId: Option<string>)
    requires Valid(db)
    requires forall u | u in profileByUserId :: profileByUserId[u] in db.profiles && profileByUserId[u].userId == u
    requires forall p | p in db.profiles && p.userId == userId :: userId in profileByUserId
    ensures forall id :: clubId == Some(id) <==> OwnClub(db, userId, id)
    ensures forall id :: zoneId == Some(id) <==> OwnZone(db, userId, id)
  {
    if userId !in profileByUserId {
      return None, None;
    }
    var profile := profileByUserId[userId];
    clubId := Some(profile.clubId);
    zoneId := ZoneIdOf(db.clubs, profile.clubId);
    assert profile == Profile(userId, profile.clubId, profile.approved);
    assert OwnClub(db, userId, profile.clubId);
    assert Club(profile.clubId, zoneId) in db.clubs;
    forall id ensures zoneId == Some(id) <==> OwnZone(db, userId, id) {
      if c :| OwnClub(db, userId, c) && Club(c, Some(id)) in db.clubs { assert c == profile.clubId; }
    }
  }

  ghost predicate IsProfileIndex(db: Tables, userIds: seq<string>, profileByUserId: map<string, Profile>) {
    && (forall u | u in profileByUserId :: profileByUserId[u] in db.profiles && profileByUserId[u].userId == u)
    && (forall p | p in db.profiles && p.userId in userIds :: p.userId in profileByUserId)
  }

  method CandidateFor(db: Tables, roleKeys: seq<string>, userIds: seq<string>, userId: string,
                      profileByUserId: map<string, Profile>, userGrants: seq<Grant>,
                      zoneIdOfClub: map<string, Option<string>>, clubIdsOfZone: map<string, seq<string>>)
    returns (candidate: Candidate)
    requires Valid(db) && IsHolder(db, roleKeys, userId) && !IsUnapproved(db, userId)
    requires IsProfileIndex(db, userIds, profileByUserId) && userId in userIds
    requires forall g :: g in userGrants <==> g in HeldGrants(db.grants, roleKeys) && g.userId == userId
    requires ListsClubs(db, HeldGrants(db.grants, roleKeys), zoneIdOfClub)
    requires ListsZones(db, HeldGrants(db.grants, roleKeys), clubIdsOfZone)
    ensures IsCandidate(db, roleKeys, candidate) && candidate.userId == userId
  {
    hide HeldGrants, IsHolder, IsUnapproved, OwnClub, OwnZone, GivesClub, GivesZone, ClubsOfGrant, ZonesOfGrant,
         ListsClubs, ListsZones;
    var clubId, zoneId := OwnClubAndZone(db, userId, profileByUserId);
    var scopedClubIds, scopedZoneIds := ScopedIds(userGrants, zoneIdOfClub, clubIdsOfZone);
    forall id ensures id in scopedClubIds <==> GivesClub(db, roleKeys, userId, id) {
      GivesClubIndexed(db, roleKeys, clubIdsOfZone, userId, id);
    }
    forall id ensures id in scopedZoneIds <==> GivesZone(db, roleKeys, userId, id) {
      GivesZoneIndexed(db, roleKeys, zoneIdOfClub, userId, id);
    }
    candidate := Candidate(userId, clubId, zoneId, scopedClubIds, scopedZoneIds);
  }

  ghost predicate Lists(candidates: seq<Candidate>, userId: string) {
    exists i :: 0 <= i < |candidates| && candidates[i].userId == userId
  }

  /** One candidate for each of the users, except the unapproved ones. */
  ghost predicate AreCandidates(db: Tables, roleKeys: seq<string>, userIds: seq<string>, candidates: seq<Candidate>) {
    && (forall i | 0 <= i < |candidates| :: IsCandidate(db, roleKeys, candidates[i]))
    && (forall u :: Lists(candidates, u) <==> u in userIds && !IsUnapproved(db, u))
    && (forall i, j | 0 <= i < j < |candidates| :: candidates[i].userId != candidates[j].userId)
  }

  lemma CandidateAdded(db: Tables, roleKeys: seq<string>, userIds: seq<string>, candidates: seq<Candidate>,
                       c: Candidate)
    requires AreCandidates(db, roleKeys, userIds, candidates) && IsCandidate(db, roleKeys, c)
    requires c.userId !in userIds && !IsUnapproved(db, c.userId)
    ensures AreCandidates(db, roleKeys, userIds + [c.userId], candidates + [c])
  {
    hide IsCandidate, IsUnapproved;
    var more := candidates + [c];
    forall u ensures Lists(more, u) <==> Lists(candidates, u) || u == c.userId {
      assert more[|candidates|] == c;
      if i :| 0 <= i < |candidates| && candidates[i].userId == u { assert more[i] == candidates[i]; }
    }
    assert forall i | 0 <= i < |candidates| :: Lists(candidates, candidates[i].userId);
  }

  lemma NoCandidatesYet(db: Tables, roleKeys: seq<string>)
    ensures AreCandidates(db, roleKeys, [], [])
  {
  }

  lemma UnapprovedSkipped(db: Tables, roleKeys: seq<string>, userIds: seq<string>, candidates: seq<Candidate>,
                          userId: string)
    requires AreCandidates(db, roleKeys, userIds, candidates) && IsUnapproved(db, userId)
    ensures AreCandidates(db, roleKeys, userIds + [userId], candidates)
  {
    hide IsCandidate, IsUnapproved;
  }

  lemma HoldersAreCandidates(db: Tables, roleKeys: seq<string>, userIds: seq<string>, candidates: seq<Candidate>)
    requires AreCandidates(db, roleKeys, userIds, candidates)
    requires forall u :: u in userIds <==> IsHolder(db, roleKeys, u)
    ensures AreRoleHolders(db, roleKeys, candidates)
  {
  }

  /** Exactly one candidate for each user who holds a requested role and is not unapproved. */
  ghost predicate AreRoleHolders(db: Tables, roleKeys: seq<string>, candidates: seq<Candidate>) {
    && (forall i | 0 <= i < |candidates| :: IsCandidate(db, roleKeys, candidates[i]))
    && (forall u :: Lists(candidates, u) <==> IsHolder(db, roleKeys, u) && !IsUnapproved(db, u))
    && (forall i, j | 0 <= i < j < |candidates| :: candidates[i].userId != candidates[j].userId)
  }

  method FindRoleHolderCandidates(db: Tables, roleKeys: seq<string>) returns (candidates: seq<Candidate>)
    requires Valid(db)
    ensures AreRoleHolders(db, roleKeys, candidates)
  {
    candidates := [];
    var grants := HeldGrants(db.grants, roleKeys);
    HoldersHaveGrants(db, roleKeys);
    if roleKeys == [] || grants == [] { return; }
    hide HeldGrants, IsHolder, IsUnapproved, Get, ListsClubs, ListsZones, AreCandidates, AreRoleHolders, ProfilesOf;
    var userIds := DistinctUsers(grants);
    NoCandidatesYet(db, roleKeys);
    var profileByUserId, excludedUserIds := ProfileByUserId(ProfilesOf(db.profiles, userIds));
    assert IsProfileIndex(db, userIds, profileByUserId);
    hide IsProfileIndex;
    var zoneIdOfClub, clubIdsOfZone := Indexes(db, grants);
    var grantsByUserId := GrantsByUserId(grants);
    for k := 0 to |userIds|
      invariant AreCandidates(db, roleKeys, userIds[..k], candidates)
    {
      var userId := userIds[k];
      assert userIds[..k + 1] == userIds[..k] + [userId];
      UnapprovedIsListed(db, userIds, userId);
      if userId in excludedUserIds {
        UnapprovedSkipped(db, roleKeys, userIds[..k], candidates, userId);
      } else {
        var candidate := CandidateFor(db, roleKeys, userIds, userId, profileByUserId, Get(grantsByUserId, userId),
                                      zoneIdOfClub, clubIdsOfZone);
        CandidateAdded(db, roleKeys, userIds[..k], candidates, candidate);
        candidates := candidates + [candidate];
      }
    }
    assert userIds[..|userIds|] == userIds;
    HoldersAreCandidates(db, roleKeys, userIds, candidates);
  }

  ghost predicate IsSelected(c: Candidate, zoneIds: seq<string>, clubIds: seq<string>) {
    || (zoneIds == [] && clubIds == [])
    || (exists id | id in clubIds :: c.clubId == Some(id) || id in c.scopedClubIds)
    || (exists id | id in zoneIds :: c.zoneId == Some(id) || id in c.scopedZoneIds)
  }

  method ResolveRoleHolders(candidates: seq<Candidate>, zoneIds: seq<string>, clubIds: seq<string>)
      returns (result: set<string>)
    ensures forall u :: u in result <==>
              exists i ::
                0 <= i < |candidates| && candidates[i].userId == u && IsSelected(candidates[i], zoneIds, clubIds)
  {
    var restricted := zoneIds != [] || clubIds != [];
    result := {};
    for k := 0 to |candidates|
      invariant forall u :: u in result <==>
                  exists i :: 0 <= i < k && candidates[i].userId == u && IsSelected(candidates[i], zoneIds, clubIds)
    {
      var c := candidates[k];
      var inZoneOrClub :=
        || (c.clubId != None && c.clubId.value in clubIds)
        || (c.zoneId != None && c.zoneId.value in zoneIds)
        || (exists id | id in c.scopedClubIds :: id in clubIds)
        || (exists id | id in c.scopedZoneIds :: id in zoneIds);
      assert IsSelected(c, zoneIds, clubIds) <==> !restricted || inZoneOrClub;
      if !restricted || inZoneOrClub { result := result + {c.userId}; }
    }
  }

  lemma SelectedIsRecipient(db: Tables, roleKeys: seq<string>, c: Candidate, zoneIds: seq<string>, clubIds: seq<string>)
    requires IsCandidate(db, roleKeys, c)
    ensures IsSelected(c, zoneIds, clubIds) <==> IsRecipient(db, roleKeys, zoneIds, clubIds, c.userId)
  {
    hide IsHolder, IsUnapproved, OwnClub, OwnZone, GivesClub, GivesZone;
  }

  /** The two steps together give exactly the set that the definition above describes. */
  method ResolveRoles(db: Tables, roleKeys: seq<string>, zoneIds: seq<string>, clubIds: seq<string>)
      returns (result: set<string>)
    requires Valid(db)
    ensures forall u :: u in result <==> IsRecipient(db, roleKeys, zoneIds, clubIds, u)
  {
    hide IsCandidate, IsSelected, IsRecipient;
    var candidates := FindRoleHolderCandidates(db, roleKeys);
    result := ResolveRoleHolders(candidates, zoneIds, clubIds);
    forall u ensures u in result <==> IsRecipient(db, roleKeys, zoneIds, clubIds, u) {
      forall i | 0 <= i < |candidates|
        ensures IsSelected(candidates[i], zoneIds, clubIds)
                <==> IsRecipient(db, roleKeys, zoneIds, clubIds, candidates[i].userId)
      {
        SelectedIsRecipient(db, roleKeys, candidates[i], zoneIds, clubIds);
      }
      RecipientsAreApprovedHolders(db, roleKeys, zoneIds, clubIds, u);
    }
  }

  lemma RecipientsAreApprovedHolders(db: Tables, roleKeys: seq<string>, zoneIds: seq<string>, clubIds: seq<string>,
                                     userId: string)
    ensures IsRecipient(db, roleKeys, zoneIds, clubIds, userId)
            ==> IsHolder(db, roleKeys, userId) && !IsUnapproved(db, userId)
  {
  }
}
