/** `src/cache/model-tag-map.ts`: which tags a write to a Prisma model purges. */
module ModelTags {
  import opened CacheStore

  type Model = string

  const MODEL_TAG_MAP: map<Model, seq<Tag>> := map[
    "Club" := ["clubs"],
    "ClubBoardMember" := ["clubs"],
    "Zone" := ["zones"],
    "PastDrr" := ["heritage"],
    "DistrictTeamMember" := ["district-team"],
    "Achievement" := ["achievements"],
    "Partner" := ["partners"],
    "Publication" := ["publications"],
    "Resource" := ["resources"],
    "ContentBlock" := ["content"],
    "Setting" := ["settings"],
    "Event" := ["events"],
    "DrrBooking" := ["drr-calendar", "events"],
    "DrrBlock" := ["drr-calendar"],
    "Project" := ["projects"],
    "ProjectClub" := ["projects"],
    "MemberProfile" := ["members"],
    "User" := ["district-team", "members"],
    "Report" := ["reports"],
    "ClubPointEntry" := ["points"],
    "M3011Camp" := ["mission3011"],
    "M3011CampClub" := ["mission3011"],
    "DrishtiBeneficiary" := ["drishti"],
    "DrishtiSurgery" := ["drishti"],
    "CbListing" := ["careerbridge"],
    "RideSupportClub" := ["ride"],
    "RideDelegation" := ["ride"],
    "RideDelegationHost" := ["ride"],
    "RideGalleryItem" := ["ride"],
    "RclTeam" := ["rcl"],
    "RclPlayer" := ["rcl"],
    "RclFixture" := ["rcl"],
    "RclResult" := ["rcl"]
  ]

  function GetModelTags(model: Model): seq<Tag> {
    if model in MODEL_TAG_MAP then MODEL_TAG_MAP[model] else []
  }

  /** A cached route: the tags it declares, and the models its handler reads. */
  datatype Route = Route(tags: seq<Tag>, models: set<Model>)

  /** A write to any model that the handler reads purges some tag of the route. */
  ghost predicate Covered(r: Route) {
    forall m | m in r.models :: Meets(GetModelTags(m), r.tags)
  }

  ghost predicate Meets(a: seq<Tag>, b: seq<Tag>) {
    exists t :: t in a && t in b
  }

  /** GET /public/clubs declares `clubs` and reads clubs. */
  lemma PublicClubsIsCovered()
    ensures Covered(Route(["clubs"], {"Club"}))
  {
    assert "clubs" in GetModelTags("Club");
  }

  /** GET /public/zones declares `clubs` too, but reads zones, whose writes purge `zones`. */
  lemma PublicZonesIsNotCovered()
    ensures !Covered(Route(["clubs"], {"Zone"}))
  {
    assert GetModelTags("Zone") == ["zones"];
    assert "zones"[0] != "clubs"[0];
  }
}
