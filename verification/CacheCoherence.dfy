/** The cached API as a state machine over the steps that can interleave: handlers, the `set` that follows
    a miss, database writes, the purge that each write runs, the queued purge, and the clock. */
module CacheCoherence {
  import opened Text
  import opened CacheKey
  import opened CacheStore
  import opened ModelTags

  datatype Request = Request(path: string, query: Query)

  /** What a handler answers. It keeps everything it could have used, so every handler that depends only on
      the path, the query and the models of its route is a function of this. */
  datatype Body = Body(path: string, query: map<string, string>, seen: map<Model, int>)

  /** A miss whose handler has run, at step number `since` of the run, and whose `set` is still to come. */
  datatype Flight = Flight(request: Request, body: Body, since: nat)

  /** A purge in progress. `owed` says whether the cache may still hold what it is there to remove: it is so
      for the purge that a write runs, and for a queued purge only if the one before it failed. */
  datatype Purge = Purge(all: set<Tag>, remaining: set<Tag>, queued: bool, owed: bool)

  /** `taken` counts the steps of the run. */
  datatype State = State(
    db: map<Model, int>, now: nat, cache: Cache<Body>, flights: multiset<Flight>, purges: multiset<Purge>, taken: nat)

  datatype Step =
    | Compute(request: Request)
    | Store(flight: Flight)
    | Abandon(flight: Flight)
    | Write(model: Model, value: int)
    | DeleteTag(purge: Purge, tag: Tag)
    | Finish(purge: Purge)
    | FailInline(purge: Purge)
    | PurgeAll
    | Tick(seconds: nat)

  type Routes = string -> Route

  function Seen(r: Route, db: map<Model, int>): map<Model, int> {
    map m | m in r.models && m in db :: db[m]
  }

  function Handle(routes: Routes, request: Request, db: map<Model, int>): Body {
    Body(request.path, AsMap(request.query), Seen(routes(request.path), db))
  }

  function KeyOf(request: Request): string {
    BuildCacheKey(request.path, request.query)
  }

  predicate Clean(request: Request) {
    IsClean(request.path, request.query)
  }

  /** What the interceptor finds for a request. */
  function Served(s: State, request: Request): Option<Body> {
    Lookup(s.cache, KeyOf(request), s.now)
  }

  predicate Enabled(step: Step, s: State) {
    match step
    case Compute(request) => Served(s, request).None?
    case Store(f) => f in s.flights
    case Abandon(f) => f in s.flights
    case Write(_, _) => true
    case DeleteTag(p, t) => p in s.purges && t in p.remaining
    case Finish(p) => p in s.purges && p.remaining == {}
    case FailInline(p) => p in s.purges && !p.queued
    case PurgeAll => true
    case Tick(_) => true
  }

  function Apply(routes: Routes, step: Step, s: State): State {
    Effect(routes, step, s).(taken := s.taken + 1)
  }

  function Effect(routes: Routes, step: Step, s: State): State {
    match step
    case Compute(request) =>
      s.(flights := s.flights + multiset{Flight(request, Handle(routes, request, s.db), s.taken)})
    case Store(f) =>
      s.(flights := s.flights - multiset{f},
         cache := WithEntry(s.cache, KeyOf(f.request), f.body, routes(f.request.path).tags,
                            s.now + CACHE_L2_TTL_SECONDS))
    case Abandon(f) => s.(flights := s.flights - multiset{f})
    case Write(m, v) =>
      var tags := TagSet(GetModelTags(m));
      s.(db := s.db[m := v],
         purges := s.purges + (if tags != {} then multiset{Purge(tags, tags, false, true)} else multiset{}))
    case DeleteTag(p, t) =>
      s.(cache := WithoutTag(s.cache, t),
         purges := s.purges - multiset{p} + multiset{p.(remaining := p.remaining - {t})})
    case Finish(p) =>
      s.(purges := s.purges - multiset{p}
                   + (if p.queued then multiset{} else multiset{Purge(p.all, p.all, true, false)}))
    case FailInline(p) => s.(purges := s.purges - multiset{p} + multiset{Purge(p.all, p.all, true, true)})
    case PurgeAll => s.(cache := Cache(map[], map[]))
    case Tick(d) => s.(now := s.now + d)
  }

  /** Two ways to look at purges. `FirstPurge` counts on the purge that a write runs itself, and on its repetition
      only if it failed; `SecondPurge` counts on the queued repetition that follows every purge. */
  datatype Horizon = FirstPurge | SecondPurge

  /** The tags that this purge, or the one it will queue, is still going to delete. */
  function Due(h: Horizon, p: Purge): set<Tag> {
    match h
    case FirstPurge => if p.owed then p.remaining else {}
    case SecondPurge => if p.queued then p.remaining else p.all
  }

  /** Some purge is still going to delete the entries with these tags. */
  ghost predicate PurgeToCome(h: Horizon, s: State, tags: set<Tag>) {
    exists p, t :: p in s.purges && t in Due(h, p) && t in tags
  }

  predicate IsCurrent(routes: Routes, s: State, b: Body) {
    b.seen == Seen(routes(b.path), s.db)
  }

  // ---- runs

  ghost predicate IsStart(s: State) {
    s.cache == Cache(map[], map[]) && s.flights == multiset{} && s.purges == multiset{} && s.taken == 0
  }

  ghost predicate IsRun(routes: Routes, states: seq<State>, steps: seq<Step>) {
    && |states| == |steps| + 1 && IsStart(states[0])
    && forall i | 0 <= i < |steps| ::
         Enabled(steps[i], states[i]) && states[i + 1] == Apply(routes, steps[i], states[i])
  }

  /** Requests are unambiguous. */
  predicate IsCleanStep(step: Step) {
    step.Compute? ==> Clean(step.request)
  }

  ghost predicate IsCleanRun(routes: Routes, states: seq<State>, steps: seq<Step>) {
    IsRun(routes, states, steps) && forall i | 0 <= i < |steps| :: IsCleanStep(steps[i])
  }

  predicate CountsOn(h: Horizon, p: Purge) {
    if h.FirstPurge? then p.owed else p.queued
  }

  /** The purge that is counted on deletes a tag of the route. */
  predicate Overtakes(h: Horizon, routes: Routes, step: Step, path: string) {
    step.DeleteTag? && step.tag in routes(path).tags && CountsOn(h, step.purge)
  }

  /** Since the handler ran, no such delete has happened. */
  ghost predicate IsInTime(h: Horizon, routes: Routes, past: seq<Step>, f: Flight) {
    forall k | f.since < k < |past| :: !Overtakes(h, routes, past[k], f.request.path)
  }

  /** The condition on runs, step by step: requests are unambiguous, and what a covered route stores has not been
      overtaken by such a delete. */
  ghost predicate Admissible(h: Horizon, routes: Routes, past: seq<Step>, step: Step) {
    && IsCleanStep(step)
    && (step.Store? && Covered(routes(step.flight.request.path)) ==> IsInTime(h, routes, past, step.flight))
  }

  ghost predicate IsAdmissibleRun(h: Horizon, routes: Routes, states: seq<State>, steps: seq<Step>) {
    IsRun(routes, states, steps) && forall i | 0 <= i < |steps| :: Admissible(h, routes, steps[..i], steps[i])
  }

  // ---- what every clean run keeps

  ghost predicate FlightIsSound(routes: Routes, f: Flight) {
    && Clean(f.request) && f.body.path == f.request.path && f.body.query == AsMap(f.request.query)
    && f.body.seen.Keys <= routes(f.body.path).models
  }

  ghost predicate IsKeyOf(key: string, b: Body) {
    exists q :: IsClean(b.path, q) && AsMap(q) == b.query && key == BuildCacheKey(b.path, q)
  }

  ghost predicate EntryIsSound(routes: Routes, key: string, e: Entry<Body>) {
    IsKeyOf(key, e.body) && e.tags == TagSet(routes(e.body.path).tags) && e.body.seen.Keys <= routes(e.body.path).models
  }

  ghost predicate WellFormed(routes: Routes, s: State) {
    && Indexed(s.cache)
    && (forall f | f in s.flights :: FlightIsSound(routes, f))
    && (forall k | k in s.cache.entries :: EntryIsSound(routes, k, s.cache.entries[k]))
    && (forall p | p in s.purges :: p.remaining <= p.all)
  }

  lemma StoreKeepsForm(routes: Routes, s: State, f: Flight)
    requires WellFormed(routes, s) && f in s.flights
    ensures WellFormed(routes, Apply(routes, Store(f), s))
  {
    hide BuildCacheKey, IsClean, AsMap, GetModelTags, Indexed, AddMembers;
    WithEntryIsIndexed(s.cache, KeyOf(f.request), f.body, routes(f.request.path).tags, s.now + CACHE_L2_TTL_SECONDS);
    assert FlightIsSound(routes, f);
  }

  lemma ComputeKeepsForm(routes: Routes, s: State, request: Request)
    requires WellFormed(routes, s) && Clean(request)
    ensures WellFormed(routes, Apply(routes, Compute(request), s))
  {
    hide Clean, EntryIsSound, Indexed;
  }

  /** Part of the cache and of the flights is as well-formed as all of it. */
  lemma PartKeepsForm(routes: Routes, s: State, s': State)
    requires WellFormed(routes, s) && Indexed(s'.cache) && s'.flights <= s.flights
    requires forall k | k in s'.cache.entries :: k in s.cache.entries && s'.cache.entries[k] == s.cache.entries[k]
    requires forall p | p in s'.purges :: p.remaining <= p.all
    ensures WellFormed(routes, s')
  {
    hide EntryIsSound, FlightIsSound, Indexed;
  }

  lemma PurgesKeepForm(s: State, step: Step, routes: Routes)
    requires (forall p | p in s.purges :: p.remaining <= p.all) && Enabled(step, s)
    ensures forall p | p in Apply(routes, step, s).purges :: p.remaining <= p.all
  {
    hide GetModelTags, WithEntry, WithoutTag, Handle, Clean;
  }

  lemma OtherStepKeepsForm(routes: Routes, s: State, step: Step)
    requires WellFormed(routes, s) && Enabled(step, s) && !step.Compute? && !step.Store?
    ensures WellFormed(routes, Apply(routes, step, s))
  {
    PurgesKeepForm(s, step, routes);
    if step.DeleteTag? { WithoutTagIsClean(s.cache, step.tag); }
    EmptyIsIndexed();
    hide WellFormed, Indexed, GetModelTags;
    PartKeepsForm(routes, s, Apply(routes, step, s));
  }

  lemma EmptyIsIndexed()
    ensures Indexed<Body>(Cache(map[], map[]))
  {
  }

  lemma StepKeepsForm(routes: Routes, s: State, step: Step)
    requires WellFormed(routes, s) && Enabled(step, s) && IsCleanStep(step)
    ensures WellFormed(routes, Apply(routes, step, s))
  {
    hide WellFormed, Apply, Clean;
    match step
    case Compute(request) => ComputeKeepsForm(routes, s, request);
    case Store(f) => StoreKeepsForm(routes, s, f);
    case _ => OtherStepKeepsForm(routes, s, step);
  }

  lemma {:induction false} RunIsWellFormed(routes: Routes, states: seq<State>, steps: seq<Step>)
    requires IsCleanRun(routes, states, steps)
    ensures WellFormed(routes, states[|steps|])
  {
    hide IsCleanStep, Enabled, Apply;
    if steps != [] {
      hide WellFormed;
      var n := |steps| - 1;
      RunIsWellFormed(routes, states[..n + 1], steps[..n]);
      StepKeepsForm(routes, states[n], steps[n]);
    }
  }

  // ---- what every admissible run keeps

  /** A body of a covered route is current, or a purge that will remove it is still to come. */
  ghost predicate IsFresh(h: Horizon, routes: Routes, s: State, b: Body) {
    Covered(routes(b.path)) ==> IsCurrent(routes, s, b) || PurgeToCome(h, s, TagSet(routes(b.path).tags))
  }

  /** A write makes the bodies that read the model stale, and brings a purge for each covered one. */
  lemma WriteKeepsFresh(h: Horizon, routes: Routes, s: State, m: Model, v: int, b: Body)
    requires IsFresh(h, routes, s, b)
    ensures IsFresh(h, routes, Apply(routes, Write(m, v), s), b)
  {
    hide GetModelTags;
    var s' := Apply(routes, Write(m, v), s);
    var tags := TagSet(GetModelTags(m));
    var r := routes(b.path);
    if Covered(r) {
      if m in r.models {
        var t :| t in GetModelTags(m) && t in r.tags;
        var p := Purge(tags, tags, false, true);
        assert tags != {} by { assert t in tags; }
        assert s'.purges == s.purges + multiset{p};
        assert p in s'.purges && t in Due(h, p) && t in TagSet(r.tags);
      } else {
        assert Seen(r, s'.db) == Seen(r, s.db);
        if PurgeToCome(h, s, TagSet(r.tags)) { PurgeStaysDue(h, s, s', TagSet(r.tags)); }
      }
    }
  }

  lemma PurgeStaysDue(h: Horizon, s: State, s': State, tags: set<Tag>)
    requires PurgeToCome(h, s, tags) && s.purges <= s'.purges
    ensures PurgeToCome(h, s', tags)
  {
    var p, t :| p in s.purges && t in Due(h, p) && t in tags;
    assert p in s'.purges;
  }

  /** A step of a purge leaves what is to come to come, unless it is the delete of one of these tags that was
      counted on. */
  lemma PurgeStepKeepsDue(h: Horizon, routes: Routes, s: State, step: Step, tags: set<Tag>)
    requires PurgeToCome(h, s, tags) && Enabled(step, s) && forall p | p in s.purges :: p.remaining <= p.all
    requires step.Finish? || step.FailInline? || (step.DeleteTag? && !(CountsOn(h, step.purge) && step.tag in tags))
    ensures PurgeToCome(h, Apply(routes, step, s), tags)
  {
    var s' := Apply(routes, step, s);
    var p0, t0 :| p0 in s.purges && t0 in Due(h, p0) && t0 in tags;
    var p1 := if p0 != step.purge then p0
              else if step.DeleteTag? then p0.(remaining := p0.remaining - {step.tag})
              else Purge(p0.all, p0.all, true, step.FailInline?);
    assert p1 in s'.purges && t0 in Due(h, p1);
  }

  /** Only a delete that was counted on can leave a stale body with nothing to remove it. */
  lemma StepKeepsFresh(h: Horizon, routes: Routes, s: State, step: Step, b: Body)
    requires IsFresh(h, routes, s, b) && Enabled(step, s) && !Overtakes(h, routes, step, b.path)
    requires forall p | p in s.purges :: p.remaining <= p.all
    ensures IsFresh(h, routes, Apply(routes, step, s), b)
  {
    hide Covered, GetModelTags, Enabled;
    var s' := Apply(routes, step, s);
    var tags := TagSet(routes(b.path).tags);
    match step {
      case Write(m, v) => WriteKeepsFresh(h, routes, s, m, v, b);
      case DeleteTag(_, _) => if PurgeToCome(h, s, tags) { PurgeStepKeepsDue(h, routes, s, step, tags); }
      case Finish(_) => if PurgeToCome(h, s, tags) { PurgeStepKeepsDue(h, routes, s, step, tags); }
      case FailInline(_) => if PurgeToCome(h, s, tags) { PurgeStepKeepsDue(h, routes, s, step, tags); }
      case _ => if PurgeToCome(h, s, tags) { PurgeStaysDue(h, s, s', tags); }
    }
  }

  ghost predicate FlightIsFresh(h: Horizon, routes: Routes, s: State, past: seq<Step>, f: Flight) {
    f.since < |past| && (IsInTime(h, routes, past, f) ==> IsFresh(h, routes, s, f.body))
  }

  /** After the steps `past`: whatever is stored, and whatever is in flight and in time, is fresh. */
  ghost predicate Sound(h: Horizon, routes: Routes, s: State, past: seq<Step>) {
    && WellFormed(routes, s) && s.taken == |past|
    && (forall f | f in s.flights :: FlightIsFresh(h, routes, s, past, f))
    && (forall k | k in s.cache.entries :: IsFresh(h, routes, s, s.cache.entries[k].body))
  }

  lemma FlightStaysFresh(h: Horizon, routes: Routes, s: State, past: seq<Step>, step: Step, f: Flight)
    requires FlightIsFresh(h, routes, s, past, f) && FlightIsSound(routes, f) && Enabled(step, s)
    requires forall p | p in s.purges :: p.remaining <= p.all
    ensures FlightIsFresh(h, routes, Apply(routes, step, s), past + [step], f)
  {
    hide IsFresh, Enabled, Overtakes, Clean;
    if IsInTime(h, routes, past + [step], f) {
      assert forall k | f.since < k < |past| :: (past + [step])[k] == past[k];
      assert (past + [step])[|past|] == step;
      StepKeepsFresh(h, routes, s, step, f.body);
    }
  }

  /** An entry that a step leaves in place is not overtaken by it: deleting a tag removes all entries with it. */
  lemma EntryStaysFresh(h: Horizon, routes: Routes, s: State, step: Step, key: string)
    requires WellFormed(routes, s) && Enabled(step, s) && !step.Store?
    requires key in s.cache.entries && IsFresh(h, routes, s, s.cache.entries[key].body)
             && key in Apply(routes, step, s).cache.entries
    ensures Apply(routes, step, s).cache.entries[key] == s.cache.entries[key]
    ensures IsFresh(h, routes, Apply(routes, step, s), s.cache.entries[key].body)
  {
    hide IsFresh, GetModelTags, IsKeyOf;
    assert EntryIsSound(routes, key, s.cache.entries[key]);
    if step.DeleteTag? { WithoutTagIsClean(s.cache, step.tag); }
    StepKeepsFresh(h, routes, s, step, s.cache.entries[key].body);
  }

  lemma StepKeepsSound(h: Horizon, routes: Routes, s: State, past: seq<Step>, step: Step)
    requires Sound(h, routes, s, past) && Enabled(step, s) && Admissible(h, routes, past, step)
    ensures Sound(h, routes, Apply(routes, step, s), past + [step])
  {
    hide WellFormed, IsFresh, FlightIsFresh, IsInTime, Enabled, Covered, Overtakes, GetModelTags;
    var s' := Apply(routes, step, s);
    StepKeepsForm(routes, s, step);
    forall f | f in s'.flights ensures FlightIsFresh(h, routes, s', past + [step], f) {
      if f in s.flights {
        FormOfFlight(routes, s, f);
        FlightStaysFresh(h, routes, s, past, step, f);
      } else {
        NewFlightIsFresh(h, routes, s, past, step.request);
      }
    }
    forall k | k in s'.cache.entries ensures IsFresh(h, routes, s', s'.cache.entries[k].body) {
      if step.Store? {
        StoredIsFresh(h, routes, s, past, step, k);
      } else {
        EntryStaysFresh(h, routes, s, step, k);
      }
    }
  }

  lemma FormOfFlight(routes: Routes, s: State, f: Flight)
    requires WellFormed(routes, s) && f in s.flights
    ensures FlightIsSound(routes, f) && forall p | p in s.purges :: p.remaining <= p.all
  {
  }

  lemma NewFlightIsFresh(h: Horizon, routes: Routes, s: State, past: seq<Step>, request: Request)
    requires s.taken == |past|
    ensures FlightIsFresh(h, routes, Apply(routes, Compute(request), s), past + [Compute(request)],
                          Flight(request, Handle(routes, request, s.db), s.taken))
  {
    hide Seen, Covered;
  }

  lemma StoredIsFresh(h: Horizon, routes: Routes, s: State, past: seq<Step>, step: Step, key: string)
    requires Sound(h, routes, s, past) && Enabled(step, s) && Admissible(h, routes, past, step) && step.Store?
    requires key in Apply(routes, step, s).cache.entries
    ensures IsFresh(h, routes, Apply(routes, step, s), Apply(routes, step, s).cache.entries[key].body)
  {
    hide WellFormed, Covered, GetModelTags, AddMembers, BuildCacheKey, IsInTime;
    var f := step.flight;
    FormOfFlight(routes, s, f);
    assert FlightIsFresh(h, routes, s, past, f);
    assert IsFresh(h, routes, s, f.body);
    var b := Apply(routes, step, s).cache.entries[key].body;
    assert IsFresh(h, routes, s, b);
    hide IsFresh;
    StepKeepsFresh(h, routes, s, step, b);
  }

  lemma StartIsSound(h: Horizon, routes: Routes, s: State)
    requires IsStart(s)
    ensures Sound(h, routes, s, [])
  {
    EmptyIsIndexed();
  }

  lemma {:induction false} RunIsSound(h: Horizon, routes: Routes, states: seq<State>, steps: seq<Step>)
    requires IsAdmissibleRun(h, routes, states, steps)
    ensures Sound(h, routes, states[|steps|], steps)
  {
    hide Sound, Admissible, Enabled, Apply, IsStart;
    if steps == [] {
      StartIsSound(h, routes, states[0]);
    } else {
      var n := |steps| - 1;
      assert forall i | 0 <= i < n :: steps[..n][..i] == steps[..i];
      RunIsSound(h, routes, states[..n + 1], steps[..n]);
      assert steps[..n] + [steps[n]] == steps;
      StepKeepsSound(h, routes, states[n], steps[..n], steps[n]);
    }
  }

  /** Whatever is served for a clean request was stored for the same path and query. */
  lemma HitIsForRequest(routes: Routes, s: State, request: Request)
    requires WellFormed(routes, s) && Clean(request) && Served(s, request).Some?
    ensures var b := Served(s, request).value;
            && b.path == request.path && b.query == AsMap(request.query) && b.seen.Keys <= routes(request.path).models
            && exists k :: k in s.cache.entries && s.cache.entries[k].body == b
  {
    hide BuildCacheKey, IsClean, AsMap, Indexed;
    var e := s.cache.entries[KeyOf(request)];
    assert EntryIsSound(routes, KeyOf(request), e);
    var q :| IsClean(e.body.path, q) && AsMap(q) == e.body.query && KeyOf(request) == BuildCacheKey(e.body.path, q);
    KeyIsInjective(request.path, request.query, e.body.path, q);
  }

  /** A hit is what the handler would compute now, unless a purge of one of its tags is still to come. */
  ghost predicate HitIsCurrent(h: Horizon, routes: Routes, s: State, request: Request) {
    Served(s, request).Some? && !PurgeToCome(h, s, TagSet(routes(request.path).tags))
    ==> Served(s, request).value == Handle(routes, request, s.db)
  }

  /** Coherence, for either horizon. In every admissible run, hits on covered routes are current: if no purge that a
      write owes overtakes a miss, as soon as those purges are over; if no queued purge does, as soon as these are. */
  lemma HitsAreCurrent(h: Horizon, routes: Routes, states: seq<State>, steps: seq<Step>, request: Request)
    requires IsAdmissibleRun(h, routes, states, steps) && Clean(request) && Covered(routes(request.path))
    ensures HitIsCurrent(h, routes, states[|steps|], request)
  {
    hide BuildCacheKey, IsClean, AsMap, WellFormed, Admissible, Seen, PurgeToCome;
    var s := states[|steps|];
    RunIsSound(h, routes, states, steps);
    if Served(s, request).Some? {
      HitIsForRequest(routes, s, request);
      assert IsFresh(h, routes, s, Served(s, request).value);
    }
  }

  // ---- coverage is needed

  /** One miss, stored, and then one write to model `m`. */
  function MissThenWrite(routes: Routes, request: Request, db: map<Model, int>, m: Model): (r: (seq<State>, seq<Step>))
    ensures |r.0| == 4 && |r.1| == 3
  {
    var f := Flight(request, Handle(routes, request, db), 0);
    var write := Write(m, if m in db then db[m] + 1 else 0);
    var s0 := State(db, 0, Cache(map[], map[]), multiset{}, multiset{}, 0);
    var s1 := Apply(routes, Compute(request), s0);
    var s2 := Apply(routes, Store(f), s1);
    ([s0, s1, s2, Apply(routes, write, s2)], [Compute(request), Store(f), write])
  }

  lemma MissThenWriteIsRun(h: Horizon, routes: Routes, request: Request, db: map<Model, int>, m: Model)
    requires Clean(request)
    ensures IsAdmissibleRun(h, routes, MissThenWrite(routes, request, db, m).0, MissThenWrite(routes, request, db, m).1)
  {
    hide BuildCacheKey, IsClean, AsMap, GetModelTags, Covered, WithEntry, Seen, Overtakes;
    var (states, steps) := MissThenWrite(routes, request, db, m);
    assert states[1].flights == multiset{Flight(request, Handle(routes, request, db), 0)};
    assert forall i | 0 <= i < 3 :: |steps[..i]| == i;
  }

  /** For a route that is not covered, one miss and one write make a stale hit that no purge will remove. */
  lemma UncoveredRouteGoesStale(h: Horizon, routes: Routes, request: Request, db: map<Model, int>, m: Model)
    requires m in routes(request.path).models && !Meets(GetModelTags(m), routes(request.path).tags)
    ensures !HitIsCurrent(h, routes, MissThenWrite(routes, request, db, m).0[3], request)
  {
    hide BuildCacheKey, AsMap, GetModelTags, AddMembers;
    var r := routes(request.path);
    var s := MissThenWrite(routes, request, db, m).0[3];
    assert s.cache.entries[KeyOf(request)].body == Handle(routes, request, db);
    assert m in Seen(r, s.db) && Seen(r, s.db)[m] == s.db[m];
    assert m in Seen(r, db) ==> Seen(r, db)[m] == db[m];
  }

  ghost predicate IsCoherent(h: Horizon, routes: Routes, path: string) {
    forall states, steps, request | IsAdmissibleRun(h, routes, states, steps) && Clean(request)
      && request.path == path ::
      HitIsCurrent(h, routes, states[|steps|], request)
  }

  /** For either horizon a route is coherent in every admissible run exactly when its tags cover the models it reads. */
  lemma CoherentIffCovered(h: Horizon, routes: Routes, path: string)
    requires '?' !in path
    ensures IsCoherent(h, routes, path) <==> Covered(routes(path))
  {
    if Covered(routes(path)) {
      forall states, steps, request | IsAdmissibleRun(h, routes, states, steps) && Clean(request)
        && request.path == path
        ensures HitIsCurrent(h, routes, states[|steps|], request)
      {
        HitsAreCurrent(h, routes, states, steps, request);
      }
    } else {
      hide BuildCacheKey, AsMap, GetModelTags, IsAdmissibleRun, HitIsCurrent, MissThenWrite;
      var m :| m in routes(path).models && !Meets(GetModelTags(m), routes(path).tags);
      var request := Request(path, []);
      var (states, steps) := MissThenWrite(routes, request, map[], m);
      MissThenWriteIsRun(h, routes, request, map[], m);
      UncoveredRouteGoesStale(h, routes, request, map[], m);
      assert |steps| == 3 && !HitIsCurrent(h, routes, states[|steps|], request);
    }
  }

  // ---- being in time is needed

  lemma Extend(routes: Routes, states: seq<State>, steps: seq<Step>, step: Step)
    returns (states': seq<State>, steps': seq<Step>)
    requires IsCleanRun(routes, states, steps) && Enabled(step, states[|steps|]) && IsCleanStep(step)
    ensures steps' == steps + [step] && states' == states + [Apply(routes, step, states[|steps|])]
    ensures |states'| == |steps'| + 1 && IsCleanRun(routes, states', steps')
  {
    hide Apply, Enabled, IsStart, IsCleanStep;
    states', steps' := states + [Apply(routes, step, states[|steps|])], steps + [step];
  }

  /** So far the race consists of a miss, a write that overtakes it, and steps of purges. */
  ghost predicate IsRace(states: seq<State>, steps: seq<Step>, request: Request, db: map<Model, int>, m: Model) {
    && |states| == |steps| + 1 && states[0].db == db
    && |steps| >= 2 && steps[0] == Compute(request) && steps[1].Write? && steps[1].model == m
    && forall i | 2 <= i < |steps| :: steps[i].DeleteTag? || steps[i].Finish?
  }

  /** The write has come, the miss is in flight, and these purges are under way. */
  ghost predicate IsOvertaken(s: State, f: Flight, db: map<Model, int>, purges: multiset<Purge>) {
    s.db == db && f in s.flights && s.purges == purges
  }

  lemma DeleteKeepsOvertaken(routes: Routes, s: State, f: Flight, db: map<Model, int>, p: Purge, t: Tag)
    requires IsOvertaken(s, f, db, multiset{p}) && t in p.remaining
    ensures Enabled(DeleteTag(p, t), s)
    ensures IsOvertaken(Apply(routes, DeleteTag(p, t), s), f, db, multiset{p.(remaining := p.remaining - {t})})
  {
  }

  lemma FinishKeepsOvertaken(routes: Routes, s: State, f: Flight, db: map<Model, int>, p: Purge)
    requires IsOvertaken(s, f, db, multiset{p}) && p.remaining == {}
    ensures Enabled(Finish(p), s)
    ensures IsOvertaken(Apply(routes, Finish(p), s), f, db,
                        if p.queued then multiset{} else multiset{Purge(p.all, p.all, true, false)})
  {
  }

  /** One purge runs to its end. */
  lemma PurgeRuns(routes: Routes, states: seq<State>, steps: seq<Step>, request: Request, db: map<Model, int>, m: Model,
                  f: Flight, after: map<Model, int>, p: Purge)
    returns (states': seq<State>, steps': seq<Step>)
    requires IsRace(states, steps, request, db, m) && IsCleanRun(routes, states, steps)
    requires IsOvertaken(states[|steps|], f, after, multiset{p})
    ensures IsRace(states', steps', request, db, m) && IsCleanRun(routes, states', steps')
    ensures IsOvertaken(states'[|steps'|], f, after,
                        if p.queued then multiset{} else multiset{Purge(p.all, p.all, true, false)})
  {
    hide IsCleanRun, IsOvertaken, Apply, Clean;
    var q := p;
    states', steps' := states, steps;
    while q.remaining != {}
      invariant q == p.(remaining := q.remaining)
      invariant IsRace(states', steps', request, db, m) && IsCleanRun(routes, states', steps')
      invariant IsOvertaken(states'[|steps'|], f, after, multiset{q})
      decreases |q.remaining|
    {
      var t :| t in q.remaining;
      DeleteKeepsOvertaken(routes, states'[|steps'|], f, after, q, t);
      states', steps' := Extend(routes, states', steps', DeleteTag(q, t));
      q := q.(remaining := q.remaining - {t});
    }
    FinishKeepsOvertaken(routes, states'[|steps'|], f, after, q);
    states', steps' := Extend(routes, states', steps', Finish(q));
  }

  /** A stale hit, and no purge of any kind is to come. */
  ghost predicate IsStaleForGood(routes: Routes, s: State, request: Request) {
    s.purges == multiset{} && Served(s, request).Some? && Served(s, request).value != Handle(routes, request, s.db)
  }

  lemma StaleForGoodIsNotCurrent(h: Horizon, routes: Routes, s: State, request: Request)
    requires IsStaleForGood(routes, s, request)
    ensures !HitIsCurrent(h, routes, s, request)
  {
    hide Served, Handle;
  }

  /** For every route that reads some model, every clean request and every database there is a run: a miss, a write,
      the purge that the write runs, the queued one that repeats it, and only then the `set` of the miss. It ends in a
      stale hit with no purge of any kind to come, however the tags are chosen. */
  lemma RaceGoesStale(routes: Routes, request: Request, db: map<Model, int>, m: Model)
    returns (states: seq<State>, steps: seq<Step>)
    requires Clean(request) && m in routes(request.path).models
    ensures |steps| > 2 && |states| == |steps| + 1 && IsCleanRun(routes, states, steps)
    ensures IsRace(states[..|steps|], steps[..|steps| - 1], request, db, m)
    ensures steps[|steps| - 1].Store? && steps[|steps| - 1].flight.request == request
    ensures IsStaleForGood(routes, states[|steps|], request)
  {
    hide IsCleanRun, GetModelTags, Clean, Apply, IsOvertaken, Handle, IsStaleForGood;
    var v := if m in db then db[m] + 1 else 0;
    var f := Flight(request, Handle(routes, request, db), 0);
    var tags := TagSet(GetModelTags(m));
    states, steps := StartOfRace(routes, request, db, m, v);
    if tags != {} {
      states, steps := PurgeRuns(routes, states, steps, request, db, m, f, db[m := v], Purge(tags, tags, false, true));
      states, steps := PurgeRuns(routes, states, steps, request, db, m, f, db[m := v], Purge(tags, tags, true, false));
    }
    OvertakenStoreIsStale(routes, states[|steps|], f, m, v, db);
    ghost var states0, steps0 := states, steps;
    states, steps := Extend(routes, states, steps, Store(f));
    assert states[..|steps|] == states0 && steps[..|steps| - 1] == steps0;
  }

  lemma WriteOvertakesMiss(routes: Routes, s: State, request: Request, m: Model, v: int)
    requires s.flights == multiset{} && s.purges == multiset{} && s.taken == 0
    ensures var tags := TagSet(GetModelTags(m));
            IsOvertaken(Apply(routes, Write(m, v), Apply(routes, Compute(request), s)),
                        Flight(request, Handle(routes, request, s.db), 0), s.db[m := v],
                        if tags != {} then multiset{Purge(tags, tags, false, true)} else multiset{})
  {
    hide GetModelTags, Handle;
  }

  lemma StartIsRun(routes: Routes, s: State)
    requires IsStart(s)
    ensures IsCleanRun(routes, [s], [])
  {
  }

  lemma NothingIsServed(s: State, request: Request)
    requires s.cache.entries == map[]
    ensures Enabled(Compute(request), s)
  {
  }

  lemma WritesAreEnabled(m: Model, v: int, s: State)
    ensures Enabled(Write(m, v), s)
  {
  }

  lemma StartOfRace(routes: Routes, request: Request, db: map<Model, int>, m: Model, v: int)
    returns (states: seq<State>, steps: seq<Step>)
    requires Clean(request)
    ensures steps == [Compute(request), Write(m, v)] && IsRace(states, steps, request, db, m)
    ensures IsCleanRun(routes, states, steps)
    ensures var tags := TagSet(GetModelTags(m));
            IsOvertaken(states[2], Flight(request, Handle(routes, request, db), 0), db[m := v],
                        if tags != {} then multiset{Purge(tags, tags, false, true)} else multiset{})
  {
    hide Clean, GetModelTags, Handle, IsCleanRun, Enabled, Apply, IsOvertaken;
    var s := State(db, 0, Cache(map[], map[]), multiset{}, multiset{}, 0);
    WriteOvertakesMiss(routes, s, request, m, v);
    assert IsCleanRun(routes, [s], []) by { StartIsRun(routes, s); }
    assert Enabled(Compute(request), s) by { NothingIsServed(s, request); }
    states, steps := Extend(routes, [s], [], Compute(request));
    assert Enabled(Write(m, v), states[1]) by { WritesAreEnabled(m, v, states[1]); }
    states, steps := Extend(routes, states, steps, Write(m, v));
  }

  /** Storing a body that a write and all its purges have overtaken makes the very next request a stale hit. */
  lemma OvertakenStoreIsStale(routes: Routes, s: State, f: Flight, m: Model, v: int, db: map<Model, int>)
    requires IsOvertaken(s, f, db[m := v], multiset{})
    requires f.body == Handle(routes, f.request, db) && m in routes(f.request.path).models && (m in db ==> v != db[m])
    ensures Enabled(Store(f), s) && IsStaleForGood(routes, Apply(routes, Store(f), s), f.request)
  {
    hide BuildCacheKey, AsMap, AddMembers;
    var r := routes(f.request.path);
    var s' := Apply(routes, Store(f), s);
    assert Served(s', f.request) == Some(f.body);
    assert m in Seen(r, s'.db) && Seen(r, s'.db)[m] == v;
    assert m in Seen(r, db) ==> Seen(r, db)[m] == db[m];
  }

  ghost predicate IsAlwaysCoherent(h: Horizon, routes: Routes, path: string) {
    forall states, steps, request | IsCleanRun(routes, states, steps) && Clean(request) && request.path == path ::
      HitIsCurrent(h, routes, states[|steps|], request)
  }

  /** Without the condition on runs only the routes that read nothing are coherent, for either horizon. */
  lemma AlwaysCoherentIffNothingRead(h: Horizon, routes: Routes, path: string)
    requires '?' !in path
    ensures IsAlwaysCoherent(h, routes, path) <==> routes(path).models == {}
  {
    hide BuildCacheKey, AsMap, IsCleanStep, WellFormed;
    if routes(path).models == {} {
      forall states, steps, request | IsCleanRun(routes, states, steps) && Clean(request) && request.path == path
        ensures HitIsCurrent(h, routes, states[|steps|], request)
      {
        var s := states[|steps|];
        RunIsWellFormed(routes, states, steps);
        if Served(s, request).Some? {
          HitIsForRequest(routes, s, request);
          assert Served(s, request).value.seen == map[] == Seen(routes(path), s.db);
        }
      }
    } else {
      hide IsStaleForGood, HitIsCurrent, IsCleanRun;
      var m :| m in routes(path).models;
      var states, steps := RaceGoesStale(routes, Request(path, []), map[], m);
      StaleForGoodIsNotCurrent(h, routes, states[|steps|], Request(path, []));
    }
  }

  // ---- how old a hit can be

  /** Step `j` stored this body under the key of the request, less than an hour ago, and since then nothing has stored
      another one there, deleted a tag of its route, or emptied the cache. */
  ghost predicate IsSource(routes: Routes, states: seq<State>, steps: seq<Step>, key: string, body: Body, j: nat)
    requires |states| == |steps| + 1
  {
    && j < |steps| && steps[j].Store? && steps[j].flight.body == body && KeyOf(steps[j].flight.request) == key
    && states[|steps|].now < states[j].now + 3600
    && forall i | j < i < |steps| ::
         && !steps[i].PurgeAll?
         && (steps[i].Store? ==> KeyOf(steps[i].flight.request) != key)
         && (steps[i].DeleteTag? ==> steps[i].tag !in routes(steps[j].flight.request.path).tags)
  }

  /** Step `j` made the entry. */
  ghost predicate IsOrigin(routes: Routes, states: seq<State>, steps: seq<Step>, key: string, e: Entry<Body>, j: nat)
    requires |states| == |steps| + 1
  {
    && j < |steps| && steps[j].Store? && KeyOf(steps[j].flight.request) == key
    && e == Entry(steps[j].flight.body, TagSet(routes(steps[j].flight.request.path).tags), states[j].now + 3600)
    && forall i | j < i < |steps| ::
         && !steps[i].PurgeAll?
         && (steps[i].Store? ==> KeyOf(steps[i].flight.request) != key)
         && (steps[i].DeleteTag? ==> steps[i].tag !in e.tags)
  }

  /** What one step can do to an entry. */
  lemma EntryAfterStep(routes: Routes, s: State, step: Step, key: string)
    requires Indexed(s.cache) && Enabled(step, s) && key in Apply(routes, step, s).cache.entries
    ensures var e := Apply(routes, step, s).cache.entries[key];
            if step.Store? && KeyOf(step.flight.request) == key then
              e == Entry(step.flight.body, TagSet(routes(step.flight.request.path).tags), s.now + 3600)
            else
              && key in s.cache.entries && e == s.cache.entries[key]
              && !step.PurgeAll? && (step.DeleteTag? ==> step.tag !in e.tags)
  {
    hide BuildCacheKey, GetModelTags, AddMembers, Indexed;
    if step.DeleteTag? { WithoutTagIsClean(s.cache, step.tag); }
  }

  lemma {:induction false} EntryHasOrigin(routes: Routes, states: seq<State>, steps: seq<Step>, key: string)
    requires IsRun(routes, states, steps) && key in states[|steps|].cache.entries
    ensures Indexed(states[|steps|].cache)
    ensures exists j :: IsOrigin(routes, states, steps, key, states[|steps|].cache.entries[key], j)
  {
    hide Enabled, Apply, KeyOf, Indexed;
    RunIsIndexed(routes, states, steps);
    if steps != [] {
      var n := |steps| - 1;
      RunIsIndexed(routes, states[..n + 1], steps[..n]);
      EntryAfterStep(routes, states[n], steps[n], key);
      var e := states[|steps|].cache.entries[key];
      if steps[n].Store? && KeyOf(steps[n].flight.request) == key {
        assert IsOrigin(routes, states, steps, key, e, n);
      } else {
        EntryHasOrigin(routes, states[..n + 1], steps[..n], key);
        var j :| IsOrigin(routes, states[..n + 1], steps[..n], key, e, j);
        OriginStays(routes, states, steps, key, e, j);
      }
    }
  }

  lemma OriginStays(routes: Routes, states: seq<State>, steps: seq<Step>, key: string, e: Entry<Body>, j: nat)
    requires |states| == |steps| + 1 && steps != []
    requires IsOrigin(routes, states[..|steps|], steps[..|steps| - 1], key, e, j)
    requires var last := steps[|steps| - 1];
             && !last.PurgeAll? && (last.Store? ==> KeyOf(last.flight.request) != key)
             && (last.DeleteTag? ==> last.tag !in e.tags)
    ensures IsOrigin(routes, states, steps, key, e, j)
  {
    hide KeyOf;
    assert forall i | 0 <= i < |steps| - 1 :: steps[..|steps| - 1][i] == steps[i];
  }

  lemma {:induction false} RunIsIndexed(routes: Routes, states: seq<State>, steps: seq<Step>)
    requires IsRun(routes, states, steps)
    ensures Indexed(states[|steps|].cache)
    ensures steps == [] ==> states[0].cache.entries == map[]
  {
    hide Enabled, Apply, Indexed;
    EmptyIsIndexed();
    if steps != [] {
      var n := |steps| - 1;
      RunIsIndexed(routes, states[..n + 1], steps[..n]);
      StepKeepsIndexed(routes, states[n], steps[n]);
    }
  }

  lemma StepKeepsIndexed(routes: Routes, s: State, step: Step)
    requires Indexed(s.cache) && Enabled(step, s)
    ensures Indexed(Apply(routes, step, s).cache)
  {
    hide BuildCacheKey, GetModelTags, Indexed;
    EmptyIsIndexed();
    if step.DeleteTag? { WithoutTagIsClean(s.cache, step.tag); }
    if step.Store? {
      var f := step.flight;
      WithEntryIsIndexed(s.cache, KeyOf(f.request), f.body, routes(f.request.path).tags, s.now + CACHE_L2_TTL_SECONDS);
    }
  }

  /** In every run at all, overtaken or not and for every route, a hit was stored less than an hour ago, and no purge of
      its tags has come since. */
  lemma HitsAreLessThanAnHourOld(routes: Routes, states: seq<State>, steps: seq<Step>, request: Request)
    requires IsRun(routes, states, steps) && Served(states[|steps|], request).Some?
    ensures exists j ::
              IsSource(routes, states, steps, KeyOf(request), Served(states[|steps|], request).value, j)
  {
    EntryHasOrigin(routes, states, steps, KeyOf(request));
    hide KeyOf, IsRun;
    var e := states[|steps|].cache.entries[KeyOf(request)];
    var j :| IsOrigin(routes, states, steps, KeyOf(request), e, j);
    assert IsSource(routes, states, steps, KeyOf(request), e.body, j);
  }

  /** And a stored body is a hit until then: after so many seconds, and other requests and writes. */
  lemma StoredIsServed(routes: Routes, s: State, f: Flight, seconds: nat)
    requires f in s.flights
    ensures var s' := Apply(routes, Tick(seconds), Apply(routes, Store(f), s));
            Served(s', f.request) == if seconds < 3600 then Some(f.body) else None
  {
    hide BuildCacheKey, AddMembers;
  }
}
