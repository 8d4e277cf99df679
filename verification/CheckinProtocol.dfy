/** Check-in at one event (`src/events`): requests in flight take their steps in any order over the check-in
    rows, the replay keys in Redis and the clock. */
module CheckinProtocol {
  import opened Sets
  import opened Text

  type Id = string

  const CHECKIN_TOKEN_TTL_SECONDS: nat := 86400 * 7

  /** The claims of a pass; `iat` and `exp` are in seconds. */
  datatype Token = Token(jti: string, member: Id, iat: nat, exp: nat)

  function SignCheckinToken(jti: string, member: Id, nowMs: nat): Token {
    Token(jti, member, nowMs / 1000, nowMs / 1000 + CHECKIN_TOKEN_TTL_SECONDS)
  }

  /** The expiry test of `verifyCheckinToken`: an `exp` of zero counts as none. */
  predicate Verifies(token: Token, nowMs: nat) {
    !(token.exp != 0 && token.exp < nowMs / 1000)
  }

  datatype Who = ByToken(token: Token) | ByMember(member: Id) | WalkIn

  /** Where a request is inside `checkin`. */
  datatype Pc = Begun | Verified(at: nat) | Resolved | Looked | Counted

  datatype Flight = Flight(who: Who, pc: Pc)

  /** `rows` are the check-ins of the event, walk-ins having no member; `replay` says when each replay key
      expires; `passes` and `made` count, pass by pass, the scans let through and the rows created. */
  datatype State = State(
    now: nat,
    rows: map<nat, Option<Id>>,
    replay: map<string, nat>,
    flights: map<nat, Flight>,
    passes: map<string, nat>,
    made: map<string, nat>)

  /** `latency` bounds the time between verifying a pass and setting its replay key. */
  datatype Config = Config(capacity: Option<nat>, redis: bool, latency: nat)

  datatype Step =
    | Tick(ms: nat)
    | Begin(r: nat, who: Who)
    | Verify(r: nat)
    | SetReplayKey(r: nat)
    | Resolve(r: nat)
    | Look(r: nat)
    | Count(r: nat)
    | Create(r: nat, row: nat)
    | Reject(r: nat)      // unknown member, no permission, or any other error
    | Remove(row: nat)    // removeCheckin

  function MemberOf(who: Who): Option<Id> {
    match who
    case ByToken(t) => Some(t.member)
    case ByMember(m) => Some(m)
    case WalkIn => None
  }

  predicate HasRow(s: State, member: Option<Id>) {
    member.Some? && exists row | row in s.rows :: s.rows[row] == member
  }

  predicate KeyIsSet(s: State, jti: string) {
    jti in s.replay && s.now < s.replay[jti]
  }

  predicate Enabled(cfg: Config, step: Step, s: State) {
    match step
    case Tick(_) => true
    case Begin(r, _) => r !in s.flights
    case Verify(r) =>
      r in s.flights && s.flights[r].who.ByToken? && s.flights[r].pc == Begun && Verifies(s.flights[r].who.token, s.now)
    case SetReplayKey(r) =>
      && r in s.flights && s.flights[r].who.ByToken? && s.flights[r].pc.Verified?
      && cfg.redis && s.now <= s.flights[r].pc.at + cfg.latency
    case Resolve(r) => r in s.flights && !s.flights[r].who.ByToken? && s.flights[r].pc == Begun
    case Look(r) => r in s.flights && s.flights[r].pc == Resolved
    case Count(r) => r in s.flights && s.flights[r].pc == Looked
    case Create(r, row) => r in s.flights && s.flights[r].pc == Counted && row !in s.rows
    case Reject(r) => r in s.flights
    case Remove(row) => row in s.rows
  }

  function Tally(m: map<string, nat>, jti: string): nat {
    if jti in m then m[jti] else 0
  }

  function Bump(m: map<string, nat>, who: Who): map<string, nat> {
    if who.ByToken? then m[who.token.jti := Tally(m, who.token.jti) + 1] else m
  }

  function At(s: State, r: nat, pc: Pc): State
    requires r in s.flights
  {
    s.(flights := s.flights[r := s.flights[r].(pc := pc)])
  }

  function End(s: State, r: nat): State {
    s.(flights := s.flights - {r})
  }

  function Apply(cfg: Config, step: Step, s: State): State
    requires Enabled(cfg, step, s)
  {
    match step
    case Tick(ms) => s.(now := s.now + ms)
    case Begin(r, who) => s.(flights := s.flights[r := Flight(who, Begun)])
    case Verify(r) => At(s, r, if cfg.redis then Verified(s.now) else Resolved)
    case SetReplayKey(r) =>
      var t := s.flights[r].who.token;
      if KeyIsSet(s, t.jti) then End(s, r)
      else At(s.(replay := s.replay[t.jti := s.now + CHECKIN_TOKEN_TTL_SECONDS * 1000],
                 passes := Bump(s.passes, s.flights[r].who)), r, Resolved)
    case Resolve(r) => At(s, r, Resolved)
    case Look(r) => if HasRow(s, MemberOf(s.flights[r].who)) then End(s, r) else At(s, r, Looked)
    case Count(r) => if cfg.capacity.None? || |s.rows| < cfg.capacity.value then At(s, r, Counted) else End(s, r)
    case Create(r, row) =>
      var who := s.flights[r].who;
      if HasRow(s, MemberOf(who)) then End(s, r)  // the unique key [eventId, memberId] refuses the row
      else End(s.(rows := s.rows[row := MemberOf(who)], made := Bump(s.made, who)), r)
    case Reject(r) => End(s, r)
    case Remove(row) => s.(rows := s.rows - {row})
  }

  ghost predicate IsStart(s: State) {
    s.rows == map[] && s.replay == map[] && s.flights == map[] && s.passes == map[] && s.made == map[]
  }

  /** A run with never more than `k` requests in flight. */
  ghost predicate IsRun(cfg: Config, k: nat, states: seq<State>, steps: seq<Step>) {
    && |states| == |steps| + 1 && IsStart(states[0])
    && (forall i | 0 <= i < |states| :: |states[i].flights| <= k)
    && forall i | 0 <= i < |steps| ::
       Enabled(cfg, steps[i], states[i]) && states[i + 1] == Apply(cfg, steps[i], states[i])
  }

  // ---- capacity

  function CountedFlights(s: State): set<nat> {
    set r | r in s.flights && s.flights[r].pc == Counted
  }

  ghost predicate OneRowPerMember(rows: map<nat, Option<Id>>) {
    forall a, b | a in rows && b in rows && rows[a].Some? && rows[a] == rows[b] :: a == b
  }

  ghost predicate CapacityInv(c: nat, k: nat, s: State) {
    |s.rows| + |CountedFlights(s)| <= c + k - 1 && OneRowPerMember(s.rows)
  }

  lemma CountKeepsCapacity(cfg: Config, k: nat, r: nat, s: State)
    requires cfg.capacity.Some? && |s.flights| <= k && CapacityInv(cfg.capacity.value, k, s)
             && Enabled(cfg, Count(r), s)
    ensures CapacityInv(cfg.capacity.value, k, Apply(cfg, Count(r), s))
  {
    hide OneRowPerMember;
    var s' := Apply(cfg, Count(r), s);
    if |s.rows| < cfg.capacity.value {
      assert s'.flights.Keys == s.flights.Keys;
      SubsetIsNoLarger(CountedFlights(s'), s.flights.Keys);
    } else {
      SubsetIsNoLarger(CountedFlights(s'), CountedFlights(s));
    }
  }

  lemma RowAdded(s: State, row: nat, member: Option<Id>)
    requires OneRowPerMember(s.rows) && row !in s.rows && !HasRow(s, member)
    ensures OneRowPerMember(s.rows[row := member]) && |s.rows[row := member]| == |s.rows| + 1
  {
  }

  lemma CountedEnds(s: State, r: nat)
    requires r in s.flights && s.flights[r].pc == Counted
    ensures |CountedFlights(End(s, r))| == |CountedFlights(s)| - 1
  {
    assert CountedFlights(End(s, r)) == CountedFlights(s) - {r} && r in CountedFlights(s);
  }

  lemma CreateKeepsCapacity(cfg: Config, k: nat, r: nat, row: nat, s: State)
    requires cfg.capacity.Some? && CapacityInv(cfg.capacity.value, k, s) && Enabled(cfg, Create(r, row), s)
    ensures CapacityInv(cfg.capacity.value, k, Apply(cfg, Create(r, row), s))
  {
    CountedEnds(s, r);
    var who, s' := s.flights[r].who, Apply(cfg, Create(r, row), s);
    assert CountedFlights(s') == CountedFlights(End(s, r));
    hide OneRowPerMember, HasRow, CountedFlights;
    if !HasRow(s, MemberOf(who)) { RowAdded(s, row, MemberOf(who)); }
  }

  /** The other steps create no row and let nobody past the gate. */
  lemma OtherStepKeepsCapacity(cfg: Config, k: nat, step: Step, s: State)
    requires cfg.capacity.Some? && CapacityInv(cfg.capacity.value, k, s) && Enabled(cfg, step, s)
    requires !step.Count? && !step.Create?
    ensures CapacityInv(cfg.capacity.value, k, Apply(cfg, step, s))
  {
    var s' := Apply(cfg, step, s);
    assert s'.rows.Keys <= s.rows.Keys && forall row | row in s'.rows :: s'.rows[row] == s.rows[row];
    assert CountedFlights(s') <= CountedFlights(s);
    SubsetIsNoLarger(s'.rows.Keys, s.rows.Keys);
    SubsetIsNoLarger(CountedFlights(s'), CountedFlights(s));
  }

  lemma StepKeepsCapacity(cfg: Config, k: nat, step: Step, s: State)
    requires cfg.capacity.Some? && |s.flights| <= k && CapacityInv(cfg.capacity.value, k, s) && Enabled(cfg, step, s)
    ensures CapacityInv(cfg.capacity.value, k, Apply(cfg, step, s))
  {
    match step
    case Count(r) => CountKeepsCapacity(cfg, k, r, s);
    case Create(r, row) => CreateKeepsCapacity(cfg, k, r, row, s);
    case _ => OtherStepKeepsCapacity(cfg, k, step, s);
  }

  lemma {:induction false} RunKeepsCapacity(cfg: Config, k: nat, states: seq<State>, steps: seq<Step>, n: nat)
    requires cfg.capacity.Some? && k >= 1 && IsRun(cfg, k, states, steps) && n <= |steps|
    ensures CapacityInv(cfg.capacity.value, k, states[n])
  {
    if n == 0 {
      assert CountedFlights(states[0]) == {};
    } else {
      RunKeepsCapacity(cfg, k, states, steps, n - 1);
      StepKeepsCapacity(cfg, k, steps[n - 1], states[n - 1]);
    }
  }

  /** With capacity c and at most k requests in flight, there are never more than c + k - 1 check-ins, and
      never two for one member. With one request at a time the capacity is exact. */
  lemma CapacityIsAlmostKept(cfg: Config, k: nat, states: seq<State>, steps: seq<Step>, n: nat)
    requires cfg.capacity.Some? && k >= 1 && IsRun(cfg, k, states, steps) && n <= |steps|
    ensures |states[n].rows| <= cfg.capacity.value + k - 1
    ensures OneRowPerMember(states[n].rows)
  {
    RunKeepsCapacity(cfg, k, states, steps, n);
  }

  // ---- the bound is reached

  function FirstRows(m: nat): (rows: map<nat, Option<Id>>)
    ensures |rows| == m && forall i: nat :: i in rows <==> i < m
  {
    if m == 0 then map[] else FirstRows(m - 1)[m - 1 := None]
  }

  function FirstFlights(n: nat): (flights: map<nat, Flight>)
    ensures |flights| == n && forall i: nat :: i in flights <==> i < n
  {
    if n == 0 then map[] else FirstFlights(n - 1)[n - 1 := Flight(WalkIn, Counted)]
  }

  /** `m` walk-ins recorded, and `n` more past the capacity gate but not created yet. */
  function Crowd(m: nat, n: nat): State {
    State(0, FirstRows(m), map[], FirstFlights(n), map[], map[])
  }

  lemma Extend(cfg: Config, k: nat, states: seq<State>, steps: seq<Step>, step: Step)
      returns (states': seq<State>, steps': seq<Step>)
    requires IsRun(cfg, k, states, steps) && Enabled(cfg, step, states[|steps|])
    requires |Apply(cfg, step, states[|steps|]).flights| <= k
    ensures states' == states + [Apply(cfg, step, states[|steps|])] && steps' == steps + [step]
    ensures |states'| == |steps'| + 1 && IsRun(cfg, k, states', steps')
  {
    hide Enabled, Apply, IsStart;
    states', steps' := states + [Apply(cfg, step, states[|steps|])], steps + [step];
  }

  ghost predicate IsCrowdRun(cfg: Config, k: nat, states: seq<State>, steps: seq<Step>, m: nat, n: nat) {
    |states| == |steps| + 1 && IsRun(cfg, k, states, steps) && states[|steps|] == Crowd(m, n)
  }

  /** A walk-in more is at this point. */
  function Entering(m: nat, n: nat, pc: Pc): (s: State)
    ensures |s.flights| == n + 1
  {
    Crowd(m, n).(flights := FirstFlights(n)[n := Flight(WalkIn, pc)])
  }

  lemma EnteringMoves(m: nat, n: nat, pc: Pc, next: Pc)
    ensures n in Entering(m, n, pc).flights && Entering(m, n, pc).flights[n] == Flight(WalkIn, pc)
    ensures At(Entering(m, n, pc), n, next) == Entering(m, n, next)
  {
    assert At(Entering(m, n, pc), n, next).flights == Entering(m, n, next).flights;
  }

  lemma WalkInBegins(cfg: Config, m: nat, n: nat)
    ensures Enabled(cfg, Begin(n, WalkIn), Crowd(m, n))
            && Apply(cfg, Begin(n, WalkIn), Crowd(m, n)) == Entering(m, n, Begun)
    ensures |Crowd(m, n).flights| == n
  {
  }

  lemma WalkInGoes(cfg: Config, m: nat, n: nat)
    ensures Enabled(cfg, Resolve(n), Entering(m, n, Begun))
    ensures Apply(cfg, Resolve(n), Entering(m, n, Begun)) == Entering(m, n, Resolved)
    ensures Enabled(cfg, Look(n), Entering(m, n, Resolved))
    ensures Apply(cfg, Look(n), Entering(m, n, Resolved)) == Entering(m, n, Looked)
  {
    EnteringMoves(m, n, Begun, Resolved);
    EnteringMoves(m, n, Resolved, Looked);
    hide Entering;
  }

  lemma WalkInCounts(cfg: Config, m: nat, n: nat)
    requires cfg.capacity.Some? && m < cfg.capacity.value
    ensures Enabled(cfg, Count(n), Entering(m, n, Looked))
            && Apply(cfg, Count(n), Entering(m, n, Looked)) == Crowd(m, n + 1)
  {
    EnteringMoves(m, n, Looked, Counted);
    assert |Entering(m, n, Looked).rows| == m;
    assert Entering(m, n, Counted) == Crowd(m, n + 1);
    hide Entering, Crowd;
  }

  lemma AdmitOne(cfg: Config, k: nat, states: seq<State>, steps: seq<Step>, m: nat, n: nat)
    returns (states': seq<State>, steps': seq<Step>)
    requires cfg.capacity.Some? && m < cfg.capacity.value && n < k && IsCrowdRun(cfg, k, states, steps, m, n)
    ensures IsCrowdRun(cfg, k, states', steps', m, n + 1)
  {
    WalkInBegins(cfg, m, n);
    WalkInGoes(cfg, m, n);
    WalkInCounts(cfg, m, n);
    WalkInBegins(cfg, m, n + 1);
    hide IsRun, Enabled, Apply, Entering, Crowd;
    states', steps' := Extend(cfg, k, states, steps, Begin(n, WalkIn));
    states', steps' := Extend(cfg, k, states', steps', Resolve(n));
    states', steps' := Extend(cfg, k, states', steps', Look(n));
    states', steps' := Extend(cfg, k, states', steps', Count(n));
  }

  lemma CreateOne(cfg: Config, k: nat, states: seq<State>, steps: seq<Step>, m: nat, n: nat)
    returns (states': seq<State>, steps': seq<Step>)
    requires n < k && IsCrowdRun(cfg, k, states, steps, m, n + 1)
    ensures IsCrowdRun(cfg, k, states', steps', m + 1, n)
  {
    hide IsRun;
    assert Apply(cfg, Create(n, m), Crowd(m, n + 1)).flights == FirstFlights(n);
    assert Apply(cfg, Create(n, m), Crowd(m, n + 1)).rows == FirstRows(m + 1);
    states', steps' := Extend(cfg, k, states, steps, Create(n, m));
  }

  lemma NobodyInCrowd(cfg: Config, k: nat)
    ensures IsCrowdRun(cfg, k, [Crowd(0, 0)], [], 0, 0)
  {
  }

  lemma CrowdRows(cfg: Config, k: nat, states: seq<State>, steps: seq<Step>, m: nat)
    requires IsCrowdRun(cfg, k, states, steps, m, 0)
    ensures |states| == |steps| + 1 && IsRun(cfg, k, states, steps) && |states[|steps|].rows| == m
  {
  }

  /** One check-in after another up to c - 1, then k requests past the gate together, then their rows. */
  lemma CapacityIsOverrun(cfg: Config, k: nat) returns (states: seq<State>, steps: seq<Step>)
    requires cfg.capacity.Some? && cfg.capacity.value >= 1 && k >= 1
    ensures IsRun(cfg, k, states, steps) && |states[|steps|].rows| == cfg.capacity.value + k - 1
  {
    hide IsCrowdRun, Crowd, IsRun;
    var c := cfg.capacity.value;
    states, steps := [Crowd(0, 0)], [];
    NobodyInCrowd(cfg, k);
    var m := 0;
    while m < c - 1
      invariant 0 <= m <= c - 1 && IsCrowdRun(cfg, k, states, steps, m, 0)
    {
      states, steps := AdmitOne(cfg, k, states, steps, m, 0);
      states, steps := CreateOne(cfg, k, states, steps, m, 0);
      m := m + 1;
    }
    var n := 0;
    while n < k
      invariant 0 <= n <= k && IsCrowdRun(cfg, k, states, steps, c - 1, n)
    {
      states, steps := AdmitOne(cfg, k, states, steps, c - 1, n);
      n := n + 1;
    }
    while n > 0
      invariant 0 <= n <= k && IsCrowdRun(cfg, k, states, steps, c - 1 + k - n, n)
    {
      states, steps := CreateOne(cfg, k, states, steps, c - 1 + k - n, n - 1);
      n := n - 1;
    }
    CrowdRows(cfg, k, states, steps, c - 1 + k);
  }

  ghost predicate IsCapacityKept(cfg: Config, k: nat)
    requires cfg.capacity.Some?
  {
    forall states: seq<State>, steps: seq<Step> | IsRun(cfg, k, states, steps) ::
      |states[|steps|].rows| <= cfg.capacity.value
  }

  /** An event without places, or without requests, has no check-ins. */
  ghost predicate NobodyPasses(s: State) {
    s.rows == map[] && CountedFlights(s) == {}
  }

  lemma {:induction false} NobodyEverPasses(cfg: Config, k: nat, states: seq<State>, steps: seq<Step>, n: nat)
    requires cfg.capacity == Some(0) && IsRun(cfg, k, states, steps) && n <= |steps|
    ensures NobodyPasses(states[n])
  {
    hide Enabled, Apply, NobodyPasses;
    if n == 0 {
      NobodyAtStart(states[0]);
    } else {
      NobodyEverPasses(cfg, k, states, steps, n - 1);
      NobodyPassesNow(cfg, states[n - 1], steps[n - 1]);
    }
  }

  lemma NobodyAtStart(s: State)
    requires IsStart(s)
    ensures NobodyPasses(s)
  {
  }

  lemma NobodyPassesNow(cfg: Config, s: State, step: Step)
    requires cfg.capacity == Some(0) && NobodyPasses(s) && Enabled(cfg, step, s)
    ensures NobodyPasses(Apply(cfg, step, s))
  {
    assert !step.Create? by {
      assert forall r | r in s.flights && s.flights[r].pc == Counted :: r in CountedFlights(s);
    }
    assert CountedFlights(Apply(cfg, step, s)) <= CountedFlights(s);
  }

  /** With at most k requests in flight the capacity is kept in all runs if and only if k is at most 1, or the event
      has no places at all. */
  lemma CapacityKeptIff(cfg: Config, k: nat)
    requires cfg.capacity.Some?
    ensures IsCapacityKept(cfg, k) <==> k <= 1 || cfg.capacity == Some(0)
  {
    hide Enabled, Apply, IsStart;
    if cfg.capacity == Some(0) {
      forall states: seq<State>, steps: seq<Step> | IsRun(cfg, k, states, steps)
        ensures |states[|steps|].rows| <= 0
      {
        NobodyEverPasses(cfg, k, states, steps, |steps|);
      }
    } else if k <= 1 {
      forall states: seq<State>, steps: seq<Step> | IsRun(cfg, k, states, steps)
        ensures |states[|steps|].rows| <= cfg.capacity.value
      {
        CapacityIsAlmostKept(cfg, 1, states, steps, |steps|);
      }
    } else {
      hide IsRun;
      var states, steps := CapacityIsOverrun(cfg, k);
    }
  }

  // ---- a pass is used once

  /** Requests that this pass has carried past the replay check. */
  function Carried(s: State, jti: string): set<nat> {
    set r | r in s.flights && s.flights[r].who.ByToken? && s.flights[r].who.token.jti == jti
            && s.flights[r].pc != Begun && !s.flights[r].pc.Verified?
  }

  /** A step that scans this pass does so no earlier than `earliest`, and nothing else is presented under its id. */
  predicate IsScannedFrom(s: State, step: Step, token: Token, earliest: nat) {
    match step
    case Begin(_, who) => who.ByToken? && who.token.jti == token.jti ==> who.token == token
    case SetReplayKey(r) => r in s.flights && s.flights[r].who == ByToken(token) ==> earliest <= s.now
    case _ => true
  }

  ghost predicate PresentsFrom(states: seq<State>, steps: seq<Step>, token: Token, earliest: nat)
    requires |states| == |steps| + 1
  {
    forall i | 0 <= i < |steps| :: IsScannedFrom(states[i], steps[i], token, earliest)
  }

  /** Once the pass has been let through, its replay key outlives the last moment at which a verified copy of
      it can still be scanned. */
  ghost predicate TokenInv(cfg: Config, s: State, token: Token) {
    && (forall r | r in s.flights && s.flights[r].who.ByToken? && s.flights[r].who.token.jti == token.jti ::
          && s.flights[r].who.token == token
          && (s.flights[r].pc.Verified? ==> Verifies(token, s.flights[r].pc.at)))
    && |Carried(s, token.jti)| + Tally(s.made, token.jti) <= Tally(s.passes, token.jti) <= 1
    && (Tally(s.passes, token.jti) == 1 ==>
          token.jti in s.replay && (token.exp + 1) * 1000 + cfg.latency <= s.replay[token.jti])
  }

  lemma OneFewer(a: set<nat>, b: set<nat>, r: nat)
    requires b <= a - {r} && r in a
    ensures |b| + 1 <= |a|
  {
    SubsetIsNoLarger(b, a - {r});
  }

  lemma OneMore(a: set<nat>, b: set<nat>, r: nat)
    requires b <= a + {r}
    ensures |b| <= |a| + 1
  {
    SubsetIsNoLarger(b, a + {r});
  }

  lemma ScanKeepsToken(cfg: Config, r: nat, s: State, token: Token)
    requires Enabled(cfg, SetReplayKey(r), s) && TokenInv(cfg, s, token)
    requires token.exp == token.iat + CHECKIN_TOKEN_TTL_SECONDS
    requires s.flights[r].who == ByToken(token) ==> (token.iat + 1) * 1000 + cfg.latency <= s.now
    ensures TokenInv(cfg, Apply(cfg, SetReplayKey(r), s), token)
  {
    var s' := Apply(cfg, SetReplayKey(r), s);
    var before, after := Carried(s, token.jti), Carried(s', token.jti);
    if s.flights[r].who.token.jti != token.jti || KeyIsSet(s, token.jti) {
      SubsetIsNoLarger(after, before);
    } else {
      assert s.now / 1000 * 1000 <= s.now < (token.exp + 1) * 1000 + cfg.latency;
      assert Tally(s.passes, token.jti) == 0;
      OneMore(before, after, r);
    }
  }

  lemma CreateKeepsToken(cfg: Config, r: nat, row: nat, s: State, token: Token)
    requires Enabled(cfg, Create(r, row), s) && TokenInv(cfg, s, token)
    ensures TokenInv(cfg, Apply(cfg, Create(r, row), s), token)
  {
    var s' := Apply(cfg, Create(r, row), s);
    var before, after := Carried(s, token.jti), Carried(s', token.jti);
    if r in before { OneFewer(before, after, r); } else { SubsetIsNoLarger(after, before); }
  }

  lemma BeginKeepsToken(cfg: Config, r: nat, who: Who, s: State, token: Token)
    requires Enabled(cfg, Begin(r, who), s) && TokenInv(cfg, s, token)
    requires who.ByToken? && who.token.jti == token.jti ==> who.token == token
    ensures TokenInv(cfg, Apply(cfg, Begin(r, who), s), token)
  {
    SubsetIsNoLarger(Carried(Apply(cfg, Begin(r, who), s), token.jti), Carried(s, token.jti));
  }

  lemma VerifyKeepsToken(cfg: Config, r: nat, s: State, token: Token)
    requires cfg.redis && Enabled(cfg, Verify(r), s) && TokenInv(cfg, s, token)
    ensures TokenInv(cfg, Apply(cfg, Verify(r), s), token)
  {
    SubsetIsNoLarger(Carried(Apply(cfg, Verify(r), s), token.jti), Carried(s, token.jti));
  }

  lemma EndKeepsToken(cfg: Config, s: State, r: nat, token: Token)
    requires TokenInv(cfg, s, token)
    ensures TokenInv(cfg, End(s, r), token)
  {
    SubsetIsNoLarger(Carried(End(s, r), token.jti), Carried(s, token.jti));
  }

  /** A request that needs no replay check, or is past it, moves on. */
  lemma MoveKeepsToken(cfg: Config, s: State, r: nat, pc: Pc, token: Token)
    requires TokenInv(cfg, s, token) && r in s.flights && !pc.Verified?
    requires s.flights[r].who.ByToken? ==> s.flights[r].pc != Begun && !s.flights[r].pc.Verified?
    ensures TokenInv(cfg, At(s, r, pc), token)
  {
    SubsetIsNoLarger(Carried(At(s, r, pc), token.jti), Carried(s, token.jti));
  }

  lemma OtherStepKeepsToken(cfg: Config, step: Step, s: State, token: Token)
    requires Enabled(cfg, step, s) && TokenInv(cfg, s, token)
    requires step.Tick? || step.Resolve? || step.Look? || step.Count? || step.Reject? || step.Remove?
    ensures TokenInv(cfg, Apply(cfg, step, s), token)
  {
    match step
    case Tick(_) => assert Carried(Apply(cfg, step, s), token.jti) == Carried(s, token.jti);
    case Remove(_) => assert Carried(Apply(cfg, step, s), token.jti) == Carried(s, token.jti);
    case Resolve(r) => MoveKeepsToken(cfg, s, r, Resolved, token);
    case Reject(r) => EndKeepsToken(cfg, s, r, token);
    case Look(r) =>
      EndKeepsToken(cfg, s, r, token);
      MoveKeepsToken(cfg, s, r, Looked, token);
    case Count(r) =>
      EndKeepsToken(cfg, s, r, token);
      MoveKeepsToken(cfg, s, r, Counted, token);
  }

  lemma StepKeepsToken(cfg: Config, step: Step, s: State, token: Token)
    requires cfg.redis && Enabled(cfg, step, s) && TokenInv(cfg, s, token)
    requires token.exp == token.iat + CHECKIN_TOKEN_TTL_SECONDS
    requires step.Begin? && step.who.ByToken? && step.who.token.jti == token.jti ==> step.who.token == token
    requires step.SetReplayKey? && s.flights[step.r].who == ByToken(token)
             ==> (token.iat + 1) * 1000 + cfg.latency <= s.now
    ensures TokenInv(cfg, Apply(cfg, step, s), token)
  {
    match step
    case SetReplayKey(r) => ScanKeepsToken(cfg, r, s, token);
    case Create(r, row) => CreateKeepsToken(cfg, r, row, s, token);
    case Begin(r, who) => BeginKeepsToken(cfg, r, who, s, token);
    case Verify(r) => VerifyKeepsToken(cfg, r, s, token);
    case _ => OtherStepKeepsToken(cfg, step, s, token);
  }

  lemma {:induction false} RunKeepsToken(cfg: Config, k: nat, states: seq<State>, steps: seq<Step>, token: Token,
                                         n: nat)
    requires cfg.redis && IsRun(cfg, k, states, steps) && n <= |steps|
    requires token.exp == token.iat + CHECKIN_TOKEN_TTL_SECONDS
    requires PresentsFrom(states, steps, token, (token.iat + 1) * 1000 + cfg.latency)
    ensures TokenInv(cfg, states[n], token)
  {
    if n == 0 {
      assert Carried(states[0], token.jti) == {};
    } else {
      RunKeepsToken(cfg, k, states, steps, token, n - 1);
      assert IsScannedFrom(states[n - 1], steps[n - 1], token, (token.iat + 1) * 1000 + cfg.latency);
      StepKeepsToken(cfg, steps[n - 1], states[n - 1], token);
    }
  }

  /** With Redis present, a pass that is first scanned in a later second than the one it was issued in, plus
      the time a scan may take, creates at most one check-in in any run, removals included. */
  lemma PassIsUsedOnce(cfg: Config, k: nat, states: seq<State>, steps: seq<Step>, jti: string, member: Id,
                       issuedMs: nat, n: nat)
    requires cfg.redis && IsRun(cfg, k, states, steps) && n <= |steps|
    requires PresentsFrom(states, steps, SignCheckinToken(jti, member, issuedMs),
                          (issuedMs / 1000 + 1) * 1000 + cfg.latency)
    ensures Tally(states[n].made, jti) <= 1
  {
    RunKeepsToken(cfg, k, states, steps, SignCheckinToken(jti, member, issuedMs), n);
  }

  // ---- the margin is exact

  lemma Go(cfg: Config, k: nat, states: seq<State>, steps: seq<Step>, step: Step, token: Token, earliest: nat)
    returns (states': seq<State>, steps': seq<Step>)
    requires IsRun(cfg, k, states, steps) && PresentsFrom(states, steps, token, earliest)
    requires Enabled(cfg, step, states[|steps|]) && IsScannedFrom(states[|steps|], step, token, earliest)
    requires |Apply(cfg, step, states[|steps|]).flights| <= k
    ensures states' == states + [Apply(cfg, step, states[|steps|])] && steps' == steps + [step]
    ensures |states'| == |steps'| + 1 && IsRun(cfg, k, states', steps')
            && PresentsFrom(states', steps', token, earliest)
  {
    hide Enabled, Apply, IsScannedFrom, IsRun;
    RunLengths(cfg, k, states, steps);
    states', steps' := Extend(cfg, k, states, steps, step);
  }

  /** The states that matter: nobody is checked in, and these copies of the pass are in flight, verified. */
  function PassState(now: nat, jti: string, expires: Option<nat>, flights: map<nat, Flight>, used: nat): State {
    var m := if used == 0 then map[] else map[jti := used];
    State(now, map[], if expires.Some? then map[jti := expires.value] else map[], flights, m, m)
  }

  ghost predicate IsPassRun(cfg: Config, k: nat, states: seq<State>, steps: seq<Step>, token: Token, earliest: nat,
                            s: State)
  {
    && |states| == |steps| + 1 && IsRun(cfg, k, states, steps) && PresentsFrom(states, steps, token, earliest)
    && states[|steps|] == s
  }

  /** A copy is presented and verified. */
  lemma Present(cfg: Config, k: nat, states: seq<State>, steps: seq<Step>, token: Token, earliest: nat,
                now: nat, expires: Option<nat>, flights: map<nat, Flight>, used: nat, r: nat)
    returns (states': seq<State>, steps': seq<Step>)
    requires IsPassRun(cfg, k, states, steps, token, earliest, PassState(now, token.jti, expires, flights, used))
             && cfg.redis
    requires r !in flights && |flights| < k && Verifies(token, now)
    ensures IsPassRun(cfg, k, states', steps', token, earliest,
                      PassState(now, token.jti, expires, AtPc(flights, r, token, Verified(now)), used))
    ensures states' != [] && states != [] && states'[0] == states[0]
  {
    hide IsRun, PresentsFrom, Verifies;
    states', steps' := Go(cfg, k, states, steps, Begin(r, ByToken(token)), token, earliest);
    states', steps' := Go(cfg, k, states', steps', Verify(r), token, earliest);
    assert AtPc(AtPc(flights, r, token, Begun), r, token, Verified(now)) == AtPc(flights, r, token, Verified(now));
  }

  /** A verified copy is scanned while no replay key is set: it makes a check-in, which is then removed. */
  lemma ScanAndRemove(cfg: Config, k: nat, states: seq<State>, steps: seq<Step>, token: Token, earliest: nat,
                      now: nat, expires: Option<nat>, flights: map<nat, Flight>, used: nat, r: nat, at: nat)
    returns (states': seq<State>, steps': seq<Step>)
    requires IsPassRun(cfg, k, states, steps, token, earliest, PassState(now, token.jti, expires, flights, used))
    requires cfg.redis && cfg.capacity != Some(0) && |flights| <= k && earliest <= now
    requires r in flights && flights[r] == Flight(ByToken(token), Verified(at)) && now <= at + cfg.latency
    requires expires.Some? ==> expires.value <= now
    ensures IsPassRun(cfg, k, states', steps', token, earliest,
                      PassState(now, token.jti, Some(now + CHECKIN_TOKEN_TTL_SECONDS * 1000), flights - {r}, used + 1))
    ensures states' != [] && states != [] && states'[0] == states[0]
  {
    hide IsRun, PresentsFrom, Enabled, Apply, IsScannedFrom;
    var t := now + CHECKIN_TOKEN_TTL_SECONDS * 1000;
    var s := PassState(now, token.jti, expires, flights, used);
    var m := if used == 0 then map[] else map[token.jti := used];
    var s1 := State(now, map[], map[token.jti := t], AtPc(flights, r, token, Resolved), map[token.jti := used + 1], m);
    ScanGoes(cfg, token, s, s1, r, at, earliest);
    states', steps' := Go(cfg, k, states, steps, SetReplayKey(r), token, earliest);
    LookGoes(cfg, token, s1, r, earliest);
    AtPcTwice(flights, r, token, Resolved, Looked);
    states', steps' := Go(cfg, k, states', steps', Look(r), token, earliest);
    var s2 := s1.(flights := AtPc(flights, r, token, Looked));
    CountGoes(cfg, token, s2, r, earliest);
    AtPcTwice(flights, r, token, Looked, Counted);
    states', steps' := Go(cfg, k, states', steps', Count(r), token, earliest);
    states', steps' :=
      CreateAndRemove(cfg, k, states', steps', token, earliest,
                      s2.(flights := AtPc(flights, r, token, Counted)),
                                       flights, r, used);
    hide AtPc;
  }

  lemma CreateAndRemove(cfg: Config, k: nat, states: seq<State>, steps: seq<Step>, token: Token, earliest: nat,
                        s: State, flights: map<nat, Flight>, r: nat, used: nat)
    returns (states': seq<State>, steps': seq<Step>)
    requires IsPassRun(cfg, k, states, steps, token, earliest, s) && r in flights && |flights| <= k
    requires s.rows == map[] && s.flights == AtPc(flights, r, token, Counted)
    requires s.made == if used == 0 then map[] else map[token.jti := used]
    ensures IsPassRun(cfg, k, states', steps', token, earliest,
                      s.(flights := flights - {r}, made := map[token.jti := used + 1]))
    ensures states' != [] && states != [] && states'[0] == states[0]
  {
    hide IsRun, PresentsFrom, Enabled, Apply, IsScannedFrom;
    AtPcTwice(flights, r, token, Counted, Counted);
    assert flights == (flights - {r})[r := flights[r]] && |flights - {r}| <= |flights|;
    CreateGoes(cfg, token, s, r, used, earliest);
    states', steps' := Go(cfg, k, states, steps, Create(r, 0), token, earliest);
    RemoveGoes(cfg, token, states'[|steps'|], earliest);
    states', steps' := Go(cfg, k, states', steps', Remove(0), token, earliest);
  }

  function AtPc(flights: map<nat, Flight>, r: nat, token: Token, pc: Pc): (f: map<nat, Flight>)
    ensures r in flights ==> |f| == |flights|
  {
    assert r in flights ==> flights[r := Flight(ByToken(token), pc)].Keys == flights.Keys;
    flights[r := Flight(ByToken(token), pc)]
  }

  /** From `s` the step can be taken, leads to `s'`, and keeps to `earliest`. */
  ghost predicate StepsTo(cfg: Config, s: State, step: Step, s': State, token: Token, earliest: nat) {
    Enabled(cfg, step, s) && Apply(cfg, step, s) == s' && IsScannedFrom(s, step, token, earliest)
  }

  lemma ScanGoes(cfg: Config, token: Token, s: State, s': State, r: nat, at: nat, earliest: nat)
    requires cfg.redis && earliest <= s.now <= at + cfg.latency && !KeyIsSet(s, token.jti)
    requires r in s.flights && s.flights[r] == Flight(ByToken(token), Verified(at))
    requires s.replay.Keys <= {token.jti} && s.passes.Keys <= {token.jti}
    requires s' == s.(replay := map[token.jti := s.now + CHECKIN_TOKEN_TTL_SECONDS * 1000],
                      flights := AtPc(s.flights, r, token, Resolved),
                      passes := map[token.jti := Tally(s.passes, token.jti) + 1])
    ensures StepsTo(cfg, s, SetReplayKey(r), s', token, earliest)
  {
  }

  lemma AtPcTwice(flights: map<nat, Flight>, r: nat, token: Token, pc: Pc, next: Pc)
    ensures AtPc(AtPc(flights, r, token, pc), r, token, next) == AtPc(flights, r, token, next)
    ensures AtPc(flights, r, token, pc) - {r} == flights - {r}
  {
  }

  lemma LookGoes(cfg: Config, token: Token, s: State, r: nat, earliest: nat)
    requires s.rows == map[] && r in s.flights && s.flights[r] == Flight(ByToken(token), Resolved)
    ensures StepsTo(cfg, s, Look(r), s.(flights := AtPc(s.flights, r, token, Looked)), token, earliest)
  {
    assert !HasRow(s, MemberOf(ByToken(token)));
  }

  lemma CountGoes(cfg: Config, token: Token, s: State, r: nat, earliest: nat)
    requires s.rows == map[] && r in s.flights && s.flights[r] == Flight(ByToken(token), Looked)
             && cfg.capacity != Some(0)
    ensures StepsTo(cfg, s, Count(r), s.(flights := AtPc(s.flights, r, token, Counted)), token, earliest)
  {
    assert |s.rows| == 0;
  }

  lemma CreateGoes(cfg: Config, token: Token, s: State, r: nat, used: nat, earliest: nat)
    requires s.rows == map[] && r in s.flights && s.flights[r] == Flight(ByToken(token), Counted)
    requires s.made == if used == 0 then map[] else map[token.jti := used]
    ensures StepsTo(cfg, s, Create(r, 0),
                    s.(rows := map[0 := Some(token.member)], flights := s.flights - {r},
                       made := map[token.jti := used + 1]),
                    token, earliest)
  {
    assert !HasRow(s, MemberOf(ByToken(token)));
    assert s.made[token.jti := used + 1] == map[token.jti := used + 1];
  }

  lemma RemoveGoes(cfg: Config, token: Token, s: State, earliest: nat)
    requires s.rows == map[0 := Some(token.member)]
    ensures StepsTo(cfg, s, Remove(0), s.(rows := map[]), token, earliest)
  {
  }

  lemma Wait(cfg: Config, k: nat, states: seq<State>, steps: seq<Step>, token: Token, earliest: nat,
             now: nat, expires: Option<nat>, flights: map<nat, Flight>, used: nat, later: nat)
    returns (states': seq<State>, steps': seq<Step>)
    requires IsPassRun(cfg, k, states, steps, token, earliest, PassState(now, token.jti, expires, flights, used))
    requires |flights| <= k && now <= later
    ensures IsPassRun(cfg, k, states', steps', token, earliest, PassState(later, token.jti, expires, flights, used))
    ensures states' != [] && states != [] && states'[0] == states[0]
  {
    hide IsRun, PresentsFrom;
    states', steps' := Go(cfg, k, states, steps, Tick(later - now), token, earliest);
  }

  /** The first scan comes while the pass still verifies: a second copy is verified at the last moment. */
  lemma ReuseAfterFirst(cfg: Config, k: nat, token: Token, first: nat) returns (states: seq<State>, steps: seq<Step>)
    requires cfg.redis && cfg.capacity != Some(0) && k >= 1 && token.exp == token.iat + CHECKIN_TOKEN_TTL_SECONDS
    requires first < (token.iat + 1) * 1000 + cfg.latency && first <= token.exp * 1000 + 999
    ensures |states| == |steps| + 1 && IsRun(cfg, k, states, steps) && PresentsFrom(states, steps, token, first)
    ensures states[0].now == first && Tally(states[|steps|].made, token.jti) == 2
  {
    hide IsPassRun, IsRun, PresentsFrom, Tally, PassState, IsStart;
    var gone := first + CHECKIN_TOKEN_TTL_SECONDS * 1000;
    var last := token.exp * 1000 + 999;
    var scan := if last < gone then gone else last;
    var one, two := AtPc(map[], 0, token, Verified(first)), AtPc(map[], 1, token, Verified(last));
    states, steps := [PassState(first, token.jti, None, map[], 0)], [];
    NobodyYet(cfg, k, token, first, first);
    states, steps := Present(cfg, k, states, steps, token, first, first, None, map[], 0, 0);
    states, steps := ScanAndRemove(cfg, k, states, steps, token, first, first, None, one, 0, 0, first);
    assert one - {0} == map[];
    states, steps := Wait(cfg, k, states, steps, token, first, first, Some(gone), map[], 1, last);
    states, steps := Present(cfg, k, states, steps, token, first, last, Some(gone), map[], 1, 1);
    states, steps := Wait(cfg, k, states, steps, token, first, last, Some(gone), two, 1, scan);
    states, steps := ScanAndRemove(cfg, k, states, steps, token, first, scan, Some(gone), two, 1, 1, last);
    PassRunIsRun(cfg, k, states, steps, token, first, scan, two - {1});
  }

  lemma NobodyYet(cfg: Config, k: nat, token: Token, first: nat, now: nat)
    ensures var s := PassState(now, token.jti, None, map[], 0);
            IsPassRun(cfg, k, [s], [], token, first, s) && s.now == now
  {
  }

  lemma PassRunIsRun(cfg: Config, k: nat, states: seq<State>, steps: seq<Step>, token: Token, earliest: nat,
                     now: nat, flights: map<nat, Flight>)
    requires IsPassRun(cfg, k, states, steps, token, earliest,
                       PassState(now, token.jti, Some(now + CHECKIN_TOKEN_TTL_SECONDS * 1000), flights, 2))
    ensures IsRun(cfg, k, states, steps) && PresentsFrom(states, steps, token, earliest)
    ensures |states| == |steps| + 1 && Tally(states[|steps|].made, token.jti) == 2
  {
  }

  /** The first scan comes when the pass has expired: both copies were verified at the last moment. */
  lemma ReuseOfTwoCopies(cfg: Config, k: nat, token: Token, first: nat) returns (states: seq<State>, steps: seq<Step>)
    requires cfg.redis && cfg.capacity != Some(0) && k >= 2 && token.exp == token.iat + CHECKIN_TOKEN_TTL_SECONDS
    requires token.exp * 1000 + 999 < first < (token.iat + 1) * 1000 + cfg.latency
    ensures |states| == |steps| + 1 && IsRun(cfg, k, states, steps) && PresentsFrom(states, steps, token, first)
    ensures states[0].now == token.exp * 1000 + 999 && Tally(states[|steps|].made, token.jti) == 2
  {
    hide IsPassRun, IsRun, PresentsFrom, Tally, PassState, IsStart;
    var gone := first + CHECKIN_TOKEN_TTL_SECONDS * 1000;
    var last := token.exp * 1000 + 999;
    var one := AtPc(map[], 0, token, Verified(last));
    var two := AtPc(one, 1, token, Verified(last));
    states, steps := [PassState(last, token.jti, None, map[], 0)], [];
    NobodyYet(cfg, k, token, first, last);
    states, steps := Present(cfg, k, states, steps, token, first, last, None, map[], 0, 0);
    states, steps := Present(cfg, k, states, steps, token, first, last, None, one, 0, 1);
    states, steps := Wait(cfg, k, states, steps, token, first, last, None, two, 0, first);
    states, steps := ScanAndRemove(cfg, k, states, steps, token, first, first, None, two, 0, 0, last);
    states, steps := Wait(cfg, k, states, steps, token, first, first, Some(gone), two - {0}, 1, gone);
    states, steps := ScanAndRemove(cfg, k, states, steps, token, first, gone, Some(gone), two - {0}, 1, 1, last);
    PassRunIsRun(cfg, k, states, steps, token, first, gone, two - {0} - {1});
  }

  /** Some run, from the issue of the pass on, makes two check-ins with it though it is scanned no earlier than
      `earliest`. */
  ghost predicate CanReuse(cfg: Config, k: nat, jti: string, member: Id, issuedMs: nat, earliest: nat) {
    exists states, steps :: IsReuse(cfg, k, states, steps, SignCheckinToken(jti, member, issuedMs), issuedMs, earliest)
  }

  ghost predicate IsReuse(cfg: Config, k: nat, states: seq<State>, steps: seq<Step>, token: Token, issuedMs: nat,
                          earliest: nat)
  {
    && IsRun(cfg, k, states, steps) && issuedMs <= states[0].now
    && PresentsFrom(states, steps, token, earliest)
    && Tally(states[|steps|].made, token.jti) >= 2
  }

  lemma RunLengths(cfg: Config, k: nat, states: seq<State>, steps: seq<Step>)
    requires IsRun(cfg, k, states, steps)
    ensures |states| == |steps| + 1
  {
  }

  lemma LaterIsFrom(states: seq<State>, steps: seq<Step>, token: Token, earliest: nat, later: nat)
    requires |states| == |steps| + 1 && earliest <= later && PresentsFrom(states, steps, token, later)
    ensures PresentsFrom(states, steps, token, earliest)
  {
    assert forall i | 0 <= i < |steps| :: IsScannedFrom(states[i], steps[i], token, later);
  }

  /** The margin is exact, for every pass, event and latency: with Redis present a pass can make two check-ins if
      and only if its first scan may come before the second after its issue, plus the time a scan may take. One
      request at a time is enough for this when a scan takes no longer than the pass is valid. */
  lemma ReplayWindow(cfg: Config, k: nat, jti: string, member: Id, issuedMs: nat, earliest: nat)
    requires cfg.redis && cfg.capacity != Some(0)
    requires k >= 2 || (k == 1 && cfg.latency <= CHECKIN_TOKEN_TTL_SECONDS * 1000)
    ensures CanReuse(cfg, k, jti, member, issuedMs, earliest) <==> earliest < (issuedMs / 1000 + 1) * 1000 + cfg.latency
  {
    hide IsRun, PresentsFrom, Tally;
    var token := SignCheckinToken(jti, member, issuedMs);
    var margin := (issuedMs / 1000 + 1) * 1000 + cfg.latency;
    if earliest < margin {
      var first := if earliest < issuedMs then issuedMs else earliest;
      var states, steps;
      if first <= token.exp * 1000 + 999 {
        states, steps := ReuseAfterFirst(cfg, k, token, first);
      } else {
        states, steps := ReuseOfTwoCopies(cfg, k, token, first);
      }
      RunLengths(cfg, k, states, steps);
      LaterIsFrom(states, steps, token, earliest, first);
      assert IsReuse(cfg, k, states, steps, token, issuedMs, earliest);
    } else if states, steps :| IsReuse(cfg, k, states, steps, token, issuedMs, earliest) {
      RunLengths(cfg, k, states, steps);
      LaterIsFrom(states, steps, token, margin, earliest);
      PassIsUsedOnce(cfg, k, states, steps, jti, member, issuedMs, |steps|);
    }
  }

  // ---- one request, when nothing else happens

  /** Where these steps lead, if each of them is enabled. */
  function After(cfg: Config, steps: seq<Step>, s: State): Option<State> {
    if steps == [] then Some(s)
    else if !Enabled(cfg, steps[0], s) then None
    else After(cfg, steps[1..], Apply(cfg, steps[0], s))
  }

  lemma AfterOne(cfg: Config, step: Step, rest: seq<Step>, s: State)
    requires Enabled(cfg, step, s)
    ensures After(cfg, [step] + rest, s) == After(cfg, rest, Apply(cfg, step, s))
  {
    hide Enabled, Apply;
    assert ([step] + rest)[1..] == rest;
  }

  /** The table has a row for this member. */
  ghost predicate IsIn(rows: map<nat, Option<Id>>, member: Option<Id>) {
    member != None && exists row :: row in rows && rows[row] == member
  }

  predicate IsFull(cfg: Config, rows: map<nat, Option<Id>>) {
    cfg.capacity.Some? && |rows| >= cfg.capacity.value
  }

  /** From the moment its member is known a request looks, counts and creates, or stops on the way. */
  function EntrySteps(cfg: Config, rows: map<nat, Option<Id>>, member: Option<Id>, r: nat, row: nat): seq<Step> {
    if member != None && exists i | i in rows :: rows[i] == member then [Look(r)]
    else if IsFull(cfg, rows) then [Look(r), Count(r)]
    else [Look(r), Count(r), Create(r, row)]
  }

  /** The request at another point. */
  function Now(s: State, r: nat, who: Who, pc: Pc): State {
    s.(flights := s.flights[r := Flight(who, pc)])
  }

  predicate IsMember(who: Who, member: Option<Id>) {
    match who
    case ByToken(t) => member == Some(t.member)
    case ByMember(m) => member == Some(m)
    case WalkIn => member == None
  }

  lemma Looks(cfg: Config, s: State, who: Who, member: Option<Id>, r: nat)
    requires IsMember(who, member)
    ensures Enabled(cfg, Look(r), Now(s, r, who, Resolved))
    ensures Apply(cfg, Look(r), Now(s, r, who, Resolved))
         == if IsIn(s.rows, member) then s.(flights := s.flights - {r}) else Now(s, r, who, Looked)
  {
    var now := Now(s, r, who, Resolved);
    assert HasRow(now, member) <==> IsIn(s.rows, member);
    assert now.flights - {r} == s.flights - {r}
      && now.flights[r := Flight(who, Looked)] == s.flights[r := Flight(who, Looked)];
  }

  lemma Counts(cfg: Config, s: State, who: Who, r: nat)
    ensures Enabled(cfg, Count(r), Now(s, r, who, Looked))
    ensures Apply(cfg, Count(r), Now(s, r, who, Looked))
         == if IsFull(cfg, s.rows) then s.(flights := s.flights - {r}) else Now(s, r, who, Counted)
  {
    var now := Now(s, r, who, Looked);
    assert now.flights - {r} == s.flights - {r};
    assert now.flights[r := Flight(who, Counted)] == s.flights[r := Flight(who, Counted)];
  }

  lemma Creates(cfg: Config, s: State, who: Who, member: Option<Id>, r: nat, row: nat)
    requires IsMember(who, member) && row !in s.rows && !IsIn(s.rows, member)
    ensures Enabled(cfg, Create(r, row), Now(s, r, who, Counted))
    ensures Apply(cfg, Create(r, row), Now(s, r, who, Counted))
         == s.(rows := s.rows[row := member], flights := s.flights - {r}, made := Bump(s.made, who))
  {
    var now := Now(s, r, who, Counted);
    assert HasRow(now, member) <==> IsIn(s.rows, member);
    assert now.flights - {r} == s.flights - {r};
  }

  /** Then it leaves a row of its member, unless there is one or the event is full, and nothing else. */
  lemma EntryCreatesRow(cfg: Config, s: State, who: Who, member: Option<Id>, r: nat, row: nat)
    requires IsMember(who, member) && row !in s.rows
    ensures After(cfg, EntrySteps(cfg, s.rows, member, r, row), Now(s, r, who, Resolved))
         == Some(if IsIn(s.rows, member) || IsFull(cfg, s.rows) then s.(flights := s.flights - {r})
                 else s.(rows := s.rows[row := member], flights := s.flights - {r}, made := Bump(s.made, who)))
  {
    Looks(cfg, s, who, member, r);
    Counts(cfg, s, who, r);
    if !IsIn(s.rows, member) { Creates(cfg, s, who, member, r, row); }
    var steps := EntrySteps(cfg, s.rows, member, r, row);
    StepsOfEntry(cfg, s.rows, member, r, row);
    hide Enabled, Apply, Now, IsFull, Bump, IsMember, IsIn, After, EntrySteps;
    AfterOne(cfg, Look(r), steps[1..], Now(s, r, who, Resolved));
    AfterNone(cfg, Apply(cfg, Look(r), Now(s, r, who, Resolved)));
    if |steps| > 1 {
      AfterOne(cfg, Count(r), steps[2..], Now(s, r, who, Looked));
      AfterNone(cfg, Apply(cfg, Count(r), Now(s, r, who, Looked)));
      if |steps| > 2 {
        AfterOne(cfg, Create(r, row), [], Now(s, r, who, Counted));
        AfterNone(cfg, Apply(cfg, Create(r, row), Now(s, r, who, Counted)));
      }
    }
  }

  lemma AfterNone(cfg: Config, s: State)
    ensures After(cfg, [], s) == Some(s)
  {
  }

  lemma StepsOfEntry(cfg: Config, rows: map<nat, Option<Id>>, member: Option<Id>, r: nat, row: nat)
    ensures var steps := EntrySteps(cfg, rows, member, r, row);
            && |steps| == (if IsIn(rows, member) then 1 else if IsFull(cfg, rows) then 2 else 3)
            && steps == [Look(r)] + steps[1..]
            && (|steps| == 1 ==> steps[1..] == [])
            && (|steps| > 1 ==> steps[1..] == [Count(r)] + steps[2..])
            && (|steps| == 2 ==> steps[2..] == [])
            && (|steps| == 3 ==> steps[2..] == [Create(r, row)] + [])
  {
    hide IsFull;
  }

  /** A member who is named, or a walk-in, gets that far in two steps. */
  lemma NamedIsResolved(cfg: Config, s: State, who: Who, r: nat)
    requires r !in s.flights && !who.ByToken?
    ensures After(cfg, [Begin(r, who), Resolve(r)], s) == Some(Now(s, r, who, Resolved))
  {
    AfterOne(cfg, Begin(r, who), [Resolve(r)], s);
    AfterOne(cfg, Resolve(r), [], Apply(cfg, Begin(r, who), s));
    assert [Begin(r, who)] + [Resolve(r)] == [Begin(r, who), Resolve(r)] && [Resolve(r)] + [] == [Resolve(r)];
    assert s.flights[r := Flight(who, Begun)][r := Flight(who, Resolved)] == s.flights[r := Flight(who, Resolved)];
  }

  /** A pass is verified when it has not expired, to the second. */
  lemma PassIsVerified(cfg: Config, s: State, t: Token, r: nat)
    requires r !in s.flights
    ensures Enabled(cfg, Begin(r, ByToken(t)), s)
    ensures Apply(cfg, Begin(r, ByToken(t)), s) == Now(s, r, ByToken(t), Begun)
    ensures Enabled(cfg, Verify(r), Now(s, r, ByToken(t), Begun)) <==> t.exp == 0 || s.now / 1000 <= t.exp
    ensures Enabled(cfg, Verify(r), Now(s, r, ByToken(t), Begun)) ==>
              Apply(cfg, Verify(r), Now(s, r, ByToken(t), Begun)) ==
              Now(s, r, ByToken(t), if cfg.redis then Verified(s.now) else Resolved)
  {
    var pc := if cfg.redis then Verified(s.now) else Resolved;
    assert s.flights[r := Flight(ByToken(t), Begun)][r := Flight(ByToken(t), pc)]
      == s.flights[r := Flight(ByToken(t), pc)];
  }

  /** With Redis it gets no further when it has been scanned in the last seven days; otherwise its replay key is set
      for as long. */
  lemma PassIsScanned(cfg: Config, s: State, t: Token, r: nat)
    requires r !in s.flights && cfg.redis
    ensures Enabled(cfg, SetReplayKey(r), Now(s, r, ByToken(t), Verified(s.now)))
    ensures Apply(cfg, SetReplayKey(r), Now(s, r, ByToken(t), Verified(s.now)))
         == if t.jti in s.replay && s.now < s.replay[t.jti] then s
            else Now(s.(replay := s.replay[t.jti := s.now + 7 * 24 * 60 * 60 * 1000],
                        passes := Bump(s.passes, ByToken(t))), r, ByToken(t), Resolved)
  {
    var who := ByToken(t);
    var pc := Verified(s.now);
    assert s.flights[r := Flight(who, pc)][r := Flight(who, Resolved)] == s.flights[r := Flight(who, Resolved)];
    assert s.flights[r := Flight(who, pc)] - {r} == s.flights;
  }

  lemma RemoveAndReject(cfg: Config, s: State, r: nat, row: nat)
    ensures row in s.rows ==>
              Enabled(cfg, Remove(row), s) && Apply(cfg, Remove(row), s) == s.(rows := s.rows - {row})
    ensures r in s.flights ==>
              Enabled(cfg, Reject(r), s) && Apply(cfg, Reject(r), s) == s.(flights := s.flights - {r})
  {
  }
}
