/** The sweeper and the workers of `src/notifications` run one after another: how many rounds it takes to
    drain a backlog of rows whose jobs were never enqueued. */
module OutboxDrain {
  import opened Sets
  import opened Text
  import opened OutboxProtocol

  /** What the outside world decides: the known templates, the mute switch, and which attempts the provider
      accepts. */
  datatype World = World(templates: set<string>, muted: bool, accepts: (Id, nat) -> bool, provider: string)

  datatype Attempt = Attempt(row: Row, threw: bool, called: bool)

  /** One run of `processSend` on an existing row. */
  function TryOnce(w: World, id: Id, row: Row, made: nat): Attempt {
    if row.status == Sent then Attempt(row, false, false)
    else if row.template !in w.templates then Attempt(FailedAttempt(row, true), false, false)
    else if !IsAuthTemplate(row.template) && w.muted then Attempt(SentRow(row, "muted"), false, false)
    else if w.accepts(id, made) then Attempt(SentRow(row, w.provider), false, true)
    else Attempt(FailedAttempt(row, made + 1 >= NOTIFICATIONS_MAX_ATTEMPTS), true, true)
  }

  /** All the attempts of one job, the first of them after `made` earlier ones. */
  function TryAll(w: World, id: Id, row: Row, made: nat): (r: Row)
    requires made < NOTIFICATIONS_MAX_ATTEMPTS
    ensures r.status != Queued && r.createdAt == row.createdAt
    decreases NOTIFICATIONS_MAX_ATTEMPTS - made
  {
    var a := TryOnce(w, id, row, made);
    if a.threw && made + 1 < NOTIFICATIONS_MAX_ATTEMPTS then TryAll(w, id, a.row, made + 1) else a.row
  }

  /** How many of them call the provider. */
  function Calls(w: World, id: Id, row: Row, made: nat): (n: nat)
    requires made < NOTIFICATIONS_MAX_ATTEMPTS
    ensures n <= NOTIFICATIONS_MAX_ATTEMPTS - made
    decreases NOTIFICATIONS_MAX_ATTEMPTS - made
  {
    var a := TryOnce(w, id, row, made);
    (if a.called then 1 else 0)
    + if a.threw && made + 1 < NOTIFICATIONS_MAX_ATTEMPTS then Calls(w, id, a.row, made + 1) else 0
  }

  /** Whether the last of them throws too, so that the job counts as failed. */
  predicate Exhausts(w: World, id: Id, row: Row, made: nat)
    requires made < NOTIFICATIONS_MAX_ATTEMPTS
    decreases NOTIFICATIONS_MAX_ATTEMPTS - made
  {
    var a := TryOnce(w, id, row, made);
    a.threw && (made + 1 >= NOTIFICATIONS_MAX_ATTEMPTS || Exhausts(w, id, a.row, made + 1))
  }

  lemma OneAttempt(w: World, id: Id, row: Row, made: nat)
    requires made < NOTIFICATIONS_MAX_ATTEMPTS
    ensures var a := TryOnce(w, id, row, made);
            var again := a.threw && made + 1 < NOTIFICATIONS_MAX_ATTEMPTS;
            && TryAll(w, id, row, made) == (if again then TryAll(w, id, a.row, made + 1) else a.row)
            && Calls(w, id, row, made)
               == (if a.called then 1 else 0) + (if again then Calls(w, id, a.row, made + 1) else 0)
            && Exhausts(w, id, row, made) == if again then Exhausts(w, id, a.row, made + 1) else a.threw
  {
  }

  // ---- how a job ends, told from what the provider accepts

  /** The row is not sent yet, its template is known, and it is not suppressed by the mute switch, which one-time
      passwords and password resets pass. */
  predicate ReachesProvider(w: World, row: Row) {
    row.status != Sent && row.template in w.templates && (row.template in {"otp", "password-reset"} || !w.muted)
  }

  /** Of the attempts from `made` on, attempt `k` is the first that the provider accepts. */
  ghost predicate IsFirstAccepted(w: World, id: Id, made: nat, k: nat) {
    made <= k < 5 && w.accepts(id, k) && forall j: nat | made <= j < k :: !w.accepts(id, j)
  }

  /** The mail is sent by the first attempt that is accepted. */
  lemma {:induction false} AcceptedAttemptSends(w: World, id: Id, row: Row, made: nat, k: nat)
    requires ReachesProvider(w, row) && IsFirstAccepted(w, id, made, k)
    ensures TryAll(w, id, row, made)
         == row.(status := Sent, provider := Some(w.provider), attempts := row.attempts + k - made)
    ensures Calls(w, id, row, made) == k - made + 1 && !Exhausts(w, id, row, made)
    decreases 5 - made
  {
    if made < k { AcceptedAttemptSends(w, id, TryOnce(w, id, row, made).row, made + 1, k); }
  }

  /** When none is accepted, the last one fails the row. */
  lemma {:induction false} NoAcceptedAttemptFails(w: World, id: Id, row: Row, made: nat)
    requires ReachesProvider(w, row) && made < 5 && forall k: nat :: !IsFirstAccepted(w, id, made, k)
    ensures TryAll(w, id, row, made) == row.(status := Failed, attempts := row.attempts + 5 - made)
    ensures Calls(w, id, row, made) == 5 - made && Exhausts(w, id, row, made)
    decreases 5 - made
  {
    assert !IsFirstAccepted(w, id, made, made);
    if made < 4 {
      var next := made + 1;
      forall k: nat ensures !IsFirstAccepted(w, id, next, k) { assert !IsFirstAccepted(w, id, made, k); }
      NoAcceptedAttemptFails(w, id, TryOnce(w, id, row, made).row, next);
    }
  }

  lemma UnknownTemplateFails(w: World, id: Id, row: Row, made: nat)
    requires row.status != Sent && row.template !in w.templates && made < 5
    ensures TryAll(w, id, row, made) == row.(status := Failed, attempts := row.attempts + 1)
    ensures Calls(w, id, row, made) == 0 && !Exhausts(w, id, row, made)
  {
  }

  lemma MutedIsSuppressed(w: World, id: Id, row: Row, made: nat)
    requires row.status != Sent && row.template in w.templates && made < 5
    requires w.muted && row.template != "otp" && row.template != "password-reset"
    ensures TryAll(w, id, row, made) == row.(status := Sent, provider := Some("muted"))
    ensures Calls(w, id, row, made) == 0 && !Exhausts(w, id, row, made)
  {
  }

  /** All of this together: the row and the number of provider calls at the end of a job. */
  ghost predicate EndsAs(w: World, id: Id, row0: Row, made: nat, row: Row, calls: int) {
    if row0.status == Sent then row == row0 && calls == 0
    else if row0.template !in w.templates then
      row == row0.(status := Failed, attempts := row0.attempts + 1) && calls == 0
    else if !ReachesProvider(w, row0) then
      row == row0.(status := Sent, provider := Some("muted")) && calls == 0
    else if exists k: nat :: IsFirstAccepted(w, id, made, k) then
      exists k: nat :: IsFirstAccepted(w, id, made, k) && calls == k - made + 1
        && row == row0.(status := Sent, provider := Some(w.provider), attempts := row0.attempts + k - made)
    else made < 5 && row == row0.(status := Failed, attempts := row0.attempts + 5 - made) && calls == 5 - made
  }

  lemma AttemptsEnd(w: World, id: Id, row: Row, made: nat)
    requires made < 5
    ensures EndsAs(w, id, row, made, TryAll(w, id, row, made), Calls(w, id, row, made))
  {
    if ReachesProvider(w, row) {
      hide TryAll, Calls, IsFirstAccepted;
      if k: nat :| IsFirstAccepted(w, id, made, k) {
        AcceptedAttemptSends(w, id, row, made, k);
      } else {
        NoAcceptedAttemptFails(w, id, row, made);
      }
    }
  }

  /** A job that had made `made` attempts has been run to its end. */
  ghost predicate HasRun(w: World, id: Id, row0: Row, made: nat, row: Row, calls0: nat, calls: nat) {
    made < NOTIFICATIONS_MAX_ATTEMPTS && row == TryAll(w, id, row0, made) && calls == calls0 + Calls(w, id, row0, made)
  }

  function Count(m: map<Id, nat>, id: Id): nat {
    if id in m then m[id] else 0
  }

  /** The rows that a sweep at `now` considers: queued for more than two minutes, with an attempt left. */
  ghost function Backlog(rows: map<Id, Row>, now: nat): set<Id> {
    set id | id in rows && rows[id].status == Queued && rows[id].createdAt + 120000 < now && rows[id].attempts < 5
  }

  /** `ORDER BY created_at ASC`. */
  ghost predicate IsByAge(listing: seq<Id>, rows: map<Id, Row>) {
    && NoDuplicates(listing)
    && (forall id :: id in listing <==> id in rows)
    && (forall i, j | 0 <= i < j < |listing| && listing[i] in rows && listing[j] in rows ::
          rows[listing[i]].createdAt <= rows[listing[j]].createdAt)
  }

  /** Filter, keep the order, take the first `limit`. */
  function OldestStale(listing: seq<Id>, rows: map<Id, Row>, now: nat, limit: nat): (r: seq<Id>)
    ensures |r| <= limit
    ensures forall id | id in r :: id in listing && id in rows && IsStale(rows[id], now)
    ensures |r| < limit ==> forall id | id in listing && id in rows && IsStale(rows[id], now) :: id in r
  {
    if listing == [] || limit == 0 then []
    else if listing[0] in rows && IsStale(rows[listing[0]], now) then
      [listing[0]] + OldestStale(listing[1..], rows, now, limit - 1)
    else OldestStale(listing[1..], rows, now, limit)
  }

  /** A sweep takes rows of the backlog only, and all of them when the batch is not full. */
  lemma SweptIsBacklog(listing: seq<Id>, rows: map<Id, Row>, now: nat, limit: nat)
    requires IsByAge(listing, rows)
    ensures var batch := OldestStale(listing, rows, now, limit);
            && (forall id | id in batch :: id in Backlog(rows, now))
            && (|batch| < limit ==> forall id | id in Backlog(rows, now) :: id in batch)
  {
  }

  /** Whatever is skipped is no older than whatever is taken. */
  lemma {:induction false} TakenAreOldest(listing: seq<Id>, rows: map<Id, Row>, now: nat, limit: nat, a: Id, b: Id)
    requires NoDuplicates(listing)
    requires forall id | id in listing :: id in rows
    requires forall i, j | 0 <= i < j < |listing| :: rows[listing[i]].createdAt <= rows[listing[j]].createdAt
    requires b in OldestStale(listing, rows, now, limit)
    requires a in listing && IsStale(rows[a], now) && a !in OldestStale(listing, rows, now, limit)
    ensures rows[b].createdAt <= rows[a].createdAt
  {
    if b != listing[0] {
      var limit' := if IsStale(rows[listing[0]], now) then limit - 1 else limit;
      TakenAreOldest(listing[1..], rows, now, limit', a, b);
    }
  }

  function Ids(s: seq<Id>): set<Id> {
    set id | id in s
  }

  lemma DistinctTail(s: seq<Id>)
    requires NoDuplicates(s) && s != []
    ensures NoDuplicates(s[1..]) && s[0] !in s[1..]
  {
  }

  lemma {:induction false} TakenAreDistinct(listing: seq<Id>, rows: map<Id, Row>, now: nat, limit: nat)
    requires NoDuplicates(listing)
    ensures |Ids(OldestStale(listing, rows, now, limit))| == |OldestStale(listing, rows, now, limit)|
  {
    hide NoDuplicates, IsStale, Ids;
    if listing == [] || limit == 0 {
      assert Ids([]) == {} by { NoIds(); }
    } else {
      DistinctTail(listing);
      if listing[0] in rows && IsStale(rows[listing[0]], now) {
        TakenAreDistinct(listing[1..], rows, now, limit - 1);
        OneMoreId(listing[0], OldestStale(listing[1..], rows, now, limit - 1));
      } else {
        TakenAreDistinct(listing[1..], rows, now, limit);
      }
    }
  }

  lemma NoIds()
    ensures Ids([]) == {}
  {
  }

  lemma OneMoreId(x: Id, rest: seq<Id>)
    requires x !in rest
    ensures |Ids([x] + rest)| == 1 + |Ids(rest)|
  {
    assert Ids([x] + rest) == {x} + Ids(rest);
  }

  /** How the rows of a backlog `b` stand after some rounds: untouched and without a job, or settled within the
      allowed number of calls; no row has gone back into the queue, and the rows that have been added are not as
      old as the backlog. */
  ghost predicate IsDraining(w: World, rows0: map<Id, Row>, calls0: map<Id, nat>, rows: map<Id, Row>, jobs: map<Id,
                             Job>,
                             calls: map<Id, nat>, b: set<Id>, now0: nat) {
    && rows0.Keys <= rows.Keys && b <= rows0.Keys
    && (forall id | id in rows0 :: IsKeptOrSettled(rows0[id], rows[id]))
    && (forall id | id in rows && id !in rows0 :: IsYoung(rows[id], now0))
    && (forall id | id in b ::
          IsUntouchedOrSettled(w, rows0[id], rows[id], id, jobs, Count(calls0, id), Count(calls, id)))
  }

  ghost predicate IsUntouchedOrSettled(w: World, row0: Row, row: Row, id: Id, jobs: map<Id, Job>, calls0: nat,
                                       calls: nat)
  {
    if row.status == Queued then id !in jobs && row == row0 && calls == calls0
    else (id in jobs ==> jobs[id].state == Retained) && HasRun(w, id, row0, 0, row, calls0, calls)
  }

  predicate IsKeptOrSettled(row0: Row, row: Row) {
    row == row0 || (row.status != Queued && row.createdAt == row0.createdAt)
  }

  /** Too young to be stale at this time. */
  predicate IsYoung(row: Row, now: nat) {
    now <= row.createdAt + NOTIFICATIONS_SWEEP_STALE_MS
  }

  function StillQueued(rows: map<Id, Row>, b: set<Id>): set<Id> {
    set id | id in b && id in rows && rows[id].status == Queued
  }

  /** A sweep spends its whole batch on the backlog as long as the backlog fills it: whatever has become
      stale since, or been added since, is younger. */
  lemma SweepTakesBacklogFirst(rows0: map<Id, Row>, rows: map<Id, Row>, b: set<Id>, listing: seq<Id>, now0: nat,
                               now: nat, limit: nat)
    requires b == Backlog(rows0, now0) && now0 <= now && rows0.Keys <= rows.Keys && IsByAge(listing, rows)
    requires forall id | id in rows0 :: IsKeptOrSettled(rows0[id], rows[id])
    requires forall id | id in rows && id !in rows0 :: IsYoung(rows[id], now0)
    ensures var batch := Ids(OldestStale(listing, rows, now, limit));
            && (forall id | id in batch :: id in rows && rows[id].status == Queued)
            && (StillQueued(rows, b) <= batch || (batch <= StillQueued(rows, b) && |batch| == limit))
  {
    var taken := OldestStale(listing, rows, now, limit);
    var left := StillQueued(rows, b);
    TakenAreDistinct(listing, rows, now, limit);
    assert forall id | id in taken :: id in rows && IsStale(rows[id], now);
    if a :| a in left && a !in taken {
      StaleIsTakenOrOldest(listing, rows, now, limit, a);
      hide OldestStale, IsByAge;
      forall x | x in taken ensures x in left {
        assert rows[x].createdAt <= rows[a].createdAt && rows[a] == rows0[a];
        assert x in rows0 && rows[x] == rows0[x];
      }
      assert |taken| == limit;
    }
  }

  /** If a stale row is left out, the batch is full of rows that are no younger. */
  lemma StaleIsTakenOrOldest(listing: seq<Id>, rows: map<Id, Row>, now: nat, limit: nat, a: Id)
    requires IsByAge(listing, rows) && a in rows && IsStale(rows[a], now)
             && a !in OldestStale(listing, rows, now, limit)
    ensures |OldestStale(listing, rows, now, limit)| == limit
    ensures forall x | x in OldestStale(listing, rows, now, limit) ::
              x in rows && rows[x].createdAt <= rows[a].createdAt
  {
    forall x | x in OldestStale(listing, rows, now, limit) ensures rows[x].createdAt <= rows[a].createdAt {
      TakenAreOldest(listing, rows, now, limit, a, x);
    }
  }

  /** One round keeps this, and takes a full batch off what is left or all of it. */
  lemma RoundDrains(w: World, rows0: map<Id, Row>, calls0: map<Id, nat>, rows: map<Id, Row>, jobs: map<Id, Job>,
                    calls: map<Id, nat>, rows': map<Id, Row>, jobs': map<Id, Job>, calls': map<Id, nat>, b: set<Id>,
                    batch: set<Id>, limit: nat, now0: nat)
    requires IsDraining(w, rows0, calls0, rows, jobs, calls, b, now0)
             && IsRoundOf(w, rows, jobs, calls, rows', jobs', calls', batch)
    requires forall id | id in batch :: id in rows && rows[id].status == Queued
    requires StillQueued(rows, b) <= batch || (batch <= StillQueued(rows, b) && |batch| == limit)
    ensures IsDraining(w, rows0, calls0, rows', jobs', calls', b, now0)
    ensures StillQueued(rows', b) == {} || |StillQueued(rows', b)| <= |StillQueued(rows, b)| - limit
  {
    RoundKeepsDraining(w, rows0, calls0, rows, jobs, calls, rows', jobs', calls', b, batch, now0);
    assert forall id | id in b ::
      IsUntouchedOrSettled(w, rows0[id], rows[id], id, jobs, Count(calls0, id), Count(calls, id));
    BatchIsTaken(w, rows, jobs, calls, rows', jobs', calls', b, batch);
    hide IsRoundOf, IsDraining, StillQueued;
    var left := StillQueued(rows, b);
    if !(left <= batch) { assert left == batch + (left - batch); }
  }

  lemma RoundKeepsDraining(w: World, rows0: map<Id, Row>, calls0: map<Id, nat>, rows: map<Id, Row>, jobs: map<Id, Job>,
                           calls: map<Id, nat>, rows': map<Id, Row>, jobs': map<Id, Job>, calls': map<Id, nat>,
                           b: set<Id>, batch: set<Id>, now0: nat)
    requires IsDraining(w, rows0, calls0, rows, jobs, calls, b, now0)
             && IsRoundOf(w, rows, jobs, calls, rows', jobs', calls', batch)
    requires forall id | id in batch :: id in rows && rows[id].status == Queued
    ensures IsDraining(w, rows0, calls0, rows', jobs', calls', b, now0)
  {
    forall id | id in b
      ensures IsUntouchedOrSettled(w, rows0[id], rows'[id], id, jobs', Count(calls0, id), Count(calls', id))
    {
      OneRowDrains(w, rows0[id], calls0, rows, jobs, calls, rows', jobs', calls', batch, id);
    }
    hide Count, IsUntouchedOrSettled;
    forall id | id in rows0 ensures IsKeptOrSettled(rows0[id], rows'[id]) {
      assert IsKeptOrSettled(rows0[id], rows[id]) && IsKeptOrSettled(rows[id], rows'[id]);
    }
  }

  lemma OneRowDrains(w: World, row0: Row, calls0: map<Id, nat>, rows: map<Id, Row>, jobs: map<Id, Job>, calls: map<Id,
                     nat>,
                     rows': map<Id, Row>, jobs': map<Id, Job>, calls': map<Id, nat>, batch: set<Id>, id: Id)
    requires IsRoundOf(w, rows, jobs, calls, rows', jobs', calls', batch)
    requires id in rows && IsUntouchedOrSettled(w, row0, rows[id], id, jobs, Count(calls0, id), Count(calls, id))
    requires id in batch ==> rows[id].status == Queued
    ensures IsUntouchedOrSettled(w, row0, rows'[id], id, jobs', Count(calls0, id), Count(calls', id))
  {
    hide Count;
    assert IsKeptOrSettled(rows[id], rows'[id]);
  }

  lemma BatchIsTaken(w: World, rows: map<Id, Row>, jobs: map<Id, Job>, calls: map<Id, nat>,
                     rows': map<Id, Row>, jobs': map<Id, Job>, calls': map<Id, nat>, b: set<Id>, batch: set<Id>)
    requires IsRoundOf(w, rows, jobs, calls, rows', jobs', calls', batch)
    requires forall id | id in b :: id in rows && (rows[id].status == Queued ==> id !in jobs)
    ensures StillQueued(rows', b) == StillQueued(rows, b) - batch
  {
    hide Count;
    forall id ensures id in StillQueued(rows', b) <==> id in StillQueued(rows, b) - batch {
      if id in b { assert IsKeptOrSettled(rows[id], rows'[id]); }
    }
  }

  /** Rows that are dispatched between two rounds do not disturb it. */
  lemma DispatchKeepsDraining(w: World, rows0: map<Id, Row>, calls0: map<Id, nat>, rows: map<Id, Row>, jobs: map<Id,
                              Job>,
                              calls: map<Id, nat>, added: map<Id, Row>, jobs': map<Id, Job>, b: set<Id>, now0: nat)
    requires IsDraining(w, rows0, calls0, rows, jobs, calls, b, now0) && added.Keys !! rows.Keys
    requires forall id | id in added :: IsYoung(added[id], now0)
    requires forall id | id !in added :: (id in jobs' <==> id in jobs) && (id in jobs ==> jobs'[id] == jobs[id])
    ensures IsDraining(w, rows0, calls0, rows + added, jobs', calls, b, now0)
    ensures StillQueued(rows + added, b) == StillQueued(rows, b)
  {
  }

  /** The rows of the table after these dispatches, but for what has become of them. */
  function Arrived(rows: map<Id, Row>, arrivals: seq<map<Id, Row>>): map<Id, Row> {
    if arrivals == [] then rows else Arrived(rows, arrivals[..|arrivals| - 1]) + arrivals[|arrivals| - 1]
  }

  /** The same rows, and as old. */
  ghost predicate SameAges(rows: map<Id, Row>, rows': map<Id, Row>) {
    rows'.Keys == rows.Keys && forall id | id in rows :: rows'[id].createdAt == rows[id].createdAt
  }

  lemma ListingStaysByAge(listing: seq<Id>, rows: map<Id, Row>, rows': map<Id, Row>)
    requires IsByAge(listing, rows) && SameAges(rows, rows')
    ensures IsByAge(listing, rows')
  {
  }

  /** What one round does to rows, jobs and calls, given the batch that its sweep took. */
  ghost predicate IsRoundOf(w: World, rows: map<Id, Row>, jobs: map<Id, Job>, calls: map<Id, nat>,
                            rows': map<Id, Row>, jobs': map<Id, Job>, calls': map<Id, nat>, batch: set<Id>) {
    && rows'.Keys == rows.Keys
    && (forall id | id in jobs' :: jobs'[id].state == Retained)
    && (forall id | id in rows :: IsKeptOrSettled(rows[id], rows'[id]))
    && (forall id | id in batch && id in rows && id !in jobs ::
          HasRun(w, id, rows[id], 0, rows'[id], Count(calls, id), Count(calls', id)))
    && (forall id | id in rows && id !in batch && id !in jobs ::
          id !in jobs' && rows'[id] == rows[id] && Count(calls', id) == Count(calls, id))
    && (forall id | id in jobs && jobs[id].state == Retained ::
          && id in jobs' && jobs'[id] == jobs[id]
          && (id in rows ==> rows'[id] == rows[id] && Count(calls', id) == Count(calls, id)))
  }

  /** No job is active, and a waiting one has an attempt left. */
  ghost predicate AreFresh(jobs: map<Id, Job>) {
    forall id | id in jobs ::
      jobs[id].state != Active && (jobs[id].state == Waiting ==> jobs[id].attemptsMade < NOTIFICATIONS_MAX_ATTEMPTS)
  }

  ghost predicate IsWaiting(jobs: map<Id, Job>, id: Id) {
    id in jobs && jobs[id].state == Waiting
  }

  /** From the state `rows0`, `jobs0`, `calls0`, the waiting jobs other than `waiting` have been run to their end. */
  ghost predicate HaveRun(w: World, rows0: map<Id, Row>, jobs0: map<Id, Job>, calls0: map<Id, nat>,
                          rows: map<Id, Row>, jobs: map<Id, Job>, calls: map<Id, nat>, waiting: set<Id>) {
    && rows.Keys == rows0.Keys
    && (forall id | id in waiting :: IsWaiting(jobs0, id) && id in jobs && jobs[id] == jobs0[id])
    && (forall id | id in jobs && id !in waiting :: jobs[id].state == Retained)
    && (forall id | !IsWaiting(jobs0, id) :: (id in jobs <==> id in jobs0) && (id in jobs ==> jobs[id] == jobs0[id]))
    && (forall id | id in rows ::
          if IsWaiting(jobs0, id) && id !in waiting then
            HasRun(w, id, rows0[id], jobs0[id].attemptsMade, rows[id], Count(calls0, id), Count(calls, id))
          else
            rows[id] == rows0[id] && Count(calls, id) == Count(calls0, id))
  }

  lemma NoneHasRun(w: World, rows: map<Id, Row>, jobs: map<Id, Job>, calls: map<Id, nat>, waiting: set<Id>)
    requires AreFresh(jobs) && waiting == set id | id in jobs && jobs[id].state == Waiting
    ensures HaveRun(w, rows, jobs, calls, rows, jobs, calls, waiting)
  {
    hide HasRun;
  }

  lemma OneMoreHasRun(w: World, rows0: map<Id, Row>, jobs0: map<Id, Job>, calls0: map<Id, nat>,
                      rows1: map<Id, Row>, jobs1: map<Id, Job>, calls1: map<Id, nat>,
                      rows: map<Id, Row>, jobs: map<Id, Job>, calls: map<Id, nat>, waiting: set<Id>, id: Id)
    requires HaveRun(w, rows0, jobs0, calls0, rows1, jobs1, calls1, waiting) && id in waiting
    requires id in jobs1 && jobs1[id].attemptsMade < NOTIFICATIONS_MAX_ATTEMPTS
    requires rows == if id in rows1 then rows1[id := TryAll(w, id, rows1[id], jobs1[id].attemptsMade)] else rows1
    requires jobs == jobs1 - {id} || jobs == jobs1[id := Job(Retained, NOTIFICATIONS_MAX_ATTEMPTS)]
    requires forall i | i != id :: Count(calls, i) == Count(calls1, i)
    requires id in rows1 ==> Count(calls, id) == Count(calls1, id) + Calls(w, id, rows1[id], jobs1[id].attemptsMade)
    ensures HaveRun(w, rows0, jobs0, calls0, rows, jobs, calls, waiting - {id})
  {
    hide TryAll, Calls, Count;
    assert id in rows ==>
        HasRun(w, id, rows0[id], jobs0[id].attemptsMade, rows[id], Count(calls0, id), Count(calls, id));
    hide HasRun, IsWaiting;
    assert IsWaiting(jobs0, id);
  }

  /** A sweep that adds a job for each row of its batch, and then all the jobs. */
  lemma RunsMakeARound(w: World, rows0: map<Id, Row>, jobs0: map<Id, Job>, swept: map<Id, Job>, calls0: map<Id, nat>,
                       rows: map<Id, Row>, jobs: map<Id, Job>, calls: map<Id, nat>, batch: set<Id>)
    requires HaveRun(w, rows0, swept, calls0, rows, jobs, calls, {}) && AreFresh(jobs0)
    requires forall id :: (id in swept <==> id in jobs0 || id in batch)
                       && (id in swept ==> swept[id] == if id in jobs0 then jobs0[id] else Job(Waiting, 0))
    ensures IsRoundOf(w, rows0, jobs0, calls0, rows, jobs, calls, batch)
  {
    hide TryAll, Calls, Count;
  }

  class Outbox {
    var rows: map<Id, Row>
    var jobs: map<Id, Job>

    /** Provider calls so far, row by row. */
    ghost var calls: map<Id, nat>

    /** `queue.add` with the outbox id as job id: adding an id that is there already does nothing. */
    method Add(id: Id)
      modifies `jobs
      ensures jobs == if id in old(jobs) then old(jobs) else old(jobs)[id := Job(Waiting, 0)]
    {
      if id !in jobs { jobs := jobs[id := Job(Waiting, 0)]; }
    }

    method MarkSent(id: Id, provider: string)
      requires id in rows
      modifies `rows
      ensures rows == old(rows)[id := SentRow(old(rows)[id], provider)]
    {
      rows := rows[id := rows[id].(status := Sent, provider := Some(provider))];
    }

    method RecordFailedAttempt(id: Id, final: bool)
      requires id in rows
      modifies `rows
      ensures rows == old(rows)[id := FailedAttempt(old(rows)[id], final)]
    {
      var row := rows[id];
      rows := rows[id := row.(attempts := row.attempts + 1, status := if final then Failed else Queued)];
    }

    method ProcessSend(w: World, id: Id, made: nat) returns (threw: bool)
      modifies `rows, `calls
      ensures id !in old(rows) ==> !threw && rows == old(rows) && calls == old(calls)
      ensures id in old(rows) ==>
                var a := TryOnce(w, id, old(rows)[id], made);
                && threw == a.threw && rows == old(rows)[id := a.row]
                && (forall i | i != id :: Count(calls, i) == Count(old(calls), i))
                && Count(calls, id) == Count(old(calls), id) + (if a.called then 1 else 0)
    {
      threw := false;
      if id !in rows { return; }
      var row := rows[id];
      if row.status == Sent {
        assert rows == rows[id := row];
        return;
      }
      if row.template !in w.templates {
        RecordFailedAttempt(id, true);
        return;
      }
      if !IsAuthTemplate(row.template) && w.muted {
        MarkSent(id, "muted");
        return;
      }
      calls := calls[id := Count(calls, id) + 1];
      if w.accepts(id, made) {
        MarkSent(id, w.provider);
      } else {
        RecordFailedAttempt(id, made + 1 >= NOTIFICATIONS_MAX_ATTEMPTS);
        threw := true;
      }
    }

    /** A waiting job, attempt after attempt: removed when it completes, retained when it has failed. */
    method RunJob(w: World, id: Id)
      requires id in jobs && jobs[id].state == Waiting && jobs[id].attemptsMade < NOTIFICATIONS_MAX_ATTEMPTS
      modifies this
      ensures jobs == if id in old(rows) && Exhausts(w, id, old(rows)[id], old(jobs)[id].attemptsMade)
                      then old(jobs)[id := Job(Retained, NOTIFICATIONS_MAX_ATTEMPTS)] else old(jobs) - {id}
      ensures rows == if id in old(rows) then old(rows)[id := TryAll(w, id, old(rows)[id], old(jobs)[id].attemptsMade)]
                      else old(rows)
      ensures forall i | i != id :: Count(calls, i) == Count(old(calls), i)
      ensures Count(calls, id) == Count(old(calls), id)
              + (if id in old(rows) then Calls(w, id, old(rows)[id], old(jobs)[id].attemptsMade) else 0)
    {
      hide TryAll, Calls, Exhausts, TryOnce;
      var made := jobs[id].attemptsMade;
      ghost var rows0, calls0, made0 := rows, calls, made;
      while true
        invariant made0 <= made < NOTIFICATIONS_MAX_ATTEMPTS
        invariant jobs == old(jobs)
        invariant id !in rows0 ==> rows == rows0 && calls == calls0
        invariant id in rows0 ==> id in rows && rows == rows0[id := rows[id]]
        invariant id in rows0 ==> TryAll(w, id, rows[id], made) == TryAll(w, id, rows0[id], made0)
        invariant id in rows0 ==>
                    Count(calls, id) + Calls(w, id, rows[id], made) == Count(calls0, id)
                      + Calls(w, id, rows0[id], made0)
        invariant id in rows0 ==> Exhausts(w, id, rows[id], made) == Exhausts(w, id, rows0[id], made0)
        invariant forall i | i != id :: Count(calls, i) == Count(calls0, i)
        decreases NOTIFICATIONS_MAX_ATTEMPTS - made
      {
        if id in rows { OneAttempt(w, id, rows[id], made); }
        var threw := ProcessSend(w, id, made);
        if !threw {
          jobs := jobs - {id};
          return;
        }
        made := made + 1;
        if made >= NOTIFICATIONS_MAX_ATTEMPTS {
          jobs := jobs[id := Job(Retained, made)];
          return;
        }
      }
    }

    /** Every enqueue of the sweep succeeds here. */
    method Sweep(now: nat, listing: seq<Id>)
      requires IsByAge(listing, rows)
      modifies `jobs
      ensures var batch := OldestStale(listing, rows, now, NOTIFICATIONS_SWEEP_BATCH_SIZE);
              forall id :: (id in jobs <==> id in old(jobs) || id in batch)
                        && (id in jobs ==> jobs[id] == if id in old(jobs) then old(jobs)[id] else Job(Waiting, 0))
    {
      var stale := OldestStale(listing, rows, now, NOTIFICATIONS_SWEEP_BATCH_SIZE);
      for i := 0 to |stale|
        invariant forall id :: (id in jobs <==> id in old(jobs) || id in stale[..i])
        invariant forall id | id in jobs :: jobs[id] == if id in old(jobs) then old(jobs)[id] else Job(Waiting, 0)
      {
        Add(stale[i]);
      }
    }

    /** The workers run every waiting job to its end. */
    method RunAllJobs(w: World)
      requires AreFresh(jobs)
      modifies this
      ensures AreFresh(jobs) && HaveRun(w, old(rows), old(jobs), old(calls), rows, jobs, calls, {})
    {
      hide HaveRun, HasRun, TryAll, Calls, Exhausts, Count;
      ghost var rows0, jobs0, calls0 := rows, jobs, calls;
      var waiting := set id | id in jobs && jobs[id].state == Waiting;
      NoneHasRun(w, rows, jobs, calls, waiting);
      while waiting != {}
        invariant AreFresh(jobs) && waiting <= set id | id in jobs && jobs[id].state == Waiting
        invariant HaveRun(w, rows0, jobs0, calls0, rows, jobs, calls, waiting)
      {
        var id :| id in waiting;
        ghost var rows1, jobs1, calls1 := rows, jobs, calls;
        RunJob(w, id);
        OneMoreHasRun(w, rows0, jobs0, calls0, rows1, jobs1, calls1, rows, jobs, calls, waiting, id);
        waiting := waiting - {id};
      }
    }

    /** One round: a sweep, and then all the jobs. */
    method Round(w: World, now: nat, listing: seq<Id>)
      requires IsByAge(listing, rows) && AreFresh(jobs)
      modifies this
      ensures AreFresh(jobs)
      ensures IsRoundOf(w, old(rows), old(jobs), old(calls), rows, jobs, calls,
                        Ids(OldestStale(listing, old(rows), now, NOTIFICATIONS_SWEEP_BATCH_SIZE)))
    {
      hide OldestStale, IsStale, HaveRun;
      Sweep(now, listing);
      ghost var swept := jobs;
      RunAllJobs(w);
      RunsMakeARound(w, old(rows), old(jobs), swept, old(calls), rows, jobs, calls,
                     Ids(OldestStale(listing, old(rows), now, NOTIFICATIONS_SWEEP_BATCH_SIZE)));
    }

    /** `createQueued`, and then an enqueue for each row, of which some fail. */
    method Dispatch(added: map<Id, Row>, enqueued: set<Id>)
      requires added.Keys !! rows.Keys && enqueued <= added.Keys && AreFresh(jobs)
      modifies `rows, `jobs
      ensures rows == old(rows) + added && AreFresh(jobs)
      ensures forall id | id !in enqueued ::
                (id in jobs <==> id in old(jobs)) && (id in jobs ==> jobs[id] == old(jobs)[id])
      ensures forall id | id in enqueued :: id in jobs
    {
      rows := rows + added;
      var left := enqueued;
      while left != {}
        invariant left <= enqueued && AreFresh(jobs) && rows == old(rows) + added
        invariant forall id | id !in enqueued ::
                    (id in jobs <==> id in old(jobs)) && (id in jobs ==> jobs[id] == old(jobs)[id])
        invariant forall id | id in enqueued && id !in left :: id in jobs
      {
        var id :| id in left;
        Add(id);
        left := left - {id};
      }
    }

    /** Draining: rounds at times that do not go back, and before each of them new rows are dispatched. The rows that
        are stale at the first round, and have no job, are all sent or failed after as many rounds as it takes at 200
        rows each, with at most 5 provider calls per row. Rows that become stale later do not slow this down. */
    method Drain(w: World, times: seq<nat>, listings: seq<seq<Id>>, arrivals: seq<map<Id, Row>>, enqueued: seq<set<Id>>)
      requires |times| == |listings| == |arrivals| == |enqueued| && times != []
      requires forall i, j | 0 <= i < j < |times| :: times[i] <= times[j]
      requires forall i | 0 <= i < |arrivals| ::
                 arrivals[i].Keys !! Arrived(rows, arrivals[..i]).Keys && enqueued[i] <= arrivals[i].Keys
      requires forall i, id | 0 <= i < |arrivals| && id in arrivals[i] :: IsYoung(arrivals[i][id], times[0])
      requires forall i | 0 <= i < |listings| :: IsByAge(listings[i], Arrived(rows, arrivals[..i + 1]))
      requires AreFresh(jobs)
      requires forall id | id in Backlog(rows, times[0]) :: id !in jobs
      requires |Backlog(rows, times[0])| <= |times| * NOTIFICATIONS_SWEEP_BATCH_SIZE
      modifies this
      ensures rows.Keys == Arrived(old(rows), arrivals).Keys
      ensures forall id | id in Backlog(old(rows), times[0]) ::
                id in rows && EndsAs(w, id, old(rows)[id], 0, rows[id], Count(calls, id) - Count(old(calls), id))
    {
      hide OldestStale, Backlog, IsByAge, IsYoung, IsRoundOf, IsDraining, Arrived, StillQueued;
      ghost var b := Backlog(rows, times[0]);
      BacklogIsQueued(rows, times[0]);
      NothingDrainedYet(w, rows, jobs, calls, b, times[0], arrivals);
      for i := 0 to |times|
        invariant AreFresh(jobs) && SameAges(Arrived(old(rows), arrivals[..i]), rows)
        invariant IsDraining(w, old(rows), old(calls), rows, jobs, calls, b, times[0])
        invariant StillQueued(rows, b) == {} || |StillQueued(rows, b)| <= (|times| - i) * NOTIFICATIONS_SWEEP_BATCH_SIZE
      {
        ghost var rows1, jobs1 := rows, jobs;
        Dispatch(arrivals[i], enqueued[i]);
        DispatchKeepsDraining(w, old(rows), old(calls), rows1, jobs1, calls, arrivals[i], jobs, b, times[0]);
        ArrivedOneMore(old(rows), arrivals, i, rows1);
        ListingStaysByAge(listings[i], Arrived(old(rows), arrivals[..i + 1]), rows);
        ghost var rows2, jobs2, calls2 := rows, jobs, calls;
        ghost var batch := Ids(OldestStale(listings[i], rows, times[i], NOTIFICATIONS_SWEEP_BATCH_SIZE));
        DrainingParts(w, old(rows), old(calls), rows, jobs, calls, b, times[0]);
        SweepTakesBacklogFirst(old(rows), rows, b, listings[i], times[0], times[i], NOTIFICATIONS_SWEEP_BATCH_SIZE);
        Round(w, times[i], listings[i]);
        RoundDrains(w, old(rows), old(calls), rows2, jobs2, calls2, rows, jobs, calls, b, batch,
                    NOTIFICATIONS_SWEEP_BATCH_SIZE, times[0]);
        RoundKeepsAges(w, rows2, jobs2, calls2, rows, jobs, calls, batch);
      }
      assert arrivals[..|times|] == arrivals;
      Drained(w, old(rows), old(calls), rows, jobs, calls, b, times[0]);
    }
  }

  lemma NothingDrainedYet(w: World, rows: map<Id, Row>, jobs: map<Id, Job>, calls: map<Id, nat>, b: set<Id>, now0: nat,
                          arrivals: seq<map<Id, Row>>)
    requires b == Backlog(rows, now0) && forall id | id in b :: id !in jobs
    ensures IsDraining(w, rows, calls, rows, jobs, calls, b, now0) && Arrived(rows, arrivals[..0]) == rows
  {
  }

  lemma ArrivedOneMore(rows0: map<Id, Row>, arrivals: seq<map<Id, Row>>, i: nat, rows: map<Id, Row>)
    requires i < |arrivals| && SameAges(Arrived(rows0, arrivals[..i]), rows)
    ensures SameAges(Arrived(rows0, arrivals[..i + 1]), rows + arrivals[i])
  {
    assert arrivals[..i + 1][..i] == arrivals[..i];
  }

  lemma DrainingParts(w: World, rows0: map<Id, Row>, calls0: map<Id, nat>, rows: map<Id, Row>, jobs: map<Id, Job>,
                      calls: map<Id, nat>, b: set<Id>, now0: nat)
    requires IsDraining(w, rows0, calls0, rows, jobs, calls, b, now0)
    ensures rows0.Keys <= rows.Keys && forall id | id in rows0 :: IsKeptOrSettled(rows0[id], rows[id])
    ensures forall id | id in rows && id !in rows0 :: IsYoung(rows[id], now0)
  {
  }

  lemma RoundKeepsAges(w: World, rows: map<Id, Row>, jobs: map<Id, Job>, calls: map<Id, nat>,
                       rows': map<Id, Row>, jobs': map<Id, Job>, calls': map<Id, nat>, batch: set<Id>)
    requires IsRoundOf(w, rows, jobs, calls, rows', jobs', calls', batch)
    ensures SameAges(rows, rows')
  {
  }

  lemma Drained(w: World, rows0: map<Id, Row>, calls0: map<Id, nat>, rows: map<Id, Row>, jobs: map<Id, Job>,
                calls: map<Id, nat>,
                b: set<Id>, now0: nat)
    requires IsDraining(w, rows0, calls0, rows, jobs, calls, b, now0) && StillQueued(rows, b) == {}
    ensures forall id | id in b ::
              id in rows && EndsAs(w, id, rows0[id], 0, rows[id], Count(calls, id) - Count(calls0, id))
  {
    hide EndsAs, TryAll, Calls, Count;
    forall id | id in b
      ensures id in rows && EndsAs(w, id, rows0[id], 0, rows[id], Count(calls, id) - Count(calls0, id))
    {
      assert id !in StillQueued(rows, b);
      AttemptsEnd(w, id, rows0[id], 0);
    }
  }

  lemma BacklogIsQueued(rows: map<Id, Row>, now: nat)
    ensures StillQueued(rows, Backlog(rows, now)) == Backlog(rows, now) <= rows.Keys
  {
  }

  // ---- the protocol does the same, one step at a time

  /** Where these steps lead, if each of them is enabled. */
  function After(steps: seq<Step>, s: State, templates: set<string>): Option<State> {
    if steps == [] then Some(s)
    else if !Enabled(steps[0], s, templates) then None
    else After(steps[1..], Apply(steps[0], s, templates), templates)
  }

  /** The steps of an attempt that nothing disturbs. */
  function AttemptSteps(world: World, w: nat, id: Id, row: Row, made: nat): seq<Step> {
    [Take(w, id), Load(w)] +
    if row.status == Sent then [Skip(w), Complete(w)]
    else if row.template !in world.templates then [RejectTemplate(w, Done), Complete(w)]
    else if !ReachesProvider(world, row) then [Mute(w, Done), Complete(w)]
    else if world.accepts(id, made) then [Call(w, true, world.provider), MarkSent(w, Done), Complete(w)]
    else [Call(w, false, world.provider), RecordFailure(w, Done)]
  }

  lemma AfterOne(step: Step, rest: seq<Step>, s: State, templates: set<string>)
    requires Enabled(step, s, templates)
    ensures After([step] + rest, s, templates) == After(rest, Apply(step, s, templates), templates)
  {
    hide Enabled, Apply;
    assert ([step] + rest)[1..] == rest;
  }

  lemma AfterTwo(a: Step, b: Step, s: State, templates: set<string>)
    requires Enabled(a, s, templates) && Enabled(b, Apply(a, s, templates), templates)
    ensures After([a, b], s, templates) == Some(Apply(b, Apply(a, s, templates), templates))
  {
    hide Enabled, Apply;
    assert [a, b] == [a] + [b] && [b] == [b] + [];
    AfterOne(a, [b], s, templates);
    AfterOne(b, [], Apply(a, s, templates), templates);
  }

  /** What an attempt leaves: the row as told above, the job gone, back in the queue, or retained after the fifth
      attempt, the worker free, and the calls counted. */
  ghost predicate IsAttempt(world: World, s: State, s': State, id: Id, row: Row, made: nat) {
    var a := TryOnce(world, id, row, made);
    && s'.rows == s.rows[id := a.row] && s'.workers == s.workers && s'.pending == s.pending
    && s'.jobs == (if a.threw then s.jobs[id := Job(if made + 1 >= 5 then Retained else Waiting, made + 1)]
                   else s.jobs - {id})
    && (forall i | i != id :: TallyOf(s', i) == TallyOf(s, i))
    && TallyOf(s', id).calls == TallyOf(s, id).calls + (if a.called then 1 else 0)
    && TallyOf(s', id).deliveries == TallyOf(s, id).deliveries + (if a.called && !a.threw then 1 else 0)
    && TallyOf(s', id).markFailures == TallyOf(s, id).markFailures
  }

  /** The worker has the row in its hands. */
  function Held(s: State, w: nat, id: Id, made: nat, row: Row): State {
    s.(jobs := s.jobs[id := Job(Active, made)], workers := s.workers[w := Worker(id, made, Loaded(Some(row)))])
  }

  lemma TakenAndLoaded(s: State, w: nat, id: Id, made: nat, templates: set<string>)
    requires w !in s.workers && id in s.rows && id in s.jobs && s.jobs[id] == Job(Waiting, made)
    ensures Enabled(Take(w, id), s, templates) && Enabled(Load(w), Apply(Take(w, id), s, templates), templates)
    ensures Apply(Load(w), Apply(Take(w, id), s, templates), templates) == Held(s, w, id, made, s.rows[id])
  {
  }

  lemma SkippedEnds(world: World, s: State, w: nat, id: Id, made: nat)
    requires w !in s.workers && id in s.rows && id in s.jobs && s.rows[id].status == Sent
    ensures var held := Held(s, w, id, made, s.rows[id]);
            && Enabled(Skip(w), held, world.templates)
            && Enabled(Complete(w), Apply(Skip(w), held, world.templates), world.templates)
            && IsAttempt(world, s, Apply(Complete(w), Apply(Skip(w), held, world.templates), world.templates), id,
                         s.rows[id], made)
  {
  }

  lemma RejectedEnds(world: World, s: State, w: nat, id: Id, made: nat)
    requires w !in s.workers && id in s.rows && id in s.jobs
    requires s.rows[id].status != Sent && s.rows[id].template !in world.templates
    ensures var held, step := Held(s, w, id, made, s.rows[id]), RejectTemplate(w, Done);
            && Enabled(step, held, world.templates)
            && Enabled(Complete(w), Apply(step, held, world.templates), world.templates)
            && IsAttempt(world, s, Apply(Complete(w), Apply(step, held, world.templates), world.templates), id,
                         s.rows[id], made)
  {
  }

  lemma MutedEnds(world: World, s: State, w: nat, id: Id, made: nat)
    requires w !in s.workers && id in s.rows && id in s.jobs
    requires s.rows[id].status != Sent && s.rows[id].template in world.templates && !ReachesProvider(world, s.rows[id])
    ensures var held, step := Held(s, w, id, made, s.rows[id]), Mute(w, Done);
            && Enabled(step, held, world.templates)
            && Enabled(Complete(w), Apply(step, held, world.templates), world.templates)
            && IsAttempt(world, s, Apply(Complete(w), Apply(step, held, world.templates), world.templates), id,
                         s.rows[id], made)
  {
  }

  /** The call has been accepted. */
  function Accepted(s: State, w: nat, id: Id, made: nat, provider: string): State {
    var t := TallyOf(s, id);
    s.(jobs := s.jobs[id := Job(Active, made)], workers := s.workers[w := Worker(id, made, Delivered(provider))],
       tallies := s.tallies[id := t.(calls := t.calls + 1, deliveries := t.deliveries + 1)])
  }

  lemma CallIsAccepted(world: World, s: State, w: nat, id: Id, made: nat)
    requires w !in s.workers && id in s.rows && id in s.jobs
    requires ReachesProvider(world, s.rows[id]) && world.provider != "muted"
    ensures var held, call := Held(s, w, id, made, s.rows[id]), Call(w, true, world.provider);
            && Enabled(call, held, world.templates)
            && Apply(call, held, world.templates) == Accepted(s, w, id, made, world.provider)
  {
  }

  lemma AcceptedIsMarked(world: World, s: State, w: nat, id: Id, made: nat)
    requires w !in s.workers && id in s.rows && id in s.jobs
    requires ReachesProvider(world, s.rows[id]) && world.accepts(id, made)
    ensures var s1 := Accepted(s, w, id, made, world.provider);
            && Enabled(MarkSent(w, Done), s1, world.templates)
            && var s2 := Apply(MarkSent(w, Done), s1, world.templates);
               && Enabled(Complete(w), s2, world.templates)
               && IsAttempt(world, s, Apply(Complete(w), s2, world.templates), id, s.rows[id], made)
  {
  }

  lemma AcceptedEnds(world: World, s: State, w: nat, id: Id, made: nat)
    requires w !in s.workers && id in s.rows && id in s.jobs
    requires ReachesProvider(world, s.rows[id]) && world.provider != "muted" && world.accepts(id, made)
    ensures var held, call := Held(s, w, id, made, s.rows[id]), Call(w, true, world.provider);
            && Enabled(call, held, world.templates)
            && Enabled(MarkSent(w, Done), Apply(call, held, world.templates), world.templates)
            && var s' := Apply(MarkSent(w, Done), Apply(call, held, world.templates), world.templates);
               && Enabled(Complete(w), s', world.templates)
               && IsAttempt(world, s, Apply(Complete(w), s', world.templates), id, s.rows[id], made)
  {
    CallIsAccepted(world, s, w, id, made);
    AcceptedIsMarked(world, s, w, id, made);
    hide Enabled, Apply, IsAttempt, Held, Accepted, ReachesProvider;
  }

  lemma RefusedEnds(world: World, s: State, w: nat, id: Id, made: nat)
    requires w !in s.workers && id in s.rows && id in s.jobs
    requires ReachesProvider(world, s.rows[id]) && world.provider != "muted" && !world.accepts(id, made)
    ensures var held, call := Held(s, w, id, made, s.rows[id]), Call(w, false, world.provider);
            && Enabled(call, held, world.templates)
            && Enabled(RecordFailure(w, Done), Apply(call, held, world.templates), world.templates)
            && IsAttempt(world, s,
                         Apply(RecordFailure(w, Done), Apply(call, held, world.templates), world.templates), id,
                         s.rows[id], made)
  {
  }

  /** An attempt of the protocol that nothing disturbs is one run of `processSend`. */
  lemma AttemptFollowsProtocol(world: World, s: State, w: nat, id: Id, made: nat)
    requires w !in s.workers && id in s.rows && id in s.jobs && s.jobs[id] == Job(Waiting, made)
    requires world.provider != "muted"
    ensures var end := After(AttemptSteps(world, w, id, s.rows[id], made), s, world.templates);
            end.Some? && IsAttempt(world, s, end.value, id, s.rows[id], made)
  {
    var row, templates := s.rows[id], world.templates;
    var held := Held(s, w, id, made, row);
    var rest := AttemptSteps(world, w, id, row, made)[2..];
    TakenAndLoaded(s, w, id, made, templates);
    assert AttemptSteps(world, w, id, row, made) == [Take(w, id)] + ([Load(w)] + rest);
    AfterOne(Take(w, id), [Load(w)] + rest, s, templates);
    AfterOne(Load(w), rest, Apply(Take(w, id), s, templates), templates);
    if row.status == Sent {
      SkippedEnds(world, s, w, id, made);
    } else if row.template !in templates {
      RejectedEnds(world, s, w, id, made);
    } else if !ReachesProvider(world, row) {
      MutedEnds(world, s, w, id, made);
    } else if world.accepts(id, made) {
      AcceptedEnds(world, s, w, id, made);
    } else {
      RefusedEnds(world, s, w, id, made);
    }
    hide Enabled, Apply, IsAttempt, After, TryOnce, Held, ReachesProvider;
    if |rest| == 2 {
      AfterTwo(rest[0], rest[1], held, templates);
      assert rest == [rest[0], rest[1]];
    } else {
      AfterTwo(rest[1], rest[2], Apply(rest[0], held, templates), templates);
      AfterOne(rest[0], [rest[1], rest[2]], held, templates);
      assert rest == [rest[0]] + [rest[1], rest[2]];
    }
  }

  /** While a failed job is retained its row cannot be enqueued; once it has been evicted, it can. */
  lemma EvictionFreesId(s: State, id: Id, templates: set<string>)
    requires id in s.pending && id in s.jobs && s.jobs[id].state == Retained
    ensures After([Enqueue(id)], s, templates) == Some(s.(pending := s.pending - {id}))
    ensures After([Evict(id), Enqueue(id)], s, templates)
         == Some(s.(jobs := s.jobs[id := Job(Waiting, 0)], pending := s.pending - {id}))
  {
    AfterTwo(Evict(id), Enqueue(id), s, templates);
    AfterOne(Enqueue(id), [], s, templates);
    assert [Enqueue(id)] + [] == [Enqueue(id)];
    assert (s.jobs - {id})[id := Job(Waiting, 0)] == s.jobs[id := Job(Waiting, 0)];
  }

  /** A dispatch leaves a queued row that has not been tried, and a job for it. */
  lemma DispatchFollowsProtocol(s: State, id: Id, template: string, now: nat, templates: set<string>)
    requires id !in s.rows && id !in s.jobs && id !in s.pending && id !in s.tallies
    ensures After([Create(id, template, now), Enqueue(id)], s, templates)
         == Some(s.(rows := s.rows[id := Row(Queued, 0, template, now, None)], jobs := s.jobs[id := Job(Waiting, 0)]))
  {
    AfterTwo(Create(id, template, now), Enqueue(id), s, templates);
    assert s.pending + {id} - {id} == s.pending;
  }
}
