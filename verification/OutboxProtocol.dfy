/** The notification outbox of `src/notifications` as a state machine: dispatchers, sweeps and workers take
    their steps in any order, over the outbox rows and a queue that is deduplicated by job id. */
module OutboxProtocol {
  import opened Text

  type Id = string

  datatype Status = Queued | Sent | Failed

  datatype Row = Row(status: Status, attempts: nat, template: string, createdAt: nat, provider: Option<string>)

  /** A job is keyed by its outbox id. A failed job is retained for a while and still blocks that key. */
  datatype JobState = Waiting | Active | Retained
  datatype Job = Job(state: JobState, attemptsMade: nat)

  /** Where a worker is inside `processSend`. */
  datatype Pc =
    | Started
    | Loaded(found: Option<Row>)
    | Delivered(provider: string)
    | Erred
    | Finished

  datatype Worker = Worker(id: Id, attemptsMade: nat, pc: Pc)

  /** How a database write ends for its caller: applied, refused, or applied with the reply lost. */
  datatype Reply = Done | Refused | Lost

  /** What has happened to a row so far: provider calls, calls that succeeded, and `markSent` writes that
      failed after a delivery. */
  datatype Tally = Tally(calls: nat, deliveries: nat, markFailures: nat)

  datatype State = State(
    rows: map<Id, Row>,
    jobs: map<Id, Job>,
    workers: map<nat, Worker>,
    pending: set<Id>,
    tallies: map<Id, Tally>)

  const NOTIFICATIONS_MAX_ATTEMPTS: nat := 5
  const NOTIFICATIONS_SWEEP_STALE_MS: nat := 2 * 60 * 1000
  const NOTIFICATIONS_SWEEP_BATCH_SIZE: nat := 200

  datatype Step =
    | Create(id: Id, template: string, now: nat)  // dispatch writes a row and is about to enqueue it
    | SweepRead(ids: set<Id>, now: nat)           // a sweep reads a batch and is about to enqueue it
    | Enqueue(id: Id)
    | Forget(id: Id)                              // an enqueue fails, or the process dies before it
    | Take(w: nat, id: Id)
    | Load(w: nat)
    | Skip(w: nat)                                // no row, or already sent
    | RejectTemplate(w: nat, reply: Reply)
    | Mute(w: nat, reply: Reply)
    | Call(w: nat, ok: bool, provider: string)
    | RenderFails(w: nat)
    | MarkSent(w: nat, reply: Reply)
    | RecordFailure(w: nat, reply: Reply)
    | Complete(w: nat)
    | Evict(id: Id)                               // an old failed job is dropped
    | LoseJob(id: Id)
    | Stall(id: Id)                               // the queue takes an active job for dead and offers it again

  predicate IsAuthTemplate(template: string) {
    template == "otp" || template == "password-reset"
  }

  predicate IsStale(row: Row, now: nat) {
    && row.status == Queued
    && row.createdAt + NOTIFICATIONS_SWEEP_STALE_MS < now
    && row.attempts < NOTIFICATIONS_MAX_ATTEMPTS
  }

  /** The worker holds a row that it may send. */
  predicate IsSendable(s: State, w: nat, templates: set<string>) {
    && w in s.workers && s.workers[w].pc.Loaded? && s.workers[w].pc.found.Some?
    && s.workers[w].pc.found.value.status != Sent
    && s.workers[w].pc.found.value.template in templates
  }

  predicate Enabled(step: Step, s: State, templates: set<string>) {
    match step
    case Create(id, _, _) => id !in s.rows && id !in s.jobs && id !in s.pending && id !in s.tallies
    case SweepRead(ids, now) =>
      |ids| <= NOTIFICATIONS_SWEEP_BATCH_SIZE && forall id | id in ids :: id in s.rows && IsStale(s.rows[id], now)
    case Enqueue(id) => id in s.pending
    case Forget(id) => id in s.pending
    case Take(w, id) => w !in s.workers && id in s.jobs && s.jobs[id].state == Waiting
    case Load(w) => w in s.workers && s.workers[w].pc == Started
    case Skip(w) =>
      w in s.workers && s.workers[w].pc.Loaded?
        && (s.workers[w].pc.found.None? || s.workers[w].pc.found.value.status == Sent)
    case RejectTemplate(w, _) =>
      && w in s.workers && s.workers[w].pc.Loaded? && s.workers[w].pc.found.Some?
      && s.workers[w].pc.found.value.status != Sent && s.workers[w].pc.found.value.template !in templates
      && s.workers[w].id in s.rows
    case Mute(w, _) =>
      IsSendable(s, w, templates) && !IsAuthTemplate(s.workers[w].pc.found.value.template) && s.workers[w].id in s.rows
    case Call(w, _, provider) => IsSendable(s, w, templates) && provider != "muted"
    case RenderFails(w) => IsSendable(s, w, templates)
    case MarkSent(w, _) => w in s.workers && s.workers[w].pc.Delivered? && s.workers[w].id in s.rows
    case RecordFailure(w, _) => w in s.workers && s.workers[w].pc.Erred? && s.workers[w].id in s.rows
    case Complete(w) => w in s.workers && s.workers[w].pc.Finished?
    case Evict(id) => id in s.jobs && s.jobs[id].state == Retained
    case LoseJob(id) => id in s.jobs
    case Stall(id) => id in s.jobs && s.jobs[id].state == Active
  }

  function TallyOf(s: State, id: Id): Tally {
    if id in s.tallies then s.tallies[id] else Tally(0, 0, 0)
  }

  function At(s: State, w: nat, pc: Pc): map<nat, Worker>
    requires w in s.workers
  {
    s.workers[w := s.workers[w].(pc := pc)]
  }

  /** The attempt throws: the worker is free, and the job waits for its next attempt or is retained. */
  function Throw(s: State, w: nat): State
    requires w in s.workers
  {
    var id := s.workers[w].id;
    var made := s.workers[w].attemptsMade + 1;
    s.(workers := s.workers - {w},
       jobs := if id in s.jobs then
                 s.jobs[id := Job(if made >= NOTIFICATIONS_MAX_ATTEMPTS then Retained else Waiting, made)]
               else s.jobs)
  }

  /** The worker moves on, with the tally of its row brought up to date. */
  function Account(s: State, w: nat, pc: Pc, tally: Tally): State
    requires w in s.workers
  {
    s.(workers := At(s, w, pc), tallies := s.tallies[s.workers[w].id := tally])
  }

  /** A last write to the worker's row, and then a normal return or an exception. */
  function Leave(s: State, w: nat, row: Row, returning: bool): State
    requires w in s.workers
  {
    var s1 := s.(rows := s.rows[s.workers[w].id := row]);
    if returning then s1.(workers := At(s1, w, Finished)) else Throw(s1, w)
  }

  function SentRow(row: Row, provider: string): Row {
    row.(status := Sent, provider := Some(provider))
  }

  function FailedAttempt(row: Row, final: bool): Row {
    row.(attempts := row.attempts + 1, status := if final then Failed else Queued)
  }

  function Apply(step: Step, s: State, templates: set<string>): State
    requires Enabled(step, s, templates)
  {
    match step
    case Create(id, template, now) =>
      s.(rows := s.rows[id := Row(Queued, 0, template, now, None)], pending := s.pending + {id})
    case SweepRead(ids, _) => s.(pending := s.pending + ids)
    case Enqueue(id) =>
      s.(jobs := if id in s.jobs then s.jobs else s.jobs[id := Job(Waiting, 0)], pending := s.pending - {id})
    case Forget(id) => s.(pending := s.pending - {id})
    case Take(w, id) =>
      s.(jobs := s.jobs[id := s.jobs[id].(state := Active)],
         workers := s.workers[w := Worker(id, s.jobs[id].attemptsMade, Started)])
    case Load(w) =>
      var id := s.workers[w].id;
      s.(workers := At(s, w, Loaded(if id in s.rows then Some(s.rows[id]) else None)))
    case Skip(w) => s.(workers := At(s, w, Finished))
    case RejectTemplate(w, reply) =>
      var row := s.rows[s.workers[w].id];
      Leave(s, w, if reply == Refused then row else FailedAttempt(row, true), reply == Done)
    case Mute(w, reply) =>
      var row := s.rows[s.workers[w].id];
      Leave(s, w, if reply == Refused then row else SentRow(row, "muted"), reply == Done)
    case Call(w, ok, provider) =>
      var t := TallyOf(s, s.workers[w].id);
      Account(s, w, if ok then Delivered(provider) else Erred,
              t.(calls := t.calls + 1, deliveries := t.deliveries + (if ok then 1 else 0)))
    case RenderFails(w) => s.(workers := At(s, w, Erred))
    case MarkSent(w, reply) =>
      var id := s.workers[w].id;
      var t := TallyOf(s, id);
      var s1 := if reply == Refused then s
                else s.(rows := s.rows[id := SentRow(s.rows[id], s.workers[w].pc.provider)]);
      if reply == Done then Account(s1, w, Finished, t)
      else Account(s1, w, Erred, t.(markFailures := t.markFailures + 1))
    case RecordFailure(w, reply) =>
      var row := s.rows[s.workers[w].id];
      var final := s.workers[w].attemptsMade + 1 >= NOTIFICATIONS_MAX_ATTEMPTS;
      Leave(s, w, if reply == Refused then row else FailedAttempt(row, final), false)
    case Complete(w) => s.(workers := s.workers - {w}, jobs := s.jobs - {s.workers[w].id})
    case Evict(id) => s.(jobs := s.jobs - {id})
    case LoseJob(id) => s.(jobs := s.jobs - {id})
    case Stall(id) => s.(jobs := s.jobs[id := s.jobs[id].(state := Waiting)])
  }

  /** The three events that the protocol does not survive: a job that is lost or offered again while a worker
      is busy with it, and a `markSent` that is applied but reported as failed. */
  predicate IsBenign(step: Step, s: State) {
    match step
    case LoseJob(id) => id in s.jobs ==> s.jobs[id].state != Active
    case Stall(_) => false
    case MarkSent(_, reply) => reply != Lost
    case _ => true
  }

  ghost predicate IsStart(s: State) {
    s == State(map[], map[], map[], {}, map[])
  }

  ghost predicate IsRun(states: seq<State>, steps: seq<Step>, templates: set<string>) {
    && |states| == |steps| + 1 && IsStart(states[0])
    && forall i | 0 <= i < |steps| ::
         Enabled(steps[i], states[i], templates) && states[i + 1] == Apply(steps[i], states[i], templates)
  }

  ghost predicate IsBenignRun(states: seq<State>, steps: seq<Step>, templates: set<string>) {
    IsRun(states, steps, templates) && forall i | 0 <= i < |steps| :: IsBenign(steps[i], states[i])
  }

  // ---- the invariant

  /** What a worker knows is still true: its job is active, and the row it loaded has not changed. */
  ghost predicate WorkerIsRight(s: State, w: nat)
    requires w in s.workers
  {
    var id := s.workers[w].id;
    && id in s.jobs && s.jobs[id].state == Active
    && match s.workers[w].pc
       case Started => true
       case Loaded(found) => found == (if id in s.rows then Some(s.rows[id]) else None)
       case Delivered(provider) => id in s.rows && s.rows[id].status != Sent && provider != "muted"
       case Erred => id in s.rows && s.rows[id].status != Sent
       case Finished => true
  }

  ghost predicate OneWorkerPerRow(s: State) {
    forall v, w | v in s.workers && w in s.workers && s.workers[v].id == s.workers[w].id :: v == w
  }

  ghost predicate IsBeingMarked(s: State, id: Id) {
    exists w :: w in s.workers && s.workers[w].id == id && s.workers[w].pc.Delivered?
  }

  predicate WasDelivered(row: Row) {
    row.status == Sent && row.provider != Some("muted")
  }

  /** Each delivery ends in a sent row, in a failed `markSent`, or is about to be marked. */
  ghost predicate DeliveriesAdd(s: State, id: Id) {
    TallyOf(s, id).deliveries == TallyOf(s, id).markFailures
      + (if (id in s.rows && WasDelivered(s.rows[id])) || IsBeingMarked(s, id) then 1 else 0)
  }

  ghost predicate RowsAreKnown(s: State) {
    && s.jobs.Keys <= s.rows.Keys && s.pending <= s.rows.Keys && s.tallies.Keys <= s.rows.Keys
    && forall w | w in s.workers :: s.workers[w].id in s.rows
  }

  ghost predicate Inv(s: State) {
    && RowsAreKnown(s)
    && OneWorkerPerRow(s)
    && (forall w {:trigger WorkerIsRight(s, w)} | w in s.workers :: WorkerIsRight(s, w))
    && (forall id {:trigger DeliveriesAdd(s, id)} :: DeliveriesAdd(s, id))
  }

  // ---- every step keeps it

  /** `s'` differs from `s` at most in the row, job and tally of `id` and in the workers `ws`. */
  ghost predicate TouchesOnly(s: State, s': State, id: Id, ws: set<nat>) {
    && (forall i | i != id :: (i in s'.rows <==> i in s.rows) && (i in s.rows ==> s'.rows[i] == s.rows[i]))
    && (forall i | i != id :: (i in s'.jobs <==> i in s.jobs) && (i in s.jobs ==> s'.jobs[i] == s.jobs[i]))
    && (forall i | i != id :: TallyOf(s', i) == TallyOf(s, i))
    && (forall v | v !in ws ::
          (v in s'.workers <==> v in s.workers) && (v in s.workers ==> s'.workers[v] == s.workers[v]))
  }

  /** Then it is enough to look at `id` and at `ws`, provided nobody else works on `id`. */
  lemma OthersStayRight(s: State, s': State, id: Id, ws: set<nat>)
    requires Inv(s) && TouchesOnly(s, s', id, ws)
    requires forall v | v in s.workers && v !in ws :: s.workers[v].id != id
    requires forall w | w in ws && w in s.workers :: s.workers[w].id == id
    requires forall w | w in ws && w in s'.workers :: s'.workers[w].id == id
    ensures forall v | v in s'.workers && v !in ws :: WorkerIsRight(s', v)
    ensures forall i | i != id :: DeliveriesAdd(s', i)
    ensures |ws| <= 1 ==> OneWorkerPerRow(s')
  {
    forall v | v in s'.workers && v !in ws ensures WorkerIsRight(s', v) {
      assert WorkerIsRight(s, v);
    }
    forall i | i != id ensures DeliveriesAdd(s', i) {
      assert DeliveriesAdd(s, i);
      assert IsBeingMarked(s', i) == IsBeingMarked(s, i) by {
        if w :| w in s.workers && s.workers[w].id == i && s.workers[w].pc.Delivered? { assert w !in ws; }
        if w :| w in s'.workers && s'.workers[w].id == i && s'.workers[w].pc.Delivered? { assert w !in ws; }
      }
    }
    if |ws| <= 1 {
      forall v, w | v in s'.workers && w in s'.workers && s'.workers[v].id == s'.workers[w].id ensures v == w {
        if v in ws && w in ws && v != w { SingletonHasOne(ws, v, w); }
      }
    }
  }

  lemma SingletonHasOne(ws: set<nat>, v: nat, w: nat)
    requires |ws| <= 1 && v in ws && w in ws
    ensures v == w
  {
    assert |ws - {v}| == |ws| - 1 <= 0;
    assert w !in ws - {v};
  }

  lemma NonWorkerStepKeepsInv(s: State, step: Step, templates: set<string>)
    requires Inv(s) && Enabled(step, s, templates) && IsBenign(step, s)
    requires step.Create? || step.Enqueue? || step.Evict? || step.LoseJob?
    ensures Inv(Apply(step, s, templates))
  {
    var s', id := Apply(step, s, templates), step.id;
    assert DeliveriesAdd(s, id);
    if step.Enqueue? && id in s.jobs {
      PendingMayShrink(s, s');
    } else {
      forall v | v in s.workers ensures s.workers[v].id != id { assert WorkerIsRight(s, v); }
      OthersStayRight(s, s', id, {});
      assert !IsBeingMarked(s, id) && !IsBeingMarked(s', id);
      assert DeliveriesAdd(s', id);
    }
  }

  lemma PendingMayShrink(s: State, s': State)
    requires Inv(s) && s' == s.(pending := s'.pending) && s'.pending <= s.pending
    ensures Inv(s')
  {
    forall v | v in s'.workers ensures WorkerIsRight(s', v) { assert WorkerIsRight(s, v); }
    forall i ensures DeliveriesAdd(s', i) {
      assert DeliveriesAdd(s, i) && IsBeingMarked(s', i) == IsBeingMarked(s, i);
    }
  }

  lemma TakeKeepsInv(s: State, step: Step, templates: set<string>)
    requires Inv(s) && Enabled(step, s, templates) && step.Take?
    ensures Inv(Apply(step, s, templates))
  {
    var s' := Apply(step, s, templates);
    forall v | v in s.workers ensures s.workers[v].id != step.id { assert WorkerIsRight(s, v); }
    OthersStayRight(s, s', step.id, {step.w});
    assert DeliveriesAdd(s, step.id);
    assert !IsBeingMarked(s, step.id) && !IsBeingMarked(s', step.id);
    assert DeliveriesAdd(s', step.id);
  }

  /** One delivery is due to be accounted for, seen from the worker on the row. */
  function Due(s: State, id: Id, w: nat): int {
    if (id in s.rows && WasDelivered(s.rows[id])) || (w in s.workers && s.workers[w].pc.Delivered?) then 1 else 0
  }

  /** A step of worker `w` that touches only `w` and its row, job and tally. */
  lemma WorkerStepFrame(s: State, s': State, w: nat, id: Id)
    requires Inv(s) && w in s.workers && s.workers[w].id == id && TouchesOnly(s, s', id, {w})
    requires w in s'.workers ==> s'.workers[w].id == id && WorkerIsRight(s', w)
    requires RowsAreKnown(s')
    requires TallyOf(s', id).deliveries - TallyOf(s', id).markFailures - Due(s', id, w)
          == TallyOf(s, id).deliveries - TallyOf(s, id).markFailures - Due(s, id, w)
    ensures Inv(s')
  {
    OthersStayRight(s, s', id, {w});
    assert DeliveriesAdd(s, id);
    assert IsBeingMarked(s, id) <==> s.workers[w].pc.Delivered?;
    assert IsBeingMarked(s', id) <==> w in s'.workers && s'.workers[w].pc.Delivered?;
    assert DeliveriesAdd(s', id);
  }

  lemma WorkerMoves(s: State, w: nat, pc: Pc)
    requires Inv(s) && w in s.workers && !pc.Delivered? && !s.workers[w].pc.Delivered?
    requires WorkerIsRight(s.(workers := At(s, w, pc)), w)
    ensures Inv(s.(workers := At(s, w, pc)))
  {
    assert WorkerIsRight(s, w) && RowsAreKnown(s);
    hide Inv, DeliveriesAdd;
    WorkerStepFrame(s, s.(workers := At(s, w, pc)), w, s.workers[w].id);
  }

  lemma MoveKeepsInv(s: State, step: Step, templates: set<string>)
    requires Inv(s) && Enabled(step, s, templates) && (step.Load? || step.Skip? || step.RenderFails?)
    ensures Inv(Apply(step, s, templates))
  {
    assert WorkerIsRight(s, step.w) && RowsAreKnown(s);
    hide Inv;
    var w := step.w;
    var id := s.workers[w].id;
    match step
    case Load(_) => WorkerMoves(s, w, Loaded(if id in s.rows then Some(s.rows[id]) else None));
    case Skip(_) => WorkerMoves(s, w, Finished);
    case RenderFails(_) => WorkerMoves(s, w, Erred);
  }

  lemma CompleteKeepsInv(s: State, w: nat, templates: set<string>)
    requires Inv(s) && Enabled(Complete(w), s, templates)
    ensures Inv(Apply(Complete(w), s, templates))
  {
    assert WorkerIsRight(s, w) && RowsAreKnown(s);
    hide Inv, Leave, Account, DeliveriesAdd;
    WorkerStepFrame(s, Apply(Complete(w), s, templates), w, s.workers[w].id);
  }

  lemma CallKeepsInv(s: State, step: Step, templates: set<string>)
    requires Inv(s) && Enabled(step, s, templates) && step.Call?
    ensures Inv(Apply(step, s, templates))
  {
    assert WorkerIsRight(s, step.w) && RowsAreKnown(s);
    hide Inv, Leave;
    var s' := Apply(step, s, templates);
    assert s'.rows == s.rows && s'.jobs == s.jobs;
    WorkerStepFrame(s, s', step.w, s.workers[step.w].id);
  }

  lemma MarkSentKeepsInv(s: State, w: nat, reply: Reply, templates: set<string>)
    requires Inv(s) && Enabled(MarkSent(w, reply), s, templates) && reply != Lost
    ensures Inv(Apply(MarkSent(w, reply), s, templates))
  {
    assert WorkerIsRight(s, w) && RowsAreKnown(s);
    hide Inv, Leave;
    var s' := Apply(MarkSent(w, reply), s, templates);
    var id := s.workers[w].id;
    assert s'.jobs == s.jobs;
    if reply == Done {
      assert s'.rows == s.rows[id := SentRow(s.rows[id], s.workers[w].pc.provider)]
        && TallyOf(s', id) == TallyOf(s, id);
    } else {
      assert s'.rows == s.rows;
    }
    WorkerStepFrame(s, s', w, id);
  }

  lemma LeaveKeepsInv(s: State, w: nat, row: Row, returning: bool)
    requires Inv(s) && w in s.workers && (s.workers[w].pc.Loaded? || s.workers[w].pc.Erred?)
    requires s.workers[w].id in s.rows && s.rows[s.workers[w].id].status != Sent && !WasDelivered(row)
    ensures Inv(Leave(s, w, row, returning))
  {
    assert WorkerIsRight(s, w) && RowsAreKnown(s);
    hide Inv;
    WorkerStepFrame(s, Leave(s, w, row, returning), w, s.workers[w].id);
  }

  lemma RowWriteKeepsInv(s: State, step: Step, templates: set<string>)
    requires Inv(s) && Enabled(step, s, templates) && (step.RejectTemplate? || step.Mute? || step.RecordFailure?)
    ensures Inv(Apply(step, s, templates))
  {
    assert WorkerIsRight(s, step.w);
    hide Inv, Leave;
    var row := s.rows[s.workers[step.w].id];
    match step
    case RejectTemplate(w, reply) =>
      LeaveKeepsInv(s, w, if reply == Refused then row else FailedAttempt(row, true), reply == Done);
    case Mute(w, reply) =>
      LeaveKeepsInv(s, w, if reply == Refused then row else SentRow(row, "muted"), reply == Done);
    case RecordFailure(w, reply) =>
      var final := s.workers[w].attemptsMade + 1 >= NOTIFICATIONS_MAX_ATTEMPTS;
      LeaveKeepsInv(s, w, if reply == Refused then row else FailedAttempt(row, final), false);
  }

  lemma StepKeepsInv(s: State, step: Step, templates: set<string>)
    requires Inv(s) && Enabled(step, s, templates) && IsBenign(step, s)
    ensures Inv(Apply(step, s, templates))
  {
    var s' := Apply(step, s, templates);
    hide Inv;
    match step
    case Create(_, _, _) => NonWorkerStepKeepsInv(s, step, templates);
    case Enqueue(_) => NonWorkerStepKeepsInv(s, step, templates);
    case Evict(_) => NonWorkerStepKeepsInv(s, step, templates);
    case LoseJob(_) => NonWorkerStepKeepsInv(s, step, templates);
    case Take(_, _) => TakeKeepsInv(s, step, templates);
    case SweepRead(_, _) => PendingIsFree(s, s');
    case Forget(_) => PendingIsFree(s, s');
    case MarkSent(w, reply) =>
      assert reply != Lost;
      MarkSentKeepsInv(s, w, reply, templates);
    case Call(_, _, _) => CallKeepsInv(s, step, templates);
    case RejectTemplate(_, _) => RowWriteKeepsInv(s, step, templates);
    case Mute(_, _) => RowWriteKeepsInv(s, step, templates);
    case RecordFailure(_, _) => RowWriteKeepsInv(s, step, templates);
    case Complete(w) => CompleteKeepsInv(s, w, templates);
    case _ => MoveKeepsInv(s, step, templates);
  }

  lemma PendingIsFree(s: State, s': State)
    requires Inv(s) && s' == s.(pending := s'.pending) && s'.pending <= s.rows.Keys
    ensures Inv(s')
  {
    forall v | v in s'.workers ensures WorkerIsRight(s', v) { assert WorkerIsRight(s, v); }
    forall i ensures DeliveriesAdd(s', i) {
      assert DeliveriesAdd(s, i);
      assert IsBeingMarked(s', i) == IsBeingMarked(s, i);
    }
  }

  lemma {:induction false} BenignRunsKeepInv(states: seq<State>, steps: seq<Step>, templates: set<string>, n: nat)
    requires IsBenignRun(states, steps, templates) && n <= |steps|
    ensures Inv(states[n])
  {
    if n == 0 {
      forall id ensures DeliveriesAdd(states[0], id) {}
    } else {
      BenignRunsKeepInv(states, steps, templates, n - 1);
      StepKeepsInv(states[n - 1], steps[n - 1], templates);
    }
  }

  // ---- what it means for mail

  /** No step calls the provider for a sent row, or changes the row. */
  lemma StepLeavesSentRowAlone(s: State, step: Step, templates: set<string>, id: Id)
    requires Inv(s) && Enabled(step, s, templates) && id in s.rows && s.rows[id].status == Sent
    ensures var s' := Apply(step, s, templates);
            id in s'.rows && s'.rows[id] == s.rows[id] && TallyOf(s', id) == TallyOf(s, id)
  {
    if step.RejectTemplate? || step.Mute? || step.Call? || step.MarkSent? || step.RecordFailure? {
      assert WorkerIsRight(s, step.w);
    }
  }

  /** Sent is final: from the moment a row is marked sent, in every benign run, the row never changes again
      and the provider is never called for it again, whatever sweeps, retries and re-enqueues come between. */
  lemma {:induction false} SentIsFinal(states: seq<State>, steps: seq<Step>, templates: set<string>, i: nat, j: nat,
                                       id: Id)
    requires IsBenignRun(states, steps, templates) && i <= j <= |steps|
    requires id in states[i].rows && states[i].rows[id].status == Sent
    ensures id in states[j].rows && states[j].rows[id] == states[i].rows[id]
    ensures TallyOf(states[j], id) == TallyOf(states[i], id)
  {
    if i < j {
      SentIsFinal(states, steps, templates, i, j - 1, id);
      BenignRunsKeepInv(states, steps, templates, j - 1);
      StepLeavesSentRowAlone(states[j - 1], steps[j - 1], templates, id);
    }
  }

  /** Mail is delivered once, plus once more for each `markSent` that failed after a delivery; and a row that
      is not being marked has exactly as many deliveries as failed marks, plus one if it was sent by mail. */
  lemma DeliveriesAreCounted(states: seq<State>, steps: seq<Step>, templates: set<string>, n: nat, id: Id)
    requires IsBenignRun(states, steps, templates) && n <= |steps|
    ensures var t := TallyOf(states[n], id);
            && t.markFailures <= t.deliveries <= t.markFailures + 1
            && (!IsBeingMarked(states[n], id) ==>
                  (t.deliveries == t.markFailures + 1 <==> id in states[n].rows && WasDelivered(states[n].rows[id])))
  {
    BenignRunsKeepInv(states, steps, templates, n);
    assert DeliveriesAdd(states[n], id);
  }

  // ---- the restriction to benign steps is needed

  ghost predicate Goes(s: State, step: Step, s': State, templates: set<string>) {
    Enabled(step, s, templates) && s' == Apply(step, s, templates)
  }

  /** If the queue takes a busy worker for dead, a second worker comes to hold the same sendable row ... */
  lemma StallLetsSecondWorkerIn(s: State, w: nat, v: nat, templates: set<string>)
      returns (s1: State, s2: State, s3: State)
    requires Inv(s) && IsSendable(s, w, templates) && v !in s.workers
    ensures Goes(s, Stall(s.workers[w].id), s1, templates)
    ensures Goes(s1, Take(v, s.workers[w].id), s2, templates)
    ensures Goes(s2, Load(v), s3, templates)
    ensures BothHold(s3, v, w, templates)
  {
    assert WorkerIsRight(s, w) && RowsAreKnown(s);
    s1 := Apply(Stall(s.workers[w].id), s, templates);
    s2 := Apply(Take(v, s.workers[w].id), s1, templates);
    s3 := Apply(Load(v), s2, templates);
  }

  ghost predicate BothHold(s: State, v: nat, w: nat, templates: set<string>) {
    && v != w && IsSendable(s, v, templates) && IsSendable(s, w, templates)
    && s.workers[v].id == s.workers[w].id && s.workers[v].id in s.rows
  }

  /** ... and once it has sent and marked the row, the first one still calls the provider for it. */
  lemma StallSendsTwice(s: State, w: nat, v: nat, provider: string, templates: set<string>)
      returns (s1: State, s2: State)
    requires BothHold(s, v, w, templates) && provider != "muted"
    ensures Goes(s, Call(v, true, provider), s1, templates)
    ensures Goes(s1, MarkSent(v, Done), s2, templates)
    ensures s.workers[w].id in s2.rows && s2.rows[s.workers[w].id].status == Sent
    ensures Enabled(Call(w, true, provider), s2, templates)
  {
    s1 := Apply(Call(v, true, provider), s, templates);
    s2 := Apply(MarkSent(v, Done), s1, templates);
  }

  /** The same happens if the job of a busy worker is lost while somebody, a sweep say, is about to enqueue it. */
  lemma LossLetsSecondWorkerIn(s: State, w: nat, v: nat, templates: set<string>)
    returns (s1: State, s2: State, s3: State, s4: State)
    requires Inv(s) && IsSendable(s, w, templates) && v !in s.workers && s.workers[w].id in s.pending
    ensures Goes(s, LoseJob(s.workers[w].id), s1, templates)
    ensures Goes(s1, Enqueue(s.workers[w].id), s2, templates)
    ensures Goes(s2, Take(v, s.workers[w].id), s3, templates)
    ensures Goes(s3, Load(v), s4, templates)
    ensures BothHold(s4, v, w, templates)
  {
    assert WorkerIsRight(s, w) && RowsAreKnown(s);
    s1 := Apply(LoseJob(s.workers[w].id), s, templates);
    s2 := Apply(Enqueue(s.workers[w].id), s1, templates);
    s3 := Apply(Take(v, s.workers[w].id), s2, templates);
    s4 := Apply(Load(v), s3, templates);
  }

  /** If `markSent` is applied but its reply is lost, the catch block puts the sent row back in the queue, or on the
      final attempt calls it failed. */
  lemma LostReplyRevivesRow(s: State, w: nat, templates: set<string>) returns (s1: State, s2: State)
    requires Inv(s) && Enabled(MarkSent(w, Lost), s, templates)
    ensures Goes(s, MarkSent(w, Lost), s1, templates) && Goes(s1, RecordFailure(w, Done), s2, templates)
    ensures s.workers[w].id in s1.rows && s1.rows[s.workers[w].id].status == Sent
    ensures var final := s.workers[w].attemptsMade + 1 >= NOTIFICATIONS_MAX_ATTEMPTS;
            s.workers[w].id in s2.rows && s2.rows[s.workers[w].id].status == if final then Failed else Queued
  {
    s1 := Apply(MarkSent(w, Lost), s, templates);
    s2 := Apply(RecordFailure(w, Done), s1, templates);
  }

  // ---- runs in which some of the three events may happen

  datatype Events = Events(stall: bool, loss: bool, lostReply: bool)

  predicate IsAllowed(e: Events, step: Step, s: State) {
    IsBenign(step, s) || (step.Stall? && e.stall) || (step.LoseJob? && e.loss) || (step.MarkSent? && e.lostReply)
  }

  ghost predicate IsRunWithin(e: Events, states: seq<State>, steps: seq<Step>, templates: set<string>) {
    IsRun(states, steps, templates) && forall i | 0 <= i < |steps| :: IsAllowed(e, steps[i], states[i])
  }

  /** From the moment the row is marked sent it never changes, and the provider is not called for it. */
  ghost predicate SentStays(states: seq<State>, id: Id) {
    forall i, j | 0 <= i <= j < |states| && IsSent(states[i], id) ::
      IsSent(states[j], id) && states[j].rows[id] == states[i].rows[id]
        && TallyOf(states[j], id) == TallyOf(states[i], id)
  }

  predicate IsSent(s: State, id: Id) {
    id in s.rows && s.rows[id].status == Sent
  }

  ghost predicate IsSafe(e: Events, templates: set<string>) {
    forall states, steps, id | IsRunWithin(e, states, steps, templates) :: SentStays(states, id)
  }

  lemma Extend(e: Events, states: seq<State>, steps: seq<Step>, step: Step, s: State, templates: set<string>)
    returns (states': seq<State>, steps': seq<Step>)
    requires IsRunWithin(e, states, steps, templates) && Goes(states[|steps|], step, s, templates)
    requires IsAllowed(e, step, states[|steps|])
    ensures states' == states + [s] && steps' == steps + [step] && |states'| == |steps'| + 1 && states'[|steps'|] == s
    ensures IsRunWithin(e, states', steps', templates)
  {
    hide Enabled, IsAllowed, Apply, IsStart;
    states', steps' := states + [s], steps + [step];
  }

  /** A row has been dispatched, and a worker has loaded it. */
  function HeldState(id: Id, template: string): State {
    var row := Row(Queued, 0, template, 0, None);
    State(map[id := row], map[id := Job(Active, 0)], map[0 := Worker(id, 0, Loaded(Some(row)))], {}, map[])
  }

  lemma WorkerLoads(e: Events, id: Id, template: string, templates: set<string>)
    returns (states: seq<State>, steps: seq<Step>)
    ensures |states| == |steps| + 1 && IsRunWithin(e, states, steps, templates)
    ensures states[|steps|] == HeldState(id, template) && Inv(HeldState(id, template))
  {
    hide IsRunWithin, Inv;
    var row := Row(Queued, 0, template, 0, None);
    var s0 := State(map[], map[], map[], {}, map[]);
    var s1 := s0.(rows := map[id := row], pending := {id});
    var s2 := s1.(jobs := map[id := Job(Waiting, 0)], pending := {});
    var s3 := s2.(jobs := map[id := Job(Active, 0)], workers := map[0 := Worker(id, 0, Started)]);
    assert IsRunWithin(e, [s0], [], templates) by { StartIsRun(e, s0, templates); }
    states, steps := Extend(e, [s0], [], Create(id, template, 0), s1, templates);
    states, steps := Extend(e, states, steps, Enqueue(id), s2, templates);
    states, steps := Extend(e, states, steps, Take(0, id), s3, templates);
    states, steps := Extend(e, states, steps, Load(0), HeldState(id, template), templates);
    HeldStateIsRight(id, template);
  }

  lemma StartIsRun(e: Events, s: State, templates: set<string>)
    requires IsStart(s)
    ensures IsRunWithin(e, [s], [], templates)
  {
  }

  lemma HeldStateIsRight(id: Id, template: string)
    ensures Inv(HeldState(id, template))
  {
    var s := HeldState(id, template);
    assert WorkerIsRight(s, 0);
    forall i ensures DeliveriesAdd(s, i) { assert !IsBeingMarked(s, i); }
  }

  /** Two workers hold the row: one sends and marks it, and then the other calls the provider for the sent row. */
  lemma TwoHoldersRun(e: Events, states: seq<State>, steps: seq<Step>, v: nat, w: nat, templates: set<string>)
    returns (states': seq<State>, steps': seq<Step>)
    requires |states| == |steps| + 1 && IsRunWithin(e, states, steps, templates)
             && BothHold(states[|steps|], v, w, templates)
    ensures IsRunWithin(e, states', steps', templates)
    ensures !SentStays(states', states[|steps|].workers[w].id)
  {
    hide IsRunWithin;
    var s := states[|steps|];
    var id := s.workers[w].id;
    var s1, s2 := StallSendsTwice(s, w, v, "mail", templates);
    var s3 := Apply(Call(w, true, "mail"), s2, templates);
    states', steps' := Extend(e, states, steps, Call(v, true, "mail"), s1, templates);
    states', steps' := Extend(e, states', steps', MarkSent(v, Done), s2, templates);
    states', steps' := Extend(e, states', steps', Call(w, true, "mail"), s3, templates);
    SecondCallCounts(s2, w, templates);
    var n := |steps|;
    assert states'[n + 2] == s2 && states'[n + 3] == s3;
  }

  lemma SecondCallCounts(s: State, w: nat, templates: set<string>)
    requires Enabled(Call(w, true, "mail"), s, templates)
    ensures TallyOf(Apply(Call(w, true, "mail"), s, templates), s.workers[w].id) != TallyOf(s, s.workers[w].id)
  {
  }

  lemma StallIsUnsafe(e: Events, id: Id, template: string, templates: set<string>)
    returns (states: seq<State>, steps: seq<Step>)
    requires e.stall && template in templates
    ensures IsRunWithin(e, states, steps, templates) && !SentStays(states, id)
  {
    hide IsRunWithin, SentStays, Inv, Goes, BothHold;
    states, steps := WorkerLoads(e, id, template, templates);
    var s1, s2, s3 := StallLetsSecondWorkerIn(HeldState(id, template), 0, 1, templates);
    states, steps := Extend(e, states, steps, Stall(id), s1, templates);
    states, steps := Extend(e, states, steps, Take(1, id), s2, templates);
    states, steps := Extend(e, states, steps, Load(1), s3, templates);
    HoldersKeepId(HeldState(id, template), s1, s2, s3, id, templates);
    states, steps := TwoHoldersRun(e, states, steps, 1, 0, templates);
  }

  lemma HoldersKeepId(s: State, s1: State, s2: State, s3: State, id: Id, templates: set<string>)
    requires 0 in s.workers && s.workers[0].id == id && Goes(s, Stall(id), s1, templates)
    requires Goes(s1, Take(1, id), s2, templates) && Goes(s2, Load(1), s3, templates)
    ensures 0 in s3.workers && s3.workers[0].id == id
  {
  }

  lemma LossIsUnsafe(e: Events, id: Id, template: string, templates: set<string>)
    returns (states: seq<State>, steps: seq<Step>)
    requires e.loss && template in templates
    ensures IsRunWithin(e, states, steps, templates) && !SentStays(states, id)
  {
    hide IsRunWithin, SentStays, Inv, BothHold;
    states, steps := WorkerLoads(e, id, template, templates);
    var now := NOTIFICATIONS_SWEEP_STALE_MS + 1;
    var s := HeldState(id, template).(pending := {id});
    assert {id} - {} == {id} && |{id}| <= NOTIFICATIONS_SWEEP_BATCH_SIZE;
    states, steps := Extend(e, states, steps, SweepRead({id}, now), s, templates);
    assert Inv(s) by { PendingIsFree(HeldState(id, template), s); }
    var s1, s2, s3, s4 := LossLetsSecondWorkerIn(s, 0, 1, templates);
    states, steps := Extend(e, states, steps, LoseJob(id), s1, templates);
    states, steps := Extend(e, states, steps, Enqueue(id), s2, templates);
    states, steps := Extend(e, states, steps, Take(1, id), s3, templates);
    states, steps := Extend(e, states, steps, Load(1), s4, templates);
    states, steps := TwoHoldersRun(e, states, steps, 1, 0, templates);
  }

  lemma LostReplyIsUnsafe(e: Events, id: Id, template: string, templates: set<string>)
    returns (states: seq<State>, steps: seq<Step>)
    requires e.lostReply && template in templates
    ensures IsRunWithin(e, states, steps, templates) && !SentStays(states, id)
  {
    hide IsRunWithin, Inv;
    states, steps := WorkerLoads(e, id, template, templates);
    var s := Apply(Call(0, true, "mail"), HeldState(id, template), templates);
    assert Inv(s) by { CallKeepsInv(HeldState(id, template), Call(0, true, "mail"), templates); }
    states, steps := Extend(e, states, steps, Call(0, true, "mail"), s, templates);
    var s1, s2 := LostReplyRevivesRow(s, 0, templates);
    states, steps := Extend(e, states, steps, MarkSent(0, Lost), s1, templates);
    states, steps := Extend(e, states, steps, RecordFailure(0, Done), s2, templates);
    var n := |steps|;
    assert states[n - 1] == s1 && states[n] == s2 && IsSent(s1, id) && !IsSent(s2, id);
  }

  /** Without any template nothing is ever sent. */
  ghost predicate NothingSent(s: State) {
    (forall id | id in s.rows :: s.rows[id].status != Sent)
      && (forall w | w in s.workers :: !s.workers[w].pc.Delivered?)
  }

  lemma {:induction false} NoTemplateNothingSent(states: seq<State>, steps: seq<Step>, n: nat)
    requires IsRun(states, steps, {}) && n <= |steps|
    ensures NothingSent(states[n])
  {
    if n > 0 {
      NoTemplateNothingSent(states, steps, n - 1);
      StepSendsNothing(states[n - 1], steps[n - 1]);
    }
  }

  lemma StepSendsNothing(s: State, step: Step)
    requires NothingSent(s) && Enabled(step, s, {})
    ensures NothingSent(Apply(step, s, {}))
  {
  }

  lemma BenignRunsAreSafe(states: seq<State>, steps: seq<Step>, id: Id, templates: set<string>)
    requires IsBenignRun(states, steps, templates)
    ensures SentStays(states, id)
  {
    hide IsBenign, Enabled, Apply, IsStart;
    forall i, j | 0 <= i <= j < |states| && IsSent(states[i], id)
      ensures IsSent(states[j], id) && states[j].rows[id] == states[i].rows[id]
              && TallyOf(states[j], id) == TallyOf(states[i], id)
    {
      SentIsFinal(states, steps, templates, i, j, id);
    }
  }

  /** Sent is final in all runs with these events exactly when none of the three may happen. */
  lemma SafeIffNoneAllowed(e: Events, templates: set<string>)
    ensures IsSafe(e, templates) <==> templates == {} || e == Events(false, false, false)
  {
    hide IsStart, Enabled, Apply, IsBenign;
    if templates == {} {
      forall states, steps, id | IsRunWithin(e, states, steps, templates) ensures SentStays(states, id) {
        forall i | 0 <= i < |states| ensures !IsSent(states[i], id) { NoTemplateNothingSent(states, steps, i); }
      }
    } else if e == Events(false, false, false) {
      forall states, steps, id | IsRunWithin(e, states, steps, templates) ensures SentStays(states, id) {
        assert IsBenignRun(states, steps, templates);
        BenignRunsAreSafe(states, steps, id, templates);
      }
    } else {
      hide IsRunWithin, SentStays;
      var template :| template in templates;
      var states, steps;
      if e.stall {
        states, steps := StallIsUnsafe(e, "id", template, templates);
      } else if e.loss {
        states, steps := LossIsUnsafe(e, "id", template, templates);
      } else {
        states, steps := LostReplyIsUnsafe(e, "id", template, templates);
      }
    }
  }
}
