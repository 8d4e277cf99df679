/** Point entries and their summary: `src/points/points-entries.repository.ts` and `clubPointsDto` of
    `src/points/points.transformer.ts`. Points are counted in hundredths, as the column stores them. */
module Points {
  import opened Text

  datatype Kind = Computed | Judged

  datatype Entry = Entry(id: string, clubId: string, ryYear: int, periodKey: string, ruleId: Option<string>,
                         categoryId: string, kind: Kind, points: int, sourceType: Option<string>)

  // ---- the table

  predicate IsComputedOf(e: Entry, clubId: string, ruleId: string, periodKey: string) {
    e.kind == Computed && e.clubId == clubId && e.ruleId == Some(ruleId) && e.periodKey == periodKey
  }

  predicate IsJudgedOf(e: Entry, clubId: string, periodKey: string) {
    e.kind == Judged && e.clubId == clubId && e.periodKey == periodKey && e.sourceType == None
  }

  predicate IsStale(e: Entry, clubId: string, ryYear: int, active: seq<string>) {
    e.kind == Computed && e.clubId == clubId && e.ryYear == ryYear && e.ruleId.Some? && e.ruleId.value !in active
  }

  datatype Op =
    | UpsertComputed(clubId: string, ryYear: int, ruleId: string, categoryId: string, periodKey: string, points: int)
    | DeleteComputed(clubId: string, ruleId: string, periodKey: string)
    | DeleteStale(clubId: string, ryYear: int, active: seq<string>)
    | UpsertJudged(clubId: string, ryYear: int, periodKey: string, categoryId: string, points: int)
    | DeleteJudged(clubId: string, periodKey: string)

  /** The rows an operation looks for. */
  predicate IsTarget(op: Op, e: Entry) {
    match op
    case UpsertComputed(clubId, _, ruleId, _, periodKey, _) => IsComputedOf(e, clubId, ruleId, periodKey)
    case DeleteComputed(clubId, ruleId, periodKey) => IsComputedOf(e, clubId, ruleId, periodKey)
    case DeleteStale(clubId, ryYear, active) => IsStale(e, clubId, ryYear, active)
    case UpsertJudged(clubId, _, periodKey, _, _) => IsJudgedOf(e, clubId, periodKey)
    case DeleteJudged(clubId, periodKey) => IsJudgedOf(e, clubId, periodKey)
  }

  predicate IsUpsert(op: Op) {
    op.UpsertComputed? || op.UpsertJudged?
  }

  /** The row an upsert leaves behind: the data overwrites what was found, the other columns stay. */
  function Written(op: Op, was: Entry): Entry
    requires IsUpsert(op)
  {
    match op
    case UpsertComputed(clubId, ryYear, ruleId, categoryId, periodKey, points) =>
      was.(clubId := clubId, ryYear := ryYear, ruleId := Some(ruleId), categoryId := categoryId,
           periodKey := periodKey, kind := Computed, points := points)
    case UpsertJudged(clubId, ryYear, periodKey, categoryId, points) =>
      was.(clubId := clubId, ryYear := ryYear, categoryId := categoryId,
           periodKey := periodKey, kind := Judged, points := points)
  }

  function NewRow(id: string): Entry {
    Entry(id, "", 0, "", None, "", Computed, 0, None)
  }

  /** `findFirst`; the number of rows when there is none. */
  function FirstTarget(rows: seq<Entry>, op: Op): (i: nat)
    ensures i <= |rows|
    ensures i < |rows| ==> IsTarget(op, rows[i])
    ensures forall j | 0 <= j < i :: !IsTarget(op, rows[j])
  {
    if rows == [] || IsTarget(op, rows[0]) then 0 else 1 + FirstTarget(rows[1..], op)
  }

  /** `deleteMany`. */
  function Without(rows: seq<Entry>, op: Op): (r: seq<Entry>)
    ensures |r| <= |rows|
  {
    if rows == [] then []
    else Without(rows[..|rows| - 1], op) + if IsTarget(op, rows[|rows| - 1]) then [] else [rows[|rows| - 1]]
  }

  function Step(rows: seq<Entry>, op: Op, newId: string): seq<Entry> {
    if IsUpsert(op) then
      var i := FirstTarget(rows, op);
      if i < |rows| then rows[i := Written(op, rows[i])] else rows + [Written(op, NewRow(newId))]
    else Without(rows, op)
  }

  class PointsEntries {
    var rows: seq<Entry>

    method FindFirst(op: Op) returns (i: nat)
      ensures i == FirstTarget(rows, op)
    {
      i := 0;
      while i < |rows| && !IsTarget(op, rows[i])
        invariant i <= |rows| && FirstTarget(rows, op) == i + FirstTarget(rows[i..], op)
      {
        assert rows[i..][1..] == rows[i + 1..];
        i := i + 1;
      }
    }

    method UpsertComputedEntry(clubId: string, ryYear: int, ruleId: string, categoryId: string, periodKey: string,
                               points: int, newId: string)
      modifies this
      ensures rows == Step(old(rows), UpsertComputed(clubId, ryYear, ruleId, categoryId, periodKey, points), newId)
      ensures OnePerKey(old(rows)) ==> exists i ::
                LeavesOne(UpsertComputed(clubId, ryYear, ruleId, categoryId, periodKey, points), old(rows), rows, i,
                          newId)
    {
      var op := UpsertComputed(clubId, ryYear, ruleId, categoryId, periodKey, points);
      if OnePerKey(rows) { UpsertLeavesOne(rows, op, newId); }
      var existing := FindFirst(op);
      if existing < |rows| {
        rows := rows[existing := Written(op, rows[existing])];
      } else {
        rows := rows + [Entry(newId, clubId, ryYear, periodKey, Some(ruleId), categoryId, Computed, points, None)];
      }
    }

    method UpsertJudgedEntry(clubId: string, ryYear: int, periodKey: string, categoryId: string, points: int,
                             newId: string)
      modifies this
      ensures rows == Step(old(rows), UpsertJudged(clubId, ryYear, periodKey, categoryId, points), newId)
      ensures OnePerKey(old(rows)) ==> exists i ::
                LeavesOne(UpsertJudged(clubId, ryYear, periodKey, categoryId, points), old(rows), rows, i, newId)
    {
      var op := UpsertJudged(clubId, ryYear, periodKey, categoryId, points);
      if OnePerKey(rows) { UpsertLeavesOne(rows, op, newId); }
      var existing := FindFirst(op);
      if existing < |rows| {
        rows := rows[existing := Written(op, rows[existing])];
      } else {
        rows := rows + [Entry(newId, clubId, ryYear, periodKey, None, categoryId, Judged, points, None)];
      }
    }

    /** `deleteComputedEntry`, `deleteJudgedEntry` and `deleteStaleComputed`. */
    method DeleteMany(op: Op)
      requires !IsUpsert(op)
      modifies this
      ensures forall newId :: rows == Step(old(rows), op, newId)
      ensures forall e :: e in rows <==> e in old(rows) && !IsDeleted(op, e)
    {
      WithoutKeepsTheRest(rows, op);
      rows := Without(rows, op);
    }
  }

  // ---- one entry per key, over every sequence of operations

  /** The two partial unique indexes of the table: club, rule and period of computed entries, and club and period of
      judged entries that carry no source. Entries without a rule never clash. */
  predicate SameKey(d: Entry, e: Entry) {
    && d.kind == e.kind && d.clubId == e.clubId && d.periodKey == e.periodKey
    && if d.kind == Computed then d.ruleId == e.ruleId && d.ruleId.Some? else d.sourceType == e.sourceType == None
  }

  ghost predicate OnePerKey(rows: seq<Entry>) {
    forall i, j | 0 <= i < j < |rows| :: !SameKey(rows[i], rows[j])
  }

  /** No judged entry comes from somewhere else. */
  ghost predicate NoForeignJudged(rows: seq<Entry>) {
    forall i | 0 <= i < |rows| :: rows[i].kind == Judged ==> rows[i].sourceType == None
  }

  function Run(rows: seq<Entry>, ops: seq<Op>, newId: nat -> string): seq<Entry> {
    if ops == [] then rows
    else Step(Run(rows, ops[..|ops| - 1], newId), ops[|ops| - 1], newId(|ops|))
  }

  lemma {:induction false} WithoutKeepsTheRest(rows: seq<Entry>, op: Op)
    ensures forall e :: e in Without(rows, op) <==> e in rows && !IsTarget(op, e)
  {
    hide IsTarget;
    if rows != [] {
      WithoutKeepsTheRest(rows[..|rows| - 1], op);
      assert rows == rows[..|rows| - 1] + [rows[|rows| - 1]];
    }
  }

  lemma {:induction false} DeleteKeeps(rows: seq<Entry>, op: Op)
    requires OnePerKey(rows) && NoForeignJudged(rows)
    ensures OnePerKey(Without(rows, op)) && NoForeignJudged(Without(rows, op))
  {
    hide IsTarget, SameKey;
    if rows != [] {
      var n := |rows| - 1;
      DeleteKeeps(rows[..n], op);
      WithoutKeepsTheRest(rows[..n], op);
      LastStaysApart(rows, Without(rows[..n], op));
    }
  }

  /** Any choice of the earlier rows can be followed by the last one. */
  lemma LastStaysApart(rows: seq<Entry>, chosen: seq<Entry>)
    requires rows != [] && OnePerKey(rows) && OnePerKey(chosen)
    requires forall e | e in chosen :: e in rows[..|rows| - 1]
    ensures OnePerKey(chosen + [rows[|rows| - 1]])
  {
    hide SameKey;
    var n := |rows| - 1;
    forall i | 0 <= i < |chosen| ensures !SameKey(chosen[i], rows[n]) {
      assert chosen[i] in chosen && chosen[i] in rows[..n];
      var j :| 0 <= j < n && rows[..n][j] == chosen[i];
    }
  }

  lemma StepKeeps(rows: seq<Entry>, op: Op, newId: string)
    requires OnePerKey(rows) && NoForeignJudged(rows)
    ensures OnePerKey(Step(rows, op, newId)) && NoForeignJudged(Step(rows, op, newId))
  {
    if IsUpsert(op) {
      var k := FirstTarget(rows, op);
      var r := Step(rows, op, newId);
      forall i | 0 <= i < |rows| ensures !IsTarget(op, rows[i]) ==> !SameKey(rows[i], r[k]) && !SameKey(r[k], rows[i]) {
      }
      if k < |rows| {
        forall i | 0 <= i < |rows| && i != k ensures !IsTarget(op, rows[i]) {
          assert if i < k then !SameKey(rows[i], rows[k]) else !SameKey(rows[k], rows[i]);
        }
      }
    } else {
      DeleteKeeps(rows, op);
    }
  }

  lemma {:induction false} RunKeeps(rows: seq<Entry>, ops: seq<Op>, newId: nat -> string)
    requires OnePerKey(rows) && NoForeignJudged(rows)
    ensures OnePerKey(Run(rows, ops, newId)) && NoForeignJudged(Run(rows, ops, newId))
  {
    if ops != [] {
      RunKeeps(rows, ops[..|ops| - 1], newId);
      StepKeeps(Run(rows, ops[..|ops| - 1], newId), ops[|ops| - 1], newId(|ops|));
    }
  }

  // ---- what an operation leaves in the table, told without the functions above

  predicate HasComputedKey(e: Entry, clubId: string, ruleId: string, periodKey: string) {
    e.kind == Computed && e.clubId == clubId && e.ruleId == Some(ruleId) && e.periodKey == periodKey
  }

  predicate HasJudgedKey(e: Entry, clubId: string, periodKey: string) {
    e.kind == Judged && e.clubId == clubId && e.periodKey == periodKey && e.sourceType == None
  }

  /** Row `i`, an old one or a new one at the end, is now `e`, and the others are what they were. */
  predicate OnlyRowIs(rows: seq<Entry>, r: seq<Entry>, i: nat, e: Entry) {
    if i < |rows| then r == rows[i := e] else i == |rows| && r == rows + [e]
  }

  /** Row `i` is the only one of its key; it has what was given, its own id or the new one, and a column that is not
      written is what it was. */
  predicate LeavesOne(op: Op, rows: seq<Entry>, r: seq<Entry>, i: nat, newId: string) {
    var id := if i < |rows| then rows[i].id else newId;
    match op
    case UpsertComputed(clubId, ryYear, ruleId, categoryId, periodKey, points) =>
      && OnlyRowIs(rows, r, i, Entry(id, clubId, ryYear, periodKey, Some(ruleId), categoryId, Computed, points,
                                     if i < |rows| then rows[i].sourceType else None))
      && (i < |rows| ==> HasComputedKey(rows[i], clubId, ruleId, periodKey))
      && forall j | 0 <= j < |r| && j != i :: !HasComputedKey(r[j], clubId, ruleId, periodKey)
    case UpsertJudged(clubId, ryYear, periodKey, categoryId, points) =>
      && OnlyRowIs(rows, r, i, Entry(id, clubId, ryYear, periodKey, if i < |rows| then rows[i].ruleId else None,
                                     categoryId, Judged, points, None))
      && (i < |rows| ==> HasJudgedKey(rows[i], clubId, periodKey))
      && forall j | 0 <= j < |r| && j != i :: !HasJudgedKey(r[j], clubId, periodKey)
    case _ => false
  }

  /** Wherever an upsert writes, it writes this, provided no other row has its key. */
  lemma WrittenLeavesOne(op: Op, rows: seq<Entry>, i: nat, newId: string)
    requires IsUpsert(op) && i <= |rows| && (i < |rows| ==> IsTarget(op, rows[i]))
    requires forall j | 0 <= j < |rows| && j != i :: !IsTarget(op, rows[j])
    ensures LeavesOne(op, rows, if i < |rows| then rows[i := Written(op, rows[i])]
                      else rows + [Written(op, NewRow(newId))],
                      i, newId)
  {
  }

  /** From a table with one entry per key an upsert leaves exactly one row of the key, as given. */
  lemma UpsertLeavesOne(rows: seq<Entry>, op: Op, newId: string)
    requires OnePerKey(rows) && IsUpsert(op)
    ensures LeavesOne(op, rows, Step(rows, op, newId), FirstTarget(rows, op), newId)
  {
    hide LeavesOne, SameKey, Written, IsTarget;
    var i := FirstTarget(rows, op);
    OtherRowsAreNoTargets(rows, op, i);
    WrittenLeavesOne(op, rows, i, newId);
  }

  lemma OtherRowsAreNoTargets(rows: seq<Entry>, op: Op, i: nat)
    requires OnePerKey(rows) && IsUpsert(op) && i <= |rows| && (i < |rows| ==> IsTarget(op, rows[i]))
    requires i == |rows| ==> forall j | 0 <= j < |rows| :: !IsTarget(op, rows[j])
    ensures forall j | 0 <= j < |rows| && j != i :: !IsTarget(op, rows[j])
  {
    hide SameKey, IsTarget;
    forall j | 0 <= j < |rows| && j != i ensures !IsTarget(op, rows[j]) {
      if i < |rows| {
        assert if i < j then !SameKey(rows[i], rows[j]) else !SameKey(rows[j], rows[i]);
        NoTwoTargets(op, rows[i], rows[j]);
      }
    }
  }

  lemma NoTwoTargets(op: Op, d: Entry, e: Entry)
    requires IsUpsert(op) && IsTarget(op, d) && !(SameKey(d, e) && SameKey(e, d))
    ensures !IsTarget(op, e)
  {
  }

  /** What a delete takes away. */
  predicate IsDeleted(op: Op, e: Entry) {
    match op
    case DeleteComputed(clubId, ruleId, periodKey) => HasComputedKey(e, clubId, ruleId, periodKey)
    case DeleteStale(clubId, ryYear, active) =>
      e.kind == Computed && e.clubId == clubId && e.ryYear == ryYear && e.ruleId.Some? && e.ruleId.value !in active
    case DeleteJudged(clubId, periodKey) => HasJudgedKey(e, clubId, periodKey)
    case _ => false
  }

  lemma {:induction false} WithoutRemoves(rows: seq<Entry>, op: Op, e: Entry)
    ensures multiset(Without(rows, op))[e] == if IsTarget(op, e) then 0 else multiset(rows)[e]
  {
    hide IsTarget;
    if rows != [] {
      var rest, x := rows[..|rows| - 1], rows[|rows| - 1];
      WithoutRemoves(rest, op, e);
      OneMoreCounted(rows, rest, x, e);
      if !IsTarget(op, x) { OneMoreCounted(Without(rows, op), Without(rest, op), x, e); }
    }
  }

  lemma OneMoreCounted(rows: seq<Entry>, rest: seq<Entry>, x: Entry, e: Entry)
    requires rows == rest + [x]
    ensures multiset(rows)[e] == multiset(rest)[e] + if x == e then 1 else 0
  {
  }

  /** A delete removes exactly these rows, and every other one stays as often as it was there. */
  lemma DeleteRemoves(rows: seq<Entry>, op: Op, newId: string, e: Entry)
    requires !IsUpsert(op)
    ensures multiset(Step(rows, op, newId))[e] == if IsDeleted(op, e) then 0 else multiset(rows)[e]
  {
    WithoutRemoves(rows, op, e);
    assert IsTarget(op, e) <==> IsDeleted(op, e);
  }

  // ---- an upsert is a look and then a write, and others may come in between

  function IdsOf(rows: seq<Entry>): (r: seq<string>)
    ensures |r| == |rows| && forall i | 0 <= i < |rows| :: r[i] == rows[i].id
  {
    seq(|rows|, i requires 0 <= i < |rows| => rows[i].id)
  }

  function RowWithId(rows: seq<Entry>, id: string): (i: nat)
    ensures i <= |rows|
    ensures i < |rows| ==> rows[i].id == id
    ensures forall j | 0 <= j < i :: rows[j].id != id
  {
    assert forall j | 0 <= j < |rows| :: IdsOf(rows)[j] == rows[j].id;
    Position(IdsOf(rows), id)
  }

  /** The id that `findFirst` selects. */
  function Found(rows: seq<Entry>, op: Op): Option<string> {
    var i := FirstTarget(rows, op);
    if i < |rows| then Some(rows[i].id) else None
  }

  /** An index refuses the entry: a row other than row `i` has its key. */
  predicate IsRefused(rows: seq<Entry>, i: nat, e: Entry) {
    exists j | 0 <= j < |rows| :: j != i && SameKey(rows[j], e)
  }

  datatype Phase = Look(caller: nat, op: Op) | Write(caller: nat, newId: string) | Delete(op: Op)

  /** What each caller has looked for and found, and every id that has been given out; ids are not given out twice. */
  datatype Race = Race(rows: seq<Entry>, looked: map<nat, (Op, Option<string>)>, ids: set<string>)

  predicate IsEnabled(s: Race, phase: Phase) {
    match phase
    case Look(c, op) => c !in s.looked && IsUpsert(op)
    case Write(c, newId) => c in s.looked && newId !in s.ids
    case Delete(op) => !IsUpsert(op)
  }

  /** `create`, or `update` by the id that was found. The call fails and changes nothing when an index refuses the
      entry or the row has gone. */
  function WriteBack(rows: seq<Entry>, op: Op, found: Option<string>, newId: string): Option<seq<Entry>>
    requires IsUpsert(op)
  {
    match found
    case None =>
      var e := Written(op, NewRow(newId));
      if IsRefused(rows, |rows|, e) then None else Some(rows + [e])
    case Some(id) =>
      var i := RowWithId(rows, id);
      if i < |rows| && !IsRefused(rows, i, Written(op, rows[i])) then Some(rows[i := Written(op, rows[i])]) else None
  }

  function Proceed(s: Race, phase: Phase): Race {
    match phase
    case Look(c, op) => s.(looked := s.looked[c := (op, Found(s.rows, op))])
    case Write(c, newId) =>
      if c in s.looked && IsUpsert(s.looked[c].0) then
        var rows := WriteBack(s.rows, s.looked[c].0, s.looked[c].1, newId);
        Race(if rows.Some? then rows.value else s.rows, s.looked - {c}, s.ids + {newId})
      else s
    case Delete(op) => s.(rows := Without(s.rows, op))
  }

  ghost predicate IsInterleaving(states: seq<Race>, phases: seq<Phase>) {
    && |states| == |phases| + 1
    && forall i | 0 <= i < |phases| :: IsEnabled(states[i], phases[i]) && states[i + 1] == Proceed(states[i], phases[i])
  }

  ghost predicate UniqueIds(rows: seq<Entry>) {
    forall i, j | 0 <= i < j < |rows| :: rows[i].id != rows[j].id
  }

  ghost predicate IdsAreKnown(rows: seq<Entry>, ids: set<string>) {
    forall i | 0 <= i < |rows| :: rows[i].id in ids
  }

  /** Nobody is in the middle of an upsert. */
  ghost predicate IsStart(s: Race) {
    OnePerKey(s.rows) && UniqueIds(s.rows) && NoForeignJudged(s.rows) && s.looked == map[] && IdsAreKnown(s.rows, s.ids)
  }

  /** What a caller has found is still what it was looking for, if it is still there. */
  ghost predicate FindingHolds(rows: seq<Entry>, ids: set<string>, op: Op, found: Option<string>) {
    IsUpsert(op) && (found.Some? ==>
      found.value in ids && forall i | 0 <= i < |rows| && rows[i].id == found.value :: IsTarget(op, rows[i]))
  }

  ghost predicate RaceInv(s: Race) {
    && OnePerKey(s.rows) && UniqueIds(s.rows) && NoForeignJudged(s.rows) && IdsAreKnown(s.rows, s.ids)
    && forall c | c in s.looked :: FindingHolds(s.rows, s.ids, s.looked[c].0, s.looked[c].1)
  }

  /** Whatever the operation finds and rewrites keeps its key. */
  lemma WrittenKeepsKey(op: Op, e: Entry, d: Entry)
    requires IsUpsert(op) && IsTarget(op, e)
    ensures Written(op, e).id == e.id && (SameKey(d, Written(op, e)) <==> SameKey(d, e))
    ensures SameKey(Written(op, e), d) <==> SameKey(e, d)
    ensures Written(op, e).kind == e.kind && Written(op, e).sourceType == e.sourceType
  {
  }

  lemma WrittenStaysTarget(op: Op, other: Op, e: Entry)
    requires IsUpsert(op) && IsUpsert(other) && IsTarget(op, e) && IsTarget(other, e)
    ensures IsTarget(other, Written(op, e))
  {
  }

  /** A new row clashes with exactly the rows that the operation looks for. */
  lemma NewRowClashes(op: Op, newId: string, e: Entry)
    requires IsUpsert(op)
    ensures var new' := Written(op, NewRow(newId));
            && new'.id == newId && (SameKey(e, new') <==> IsTarget(op, e))
            && (new'.kind == Judged ==> new'.sourceType == None)
  {
  }

  lemma LookKeeps(s: Race, c: nat, op: Op)
    requires RaceInv(s) && IsUpsert(op)
    ensures RaceInv(Proceed(s, Look(c, op)))
  {
    hide SameKey, IsTarget;
    var i := FirstTarget(s.rows, op);
    assert FindingHolds(s.rows, s.ids, op, Found(s.rows, op));
  }

  lemma UpdateKeeps(s: Race, c: nat, newId: string, i: nat)
    requires RaceInv(s) && c in s.looked && s.looked[c].1.Some?
    requires i < |s.rows| && s.rows[i].id == s.looked[c].1.value
    ensures var op := s.looked[c].0;
            IsUpsert(op) && RaceInv(Race(s.rows[i := Written(op, s.rows[i])], s.looked - {c}, s.ids + {newId}))
  {
    assert FindingHolds(s.rows, s.ids, s.looked[c].0, s.looked[c].1);
    var op, e := s.looked[c].0, s.rows[i];
    var rows := s.rows[i := Written(op, e)];
    hide SameKey, IsTarget;
    forall j, k | 0 <= j < k < |rows| ensures !SameKey(rows[j], rows[k]) && rows[j].id != rows[k].id {
      WrittenKeepsKey(op, e, s.rows[if j == i then k else j]);
      assert !SameKey(s.rows[j], s.rows[k]) && s.rows[j].id != s.rows[k].id;
    }
    WrittenKeepsKey(op, e, e);
    forall d | d in s.looked - {c} ensures FindingHolds(rows, s.ids + {newId}, s.looked[d].0, s.looked[d].1) {
      assert FindingHolds(s.rows, s.ids, s.looked[d].0, s.looked[d].1);
      if s.looked[d].1 == Some(e.id) { WrittenStaysTarget(op, s.looked[d].0, e); }
    }
  }

  lemma CreateKeeps(s: Race, c: nat, newId: string)
    requires RaceInv(s) && c in s.looked && newId !in s.ids
    requires forall j | 0 <= j < |s.rows| :: !IsTarget(s.looked[c].0, s.rows[j])
    ensures IsUpsert(s.looked[c].0)
    ensures RaceInv(Race(s.rows + [Written(s.looked[c].0, NewRow(newId))], s.looked - {c}, s.ids + {newId}))
  {
    assert FindingHolds(s.rows, s.ids, s.looked[c].0, s.looked[c].1);
    var op := s.looked[c].0;
    var rows := s.rows + [Written(op, NewRow(newId))];
    hide SameKey, IsTarget;
    forall j | 0 <= j < |s.rows| ensures !SameKey(s.rows[j], rows[|s.rows|]) { NewRowClashes(op, newId, s.rows[j]); }
    NewRowClashes(op, newId, NewRow(newId));
    forall d | d in s.looked - {c} ensures FindingHolds(rows, s.ids + {newId}, s.looked[d].0, s.looked[d].1) {
      assert FindingHolds(s.rows, s.ids, s.looked[d].0, s.looked[d].1);
    }
  }

  lemma RefusedKeeps(s: Race, c: nat, newId: string)
    requires RaceInv(s)
    ensures RaceInv(Race(s.rows, s.looked - {c}, s.ids + {newId}))
  {
    hide SameKey, IsTarget;
    forall d | d in s.looked - {c} ensures FindingHolds(s.rows, s.ids + {newId}, s.looked[d].0, s.looked[d].1) {
      assert FindingHolds(s.rows, s.ids, s.looked[d].0, s.looked[d].1);
    }
  }

  /** An update is never refused by an index, and a create exactly when another caller has been faster. */
  lemma RefusedIff(s: Race, c: nat, newId: string)
    requires RaceInv(s) && c in s.looked
    ensures IsUpsert(s.looked[c].0)
    ensures WriteBack(s.rows, s.looked[c].0, s.looked[c].1, newId) == None <==>
            match s.looked[c].1
            case None => exists j :: 0 <= j < |s.rows| && IsTarget(s.looked[c].0, s.rows[j])
            case Some(id) => forall j | 0 <= j < |s.rows| :: s.rows[j].id != id
  {
    assert FindingHolds(s.rows, s.ids, s.looked[c].0, s.looked[c].1);
    var op := s.looked[c].0;
    hide SameKey, IsTarget;
    match s.looked[c].1 {
      case None =>
        forall j | 0 <= j < |s.rows|
          ensures SameKey(s.rows[j], Written(op, NewRow(newId))) <==> IsTarget(op, s.rows[j])
        {
          NewRowClashes(op, newId, s.rows[j]);
        }
      case Some(id) =>
        var i := RowWithId(s.rows, id);
        if i < |s.rows| { UpdateFits(s.rows, op, i); }
    }
  }

  /** A write that is not refused leaves exactly one row of the key, as given, however long ago the look was: the row
      that was found, or a new one. */
  lemma WriteBackLeavesOne(s: Race, c: nat, newId: string)
    requires RaceInv(s) && c in s.looked && IsUpsert(s.looked[c].0)
    requires WriteBack(s.rows, s.looked[c].0, s.looked[c].1, newId).Some?
    ensures var i := if s.looked[c].1.Some? then RowWithId(s.rows, s.looked[c].1.value) else |s.rows|;
            && (s.looked[c].1.Some? ==> i < |s.rows| && s.rows[i].id == s.looked[c].1.value)
            && LeavesOne(s.looked[c].0, s.rows,
                         WriteBack(s.rows, s.looked[c].0, s.looked[c].1, newId).value, i, newId)
  {
    assert FindingHolds(s.rows, s.ids, s.looked[c].0, s.looked[c].1);
    RefusedIff(s, c, newId);
    var op := s.looked[c].0;
    var i := if s.looked[c].1.Some? then RowWithId(s.rows, s.looked[c].1.value) else |s.rows|;
    hide LeavesOne, SameKey, Written, IsTarget;
    OtherRowsAreNoTargets(s.rows, op, i);
    WrittenLeavesOne(op, s.rows, i, newId);
  }

  lemma UpdateFits(rows: seq<Entry>, op: Op, i: nat)
    requires OnePerKey(rows) && i < |rows| && IsUpsert(op) && IsTarget(op, rows[i])
    ensures !IsRefused(rows, i, Written(op, rows[i]))
  {
    hide SameKey, IsTarget;
    forall j | 0 <= j < |rows| && j != i ensures !SameKey(rows[j], Written(op, rows[i])) {
      WrittenKeepsKey(op, rows[i], rows[j]);
      SameKeyBothWays(rows[i], rows[j]);
      assert if i < j then !SameKey(rows[i], rows[j]) else !SameKey(rows[j], rows[i]);
    }
  }

  lemma SameKeyBothWays(d: Entry, e: Entry)
    ensures SameKey(d, e) <==> SameKey(e, d)
  {
  }

  lemma WriteKeeps(s: Race, c: nat, newId: string)
    requires RaceInv(s) && c in s.looked && newId !in s.ids
    ensures RaceInv(Proceed(s, Write(c, newId)))
  {
    RefusedIff(s, c, newId);
    var op, found := s.looked[c].0, s.looked[c].1;
    hide RaceInv, IsTarget;
    if WriteBack(s.rows, op, found, newId) == None {
      RefusedKeeps(s, c, newId);
    } else {
      match found {
        case None => CreateKeeps(s, c, newId);
        case Some(id) => UpdateKeeps(s, c, newId, RowWithId(s.rows, id));
      }
    }
  }

  lemma {:induction false} WithoutKeepsIds(rows: seq<Entry>, op: Op)
    requires UniqueIds(rows)
    ensures UniqueIds(Without(rows, op))
  {
    hide IsTarget;
    if rows != [] {
      var n := |rows| - 1;
      WithoutKeepsIds(rows[..n], op);
      WithoutKeepsTheRest(rows[..n], op);
      var r := Without(rows[..n], op);
      forall i | 0 <= i < |r| ensures r[i].id != rows[n].id {
        assert r[i] in rows[..n];
        var j :| 0 <= j < n && rows[..n][j] == r[i];
      }
    }
  }

  lemma DeletePhaseKeeps(s: Race, op: Op)
    requires RaceInv(s)
    ensures RaceInv(Proceed(s, Delete(op)))
  {
    var r := Without(s.rows, op);
    DeleteKeeps(s.rows, op);
    WithoutKeepsIds(s.rows, op);
    WithoutKeepsTheRest(s.rows, op);
    hide IsTarget, SameKey, Without;
    forall i | 0 <= i < |r| ensures r[i] in s.rows { assert r[i] in r; }
    forall c | c in s.looked ensures FindingHolds(r, s.ids, s.looked[c].0, s.looked[c].1) {
      assert FindingHolds(s.rows, s.ids, s.looked[c].0, s.looked[c].1);
    }
  }

  /** A delete removes the same rows in between, and disturbs no caller. */
  lemma DeletePhaseRemoves(s: Race, op: Op, e: Entry)
    requires !IsUpsert(op)
    ensures var s' := Proceed(s, Delete(op));
            && multiset(s'.rows)[e] == (if IsDeleted(op, e) then 0 else multiset(s.rows)[e])
            && s'.looked == s.looked && s'.ids == s.ids
  {
    DeleteRemoves(s.rows, op, "", e);
  }

  /** However looks, writes and deletes of any callers interleave, the table keeps one entry per key. */
  lemma {:induction false} InterleavingKeeps(states: seq<Race>, phases: seq<Phase>, n: nat)
    requires IsInterleaving(states, phases) && IsStart(states[0]) && n <= |phases|
    ensures RaceInv(states[n])
  {
    if n > 0 {
      hide RaceInv, IsStart, Proceed;
      InterleavingKeeps(states, phases, n - 1);
      match phases[n - 1] {
        case Look(c, op) => LookKeeps(states[n - 1], c, op);
        case Write(c, newId) => WriteKeeps(states[n - 1], c, newId);
        case Delete(op) => DeletePhaseKeeps(states[n - 1], op);
      }
    }
  }

  /** Undisturbed, a look and a write are the one step of the operation. */
  lemma LookThenWriteIsStep(s: Race, op: Op, caller: nat, newId: string)
    requires RaceInv(s) && caller !in s.looked && IsUpsert(op) && newId !in s.ids
    ensures var after := Proceed(Proceed(s, Look(caller, op)), Write(caller, newId));
            after.rows == Step(s.rows, op, newId) && after.looked == s.looked
  {
    var s1 := Proceed(s, Look(caller, op));
    LookKeeps(s, caller, op);
    RefusedIff(s1, caller, newId);
    hide RaceInv, IsTarget, Written;
    assert s1.looked - {caller} == s.looked;
    var i := FirstTarget(s.rows, op);
    if i < |s.rows| {
      assert RowWithId(s.rows, s.rows[i].id) == i by { FirstOfId(s, i); }
    }
  }

  lemma FirstOfId(s: Race, i: nat)
    requires RaceInv(s) && i < |s.rows|
    ensures RowWithId(s.rows, s.rows[i].id) == i
  {
    hide SameKey, IsTarget;
    var j := RowWithId(s.rows, s.rows[i].id);
    assert j <= i;
  }
}
