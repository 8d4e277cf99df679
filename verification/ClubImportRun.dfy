/** Whole runs of `importClubs` of `scripts/import-legacy-district-data.ts`: the import only fills, and a second
    run has nothing left to do. */
module ClubImportRun {
  import opened Text
  import opened ClubImport

  /** `new Map(rows.map((c) => [normalize(c.name), c]))`: the last row of a name counts. */
  function Lookup(rows: seq<Club>, name: string): (r: Option<Club>)
    ensures r.Some? ==> r.value in rows && Normalize(r.value.name) == name
  {
    if rows == [] then None
    else if Normalize(rows[|rows| - 1].name) == name then Some(rows[|rows| - 1])
    else Lookup(rows[..|rows| - 1], name)
  }

  ghost predicate HasName(c: Club, name: string) {
    ToLower(Trim(c.name)) == ToLower(Trim(name))
  }

  /** The last row whose name differs at most in letter case and in white space around it. */
  lemma {:induction false} LookupIsLast(rows: seq<Club>, name: string)
    ensures match Lookup(rows, Normalize(name))
            case None => forall c | c in rows :: !HasName(c, name)
            case Some(c) => exists i :: 0 <= i < |rows| && rows[i] == c && HasName(c, name)
                                        && forall j | i < j < |rows| :: !HasName(rows[j], name)
  {
    hide ToLower, Trim;
    if rows != [] {
      var n := |rows| - 1;
      if HasName(rows[n], name) {
        assert Lookup(rows, Normalize(name)) == Some(rows[n]);
      } else {
        LookupIsLast(rows[..n], name);
        assert rows == rows[..n] + [rows[n]];
        assert Lookup(rows, Normalize(name)) == Lookup(rows[..n], Normalize(name));
        assert forall i | 0 <= i < n :: rows[..n][i] == rows[i];
      }
    }
  }

  predicate HasId(rows: seq<Club>, id: string) {
    exists i | 0 <= i < |rows| :: rows[i].id == id
  }

  function SetFields(rows: seq<Club>, id: string, values: Fields): (r: seq<Club>)
    ensures |r| == |rows|
  {
    seq(|rows|, i requires 0 <= i < |rows| =>
      if rows[i].id == id then rows[i].(fields := rows[i].fields + values) else rows[i])
  }

  /** One write; `None` when the primary key of a new club is taken, which ends the script. */
  function Apply(rows: seq<Club>, decision: Decision): Option<seq<Club>> {
    match decision
    case Create(club) => if HasId(rows, club.id) then None else Some(rows + [club])
    case Update(id, values) => Some(SetFields(rows, id, values))
    case Noop => Some(rows)
  }

  /** Every decision is taken on the rows as they were read before the first write. */
  function DecideFor(snapshot: seq<Club>, s: Scraped, idOf: string -> string): Decision {
    Decide(Lookup(snapshot, Normalize(s.name)), s, idOf(s.name))
  }

  function Run(snapshot: seq<Club>, scraped: seq<Scraped>, idOf: string -> string): Option<seq<Club>> {
    if scraped == [] then Some(snapshot)
    else
      var n := |scraped| - 1;
      var before := Run(snapshot, scraped[..n], idOf);
      if before == None then None else Apply(before.value, DecideFor(snapshot, scraped[n], idOf))
  }

  datatype Tally = Tally(created: nat, updated: nat, noop: nat)

  function Counted(snapshot: seq<Club>, scraped: seq<Scraped>, idOf: string -> string): Tally {
    if scraped == [] then Tally(0, 0, 0)
    else
      var n := |scraped| - 1;
      var t := Counted(snapshot, scraped[..n], idOf);
      match DecideFor(snapshot, scraped[n], idOf)
      case Create(_) => t.(created := t.created + 1)
      case Update(_, _) => t.(updated := t.updated + 1)
      case Noop => t.(noop := t.noop + 1)
  }

  ghost predicate UniqueIds(rows: seq<Club>) {
    forall i, j | 0 <= i < j < |rows| :: rows[i].id != rows[j].id
  }

  ghost predicate DistinctNames(scraped: seq<Scraped>) {
    forall i, j | 0 <= i < j < |scraped| :: Normalize(scraped[i].name) != Normalize(scraped[j].name)
  }

  lemma RunOfNone(snapshot: seq<Club>, idOf: string -> string)
    ensures Run(snapshot, [], idOf) == Some(snapshot)
  {
  }

  lemma RunOneMore(snapshot: seq<Club>, scraped: seq<Scraped>, k: nat, idOf: string -> string)
    requires k < |scraped|
    ensures var before := Run(snapshot, scraped[..k], idOf);
            Run(snapshot, scraped[..k + 1], idOf)
            == if before == None then None else Apply(before.value, DecideFor(snapshot, scraped[k], idOf))
  {
    assert scraped[..k + 1][..k] == scraped[..k];
  }

  class LegacyImport {
    var rows: seq<Club>

    static method IndexByName(rows: seq<Club>) returns (byName: map<string, Club>)
      ensures forall n :: Lookup(rows, n) == if n in byName then Some(byName[n]) else None
    {
      hide Normalize;
      byName := map[];
      for i := 0 to |rows|
        invariant forall n :: Lookup(rows[..i], n) == if n in byName then Some(byName[n]) else None
      {
        assert rows[..i + 1][..i] == rows[..i];
        byName := byName[Normalize(rows[i].name) := rows[i]];
      }
      assert rows[..|rows|] == rows;
    }

    /** A dry run counts what a run would do and writes nothing. */
    method ImportClubs(scraped: seq<Scraped>, dryRun: bool, idOf: string -> string) returns (ok: bool, tally: Tally)
      modifies this
      ensures dryRun ==> ok && rows == old(rows)
      ensures !dryRun ==> Run(old(rows), scraped, idOf) == if ok then Some(rows) else None
      ensures ok ==> tally == Counted(old(rows), scraped, idOf)
    {
      hide Normalize, Decide, Apply, Run;
      ghost var snapshot := rows;
      var existingByName := IndexByName(rows);
      ok, tally := true, Tally(0, 0, 0);
      RunOfNone(snapshot, idOf);
      for k := 0 to |scraped|
        invariant tally == Counted(snapshot, scraped[..k], idOf)
        invariant if dryRun then rows == snapshot else Run(snapshot, scraped[..k], idOf) == Some(rows)
      {
        var s := scraped[k];
        assert scraped[..k + 1][..k] == scraped[..k];
        var name := Normalize(s.name);
        var decision := MergeClubFields(if name in existingByName then Some(existingByName[name]) else None, s, idOf);
        assert decision == DecideFor(snapshot, s, idOf);
        match decision {
          case Create(_) => tally := tally.(created := tally.created + 1);
          case Update(_, _) => tally := tally.(updated := tally.updated + 1);
          case Noop => tally := tally.(noop := tally.noop + 1);
        }
        if !dryRun {
          var written := Apply(rows, decision);
          RunOneMore(snapshot, scraped, k, idOf);
          if written == None {
            ok := false;
            FailedRun(snapshot, scraped, k, idOf);
            return;
          }
          rows := written.value;
        }
      }
      assert scraped[..|scraped|] == scraped;
    }
  }

  lemma {:induction false} FailedRun(snapshot: seq<Club>, scraped: seq<Scraped>, k: nat, idOf: string -> string)
    requires k < |scraped| && Run(snapshot, scraped[..k + 1], idOf) == None
    ensures Run(snapshot, scraped, idOf) == None
  {
    hide Apply, DecideFor;
    if |scraped| == k + 1 {
      assert scraped[..k + 1] == scraped;
    } else {
      assert scraped[..|scraped| - 1][..k + 1] == scraped[..k + 1];
      FailedRun(snapshot, scraped[..|scraped| - 1], k, idOf);
    }
  }

  // ---- where the row of a name is after a write

  lemma {:induction false} LookupAfterSet(rows: seq<Club>, id: string, values: Fields, name: string)
    ensures var was := Lookup(rows, name);
            Lookup(SetFields(rows, id, values), name) ==
            if was.Some? && was.value.id == id then Some(was.value.(fields := was.value.fields + values)) else was
  {
    hide Normalize;
    if rows != [] {
      var n := |rows| - 1;
      assert SetFields(rows, id, values)[..n] == SetFields(rows[..n], id, values);
      LookupAfterSet(rows[..n], id, values, name);
    }
  }

  lemma SameIdSameRow(rows: seq<Club>, c: Club, d: Club)
    requires UniqueIds(rows) && c in rows && d in rows && c.id == d.id
    ensures c == d
  {
    var i :| 0 <= i < |rows| && rows[i] == c;
    var j :| 0 <= j < |rows| && rows[j] == d;
    assert i == j;
  }

  /** The row of the name once its record has been imported. */
  function Final(existing: Option<Club>, s: Scraped, id: string): Club {
    match existing
    case None => Club(id, s.name, s.shortName, CreatedFields(s.fields))
    case Some(club) => club.(fields := club.fields + Filled(club.fields, s.fields))
  }

  /** A second look at a row just imported finds nothing to fill. */
  lemma FinalIsComplete(existing: Option<Club>, s: Scraped, id: string, idAgain: string)
    ensures Decide(Some(Final(existing, s, id)), s, idAgain) == Noop
  {
    hide IsGated;
    var fields := Final(existing, s, id).fields;
    forall f ensures !IsDue(fields, s.fields, f) {
      OfferedIsFull(s.fields, f);
    }
    assert Filled(fields, s.fields) == map[];
  }

  lemma OfferedIsFull(scraped: Fields, f: Field)
    ensures IsOffered(scraped, f) ==>
              f in scraped && forall fields: Fields | f in fields && fields[f] == scraped[f] :: !IsOpen(fields, f)
  {
    hide IsGated, Trim;
  }

  /** The row of the record is there, complete. */
  ghost predicate IsImported(snapshot: seq<Club>, r: seq<Club>, s: Scraped, idOf: string -> string) {
    var name := Normalize(s.name);
    Lookup(r, name) == Some(Final(Lookup(snapshot, name), s, idOf(s.name)))
  }

  lemma StepOutcome(snapshot: seq<Club>, rows: seq<Club>, s: Scraped, idOf: string -> string)
    requires UniqueIds(rows) && Lookup(rows, Normalize(s.name)) == Lookup(snapshot, Normalize(s.name))
    requires Apply(rows, DecideFor(snapshot, s, idOf)).Some?
    ensures var r := Apply(rows, DecideFor(snapshot, s, idOf)).value;
            && UniqueIds(r)
            && IsImported(snapshot, r, s, idOf)
            && forall n | n != Normalize(s.name) :: Lookup(r, n) == Lookup(rows, n)
  {
    hide Normalize, IsDue;
    var name := Normalize(s.name);
    match Lookup(rows, name) {
      case None =>
        var club := Club(idOf(s.name), s.name, s.shortName, CreatedFields(s.fields));
        assert (rows + [club])[..|rows|] == rows;
      case Some(row) =>
        var values := Filled(row.fields, s.fields);
        assert values == map[] ==> row.fields + values == row.fields;
        forall n
          ensures Lookup(SetFields(rows, row.id, values), n)
               == if n == name then Some(Final(Some(row), s, idOf(s.name))) else Lookup(rows, n)
        {
          LookupAfterSet(rows, row.id, values, n);
          var was := Lookup(rows, n);
          if was.Some? && was.value.id == row.id { SameIdSameRow(rows, was.value, row); }
        }
    }
  }

  ghost predicate IsNamed(scraped: seq<Scraped>, name: string) {
    exists i | 0 <= i < |scraped| :: Normalize(scraped[i].name) == name
  }

  /** After a run every record has its row, complete, and the rows of all other names are what they were. */
  lemma {:induction false} RunOutcome(snapshot: seq<Club>, scraped: seq<Scraped>, idOf: string -> string)
    requires UniqueIds(snapshot) && DistinctNames(scraped) && Run(snapshot, scraped, idOf).Some?
    ensures var r := Run(snapshot, scraped, idOf).value;
            && UniqueIds(r)
            && (forall i | 0 <= i < |scraped| :: IsImported(snapshot, r, scraped[i], idOf))
            && (forall n | !IsNamed(scraped, n) :: Lookup(r, n) == Lookup(snapshot, n))
  {
    if scraped != [] {
      hide Normalize, Apply, DecideFor, UniqueIds, Lookup, IsNamed, IsImported, DistinctNames;
      var n := |scraped| - 1;
      PrefixIsDistinct(scraped);
      NamesSoFar(scraped);
      RunOneMore(snapshot, scraped, n, idOf);
      assert scraped[..n + 1] == scraped;
      hide Run;
      RunOutcome(snapshot, scraped[..n], idOf);
      var before := Run(snapshot, scraped[..n], idOf).value;
      StepOutcome(snapshot, before, scraped[n], idOf);
      var r := Run(snapshot, scraped, idOf).value;
      forall i | 0 <= i < n ensures IsImported(snapshot, r, scraped[i], idOf) {
        assert IsImported(snapshot, before, scraped[..n][i], idOf);
        ImportedStays(snapshot, before, r, scraped[i], idOf);
      }
    }
  }

  lemma ImportedStays(snapshot: seq<Club>, before: seq<Club>, r: seq<Club>, s: Scraped, idOf: string -> string)
    requires IsImported(snapshot, before, s, idOf) && Lookup(r, Normalize(s.name)) == Lookup(before, Normalize(s.name))
    ensures IsImported(snapshot, r, s, idOf)
  {
  }

  lemma NamesSoFar(scraped: seq<Scraped>)
    requires scraped != [] && DistinctNames(scraped)
    ensures var n := |scraped| - 1;
            && !IsNamed(scraped[..n], Normalize(scraped[n].name))
            && (forall name :: IsNamed(scraped, name)
                  <==> IsNamed(scraped[..n], name) || name == Normalize(scraped[n].name))
            && (forall i | 0 <= i < n :: Normalize(scraped[i].name) != Normalize(scraped[n].name))
  {
    hide Normalize;
  }

  /** The import converges: a second full run reports every record as a no-op and writes nothing. `again` is
      what the second run reads: it needs to find the rows of the scraped names as the first run left them. */
  lemma SecondRunIsNoop(snapshot: seq<Club>, scraped: seq<Scraped>, idOf: string -> string, again: seq<Club>)
    requires UniqueIds(snapshot) && DistinctNames(scraped) && Run(snapshot, scraped, idOf).Some?
    requires forall i | 0 <= i < |scraped| ::
               Lookup(again, Normalize(scraped[i].name))
               == Lookup(Run(snapshot, scraped, idOf).value, Normalize(scraped[i].name))
    ensures Counted(again, scraped, idOf) == Tally(0, 0, |scraped|) && Run(again, scraped, idOf) == Some(again)
  {
    hide Normalize, Final, Decide, Lookup, UniqueIds, DistinctNames, Run;
    RunOutcome(snapshot, scraped, idOf);
    forall i | 0 <= i < |scraped| ensures DecideFor(again, scraped[i], idOf) == Noop {
      assert IsImported(snapshot, Run(snapshot, scraped, idOf).value, scraped[i], idOf);
      FinalIsComplete(Lookup(snapshot, Normalize(scraped[i].name)), scraped[i], idOf(scraped[i].name),
                      idOf(scraped[i].name));
    }
    AllNoops(again, scraped, idOf);
  }

  lemma {:induction false} AllNoops(rows: seq<Club>, scraped: seq<Scraped>, idOf: string -> string)
    requires forall i | 0 <= i < |scraped| :: DecideFor(rows, scraped[i], idOf) == Noop
    ensures Counted(rows, scraped, idOf) == Tally(0, 0, |scraped|) && Run(rows, scraped, idOf) == Some(rows)
  {
    hide DecideFor;
    if scraped != [] { AllNoops(rows, scraped[..|scraped| - 1], idOf); }
  }

  /** The order in which the rows are read is irrelevant when no two of them have the same normalised name. */
  lemma OrderIsIrrelevant(rows: seq<Club>, again: seq<Club>, name: string)
    requires forall c :: c in rows <==> c in again
    requires forall c, d | c in rows && d in rows && Normalize(c.name) == Normalize(d.name) :: c == d
    ensures Lookup(rows, name) == Lookup(again, name)
  {
    hide Normalize;
    LookupFinds(rows, name);
    LookupFinds(again, name);
  }

  lemma {:induction false} LookupFinds(rows: seq<Club>, name: string)
    ensures Lookup(rows, name) == None ==> forall c | c in rows :: Normalize(c.name) != name
  {
    hide Normalize;
    if rows != [] { LookupFinds(rows[..|rows| - 1], name); }
  }

  // ---- the import only fills

  /** A row keeps its identity and everything that was not blank, and gains no placeholder officer. */
  ghost predicate Kept(c: Club, d: Club) {
    && d.id == c.id && d.name == c.name && d.shortName == c.shortName
    && c.fields.Keys <= d.fields.Keys
    && (forall f | !IsBlank(c.fields, f) :: f in d.fields && d.fields[f] == c.fields[f])
    && (HasPlaceholderPresident(d.fields) ==> HasPlaceholderPresident(c.fields))
    && (HasPlaceholderSecretary(d.fields) ==> HasPlaceholderSecretary(c.fields))
  }

  ghost predicate HasNoPlaceholder(c: Club) {
    !HasPlaceholderPresident(c.fields) && !HasPlaceholderSecretary(c.fields)
  }

  ghost predicate OnlyFills(rows: seq<Club>, r: seq<Club>) {
    && |rows| <= |r|
    && (forall i | 0 <= i < |rows| :: Kept(rows[i], r[i]))
    && (forall i | |rows| <= i < |r| :: HasNoPlaceholder(r[i]))
  }

  /** Filling what was open in `c` keeps everything of `c`, even in a row `d` that has been filled before. */
  lemma FilledIsKept(c: Club, d: Club, s: Fields)
    requires Kept(c, d)
    ensures Kept(c, d.(fields := d.fields + Filled(c.fields, s)))
  {
    hide Trim;
    forall f | IsDue(c.fields, s, f) ensures IsBlank(c.fields, f) {}
  }

  lemma CreatedHasNoPlaceholder(c: Club, s: Fields)
    requires c.fields == CreatedFields(s)
    ensures HasNoPlaceholder(c)
  {
    hide Trim;
  }

  lemma StepOnlyFills(snapshot: seq<Club>, rows: seq<Club>, s: Scraped, idOf: string -> string)
    requires UniqueIds(rows) && OnlyFills(snapshot, rows)
    requires Apply(rows, DecideFor(snapshot, s, idOf)).Some?
    ensures var r := Apply(rows, DecideFor(snapshot, s, idOf)).value;
            UniqueIds(r) && OnlyFills(snapshot, r)
  {
    hide Normalize, Lookup, HasNoPlaceholder, Filled, CreatedFields, IsBlank, HasPlaceholderPresident,
      HasPlaceholderSecretary;
    var r := Apply(rows, DecideFor(snapshot, s, idOf)).value;
    var found := Lookup(snapshot, Normalize(s.name));
    match found {
      case None => CreatedHasNoPlaceholder(r[|rows|], s.fields);
      case Some(club) =>
        var j :| 0 <= j < |snapshot| && snapshot[j] == club;
        assert Kept(snapshot[j], rows[j]);
        FilledIsKept(club, rows[j], s.fields);
        forall i | 0 <= i < |rows| && i != j ensures r[i] == rows[i] {
          assert if i < j then rows[i].id != rows[j].id else rows[j].id != rows[i].id;
        }
    }
  }

  lemma KeptAsIs(c: Club)
    ensures Kept(c, c)
  {
    hide Trim;
  }

  /** A whole run only fills, whatever the scraped records are: no value that was not blank changes, and no
      placeholder officer appears. */
  lemma {:induction false} RunOnlyFills(snapshot: seq<Club>, scraped: seq<Scraped>, idOf: string -> string)
    requires UniqueIds(snapshot) && Run(snapshot, scraped, idOf).Some?
    ensures OnlyFills(snapshot, Run(snapshot, scraped, idOf).value) && UniqueIds(Run(snapshot, scraped, idOf).value)
  {
    hide Kept, HasNoPlaceholder, DecideFor, UniqueIds, Apply;
    if scraped == [] {
      forall i | 0 <= i < |snapshot| ensures Kept(snapshot[i], snapshot[i]) { KeptAsIs(snapshot[i]); }
    } else {
      var n := |scraped| - 1;
      RunOnlyFills(snapshot, scraped[..n], idOf);
      StepOnlyFills(snapshot, Run(snapshot, scraped[..n], idOf).value, scraped[n], idOf);
    }
  }

  lemma PrefixIsDistinct(scraped: seq<Scraped>)
    requires scraped != [] && DistinctNames(scraped)
    ensures DistinctNames(scraped[..|scraped| - 1])
  {
    hide Normalize;
  }

  // ---- the import writes only what its records offer

  /** The value comes from a record of this name, and is not a contact of a placeholder officer. */
  ghost predicate IsSourced(scraped: seq<Scraped>, name: string, f: Field, v: Value) {
    exists k :: 0 <= k < |scraped| && OffersValue(scraped[k], name, f, v)
  }

  predicate OffersValue(s: Scraped, name: string, f: Field, v: Value) {
    Normalize(s.name) == Normalize(name) && f in s.fields && s.fields[f] == v
      && (IsOfficer(f) ==> !IsGated(s.fields, f))
  }

  ghost predicate RowIsSourced(was: Option<Club>, row: Club, scraped: seq<Scraped>) {
    forall f | f in row.fields ::
      || (was.Some? && f in was.value.fields && row.fields[f] == was.value.fields[f])
      || IsSourced(scraped, row.name, f, row.fields[f])
  }

  function RowAt(rows: seq<Club>, i: nat): Option<Club> {
    if i < |rows| then Some(rows[i]) else None
  }

  ghost predicate AreSourced(snapshot: seq<Club>, rows: seq<Club>, scraped: seq<Scraped>) {
    forall i | 0 <= i < |rows| :: RowIsSourced(RowAt(snapshot, i), rows[i], scraped)
  }

  lemma MoreSources(was: Option<Club>, row: Club, scraped: seq<Scraped>)
    requires scraped != [] && RowIsSourced(was, row, scraped[..|scraped| - 1])
    ensures RowIsSourced(was, row, scraped)
  {
    hide OffersValue;
    forall f | f in row.fields && IsSourced(scraped[..|scraped| - 1], row.name, f, row.fields[f])
      ensures IsSourced(scraped, row.name, f, row.fields[f])
    {
      var k :| 0 <= k < |scraped| - 1 && OffersValue(scraped[..|scraped| - 1][k], row.name, f, row.fields[f]);
      assert OffersValue(scraped[k], row.name, f, row.fields[f]);
    }
  }

  lemma FilledIsSourced(was: Option<Club>, row: Club, fields: Fields, scraped: seq<Scraped>)
    requires scraped != [] && RowIsSourced(was, row, scraped)
             && Normalize(row.name) == Normalize(scraped[|scraped| - 1].name)
    ensures RowIsSourced(was, row.(fields := row.fields + Filled(fields, scraped[|scraped| - 1].fields)), scraped)
  {
    hide Normalize, IsGated, IsBlank;
    var s := scraped[|scraped| - 1];
    forall f | f in Filled(fields, s.fields) ensures IsSourced(scraped, row.name, f, s.fields[f]) {
      assert IsDue(fields, s.fields, f) && OffersValue(s, row.name, f, s.fields[f]);
    }
  }

  lemma CreatedIsSourced(id: string, scraped: seq<Scraped>)
    requires scraped != []
    ensures var s := scraped[|scraped| - 1];
            RowIsSourced(None, Club(id, s.name, s.shortName, CreatedFields(s.fields)), scraped)
  {
    hide Normalize, IsGated, IsBlank;
    var s := scraped[|scraped| - 1];
    forall f | f in CreatedFields(s.fields) ensures IsSourced(scraped, s.name, f, s.fields[f]) {
      assert OffersValue(s, s.name, f, s.fields[f]);
    }
  }

  lemma StepIsSourced(snapshot: seq<Club>, rows: seq<Club>, scraped: seq<Scraped>, idOf: string -> string)
    requires scraped != [] && UniqueIds(rows) && OnlyFills(snapshot, rows)
    requires AreSourced(snapshot, rows, scraped[..|scraped| - 1])
    requires Apply(rows, DecideFor(snapshot, scraped[|scraped| - 1], idOf)).Some?
    ensures AreSourced(snapshot, Apply(rows, DecideFor(snapshot, scraped[|scraped| - 1], idOf)).value, scraped)
  {
    hide Normalize, HasNoPlaceholder, Filled, CreatedFields, IsBlank, RowIsSourced, HasPlaceholderPresident,
      HasPlaceholderSecretary;
    var s := scraped[|scraped| - 1];
    var r := Apply(rows, DecideFor(snapshot, s, idOf)).value;
    forall i | 0 <= i < |rows| ensures RowIsSourced(RowAt(snapshot, i), rows[i], scraped) {
      MoreSources(RowAt(snapshot, i), rows[i], scraped);
    }
    match Lookup(snapshot, Normalize(s.name)) {
      case None => CreatedIsSourced(idOf(s.name), scraped);
      case Some(club) =>
        hide Lookup;
        var j :| 0 <= j < |snapshot| && snapshot[j] == club;
        assert Kept(snapshot[j], rows[j]);
        FilledIsSourced(RowAt(snapshot, j), rows[j], club.fields, scraped);
        forall i | 0 <= i < |rows| && i != j ensures r[i] == rows[i] {
          assert if i < j then rows[i].id != rows[j].id else rows[j].id != rows[i].id;
        }
    }
  }

  /** Over a whole run every value is either an old one in its place, or comes from a record of the row's name
      whose officer is no placeholder. */
  lemma {:induction false} RunIsSourced(snapshot: seq<Club>, scraped: seq<Scraped>, idOf: string -> string)
    requires UniqueIds(snapshot) && Run(snapshot, scraped, idOf).Some?
    ensures AreSourced(snapshot, Run(snapshot, scraped, idOf).value, scraped)
  {
    if scraped != [] {
      hide Apply, DecideFor, UniqueIds, OnlyFills, AreSourced;
      var n := |scraped| - 1;
      RunOnlyFills(snapshot, scraped[..n], idOf);
      RunIsSourced(snapshot, scraped[..n], idOf);
      StepIsSourced(snapshot, Run(snapshot, scraped[..n], idOf).value, scraped, idOf);
    }
  }

  lemma GatedIsNotSourced(scraped: seq<Scraped>, k: nat, name: string, f: Field, v: Value)
    requires DistinctNames(scraped) && k < |scraped| && IsOfficer(f) && IsGated(scraped[k].fields, f)
    requires Normalize(name) == Normalize(scraped[k].name)
    ensures !IsSourced(scraped, name, f, v)
  {
    hide Normalize, IsGated, IsOfficer;
    forall j | 0 <= j < |scraped| ensures !OffersValue(scraped[j], name, f, v) {
      assert j != k ==> Normalize(scraped[j].name) != Normalize(scraped[k].name);
    }
  }

  /** So the name, phone and email that come with a placeholder officer are never written: the row of the record
      has in these fields what it had before, and a new row nothing. */
  lemma GatedFieldsStay(snapshot: seq<Club>, scraped: seq<Scraped>, idOf: string -> string, k: nat, i: nat, f: Field)
    requires UniqueIds(snapshot) && DistinctNames(scraped) && Run(snapshot, scraped, idOf).Some?
    requires k < |scraped| && IsOfficer(f) && IsGated(scraped[k].fields, f)
    requires i < |Run(snapshot, scraped, idOf).value|
    requires Normalize(Run(snapshot, scraped, idOf).value[i].name) == Normalize(scraped[k].name)
    ensures var row := Run(snapshot, scraped, idOf).value[i];
            if i < |snapshot| then
              (f in row.fields <==> f in snapshot[i].fields)
                && (f in row.fields ==> row.fields[f] == snapshot[i].fields[f])
            else f !in row.fields
  {
    hide Normalize, IsGated, Run, UniqueIds, IsOfficer, IsBlank, HasNoPlaceholder, HasPlaceholderPresident,
      HasPlaceholderSecretary;
    var r := Run(snapshot, scraped, idOf).value;
    RunIsSourced(snapshot, scraped, idOf);
    RunOnlyFills(snapshot, scraped, idOf);
    assert RowIsSourced(RowAt(snapshot, i), r[i], scraped);
    if f in r[i].fields { GatedIsNotSourced(scraped, k, r[i].name, f, r[i].fields[f]); }
  }

  // ---- every row after a run

  /** The record finds this row. */
  ghost predicate Finds(snapshot: seq<Club>, s: Scraped, i: nat) {
    i < |snapshot| && Lookup(snapshot, Normalize(s.name)) == Some(snapshot[i])
  }

  /** The record finds this row and fills this field of it. */
  ghost predicate Sets(snapshot: seq<Club>, s: Scraped, i: nat, f: Field) {
    Finds(snapshot, s, i) && IsDue(snapshot[i].fields, s.fields, f)
  }

  /** Of all records that fill this field of the row, record `k` is the last. */
  ghost predicate SetsLast(snapshot: seq<Club>, scraped: seq<Scraped>, k: nat, i: nat, f: Field) {
    && k < |scraped| && Sets(snapshot, scraped[k], i, f)
    && forall j | k < j < |scraped| :: !Sets(snapshot, scraped[j], i, f)
  }

  /** The record finds no row and makes this one. */
  ghost predicate Makes(snapshot: seq<Club>, s: Scraped, row: Club, idOf: string -> string) {
    && Lookup(snapshot, Normalize(s.name)) == None
    && row == Club(idOf(s.name), s.name, s.shortName, CreatedFields(s.fields))
  }

  /** The field has what the last record that fills it offers, or what it had when no record fills it. */
  ghost predicate FieldIsRight(snapshot: seq<Club>, scraped: seq<Scraped>, i: nat, fields: Fields, f: Field)
    requires i < |snapshot|
  {
    && (forall k: nat | SetsLast(snapshot, scraped, k, i, f) :: f in fields && fields[f] == scraped[k].fields[f])
    && ((forall k | 0 <= k < |scraped| :: !Sets(snapshot, scraped[k], i, f)) ==> HasSame(fields, snapshot[i].fields, f))
  }

  predicate HasSame(fields: Fields, was: Fields, f: Field) {
    (f in fields <==> f in was) && (f in was ==> fields[f] == was[f])
  }

  /** An old row keeps its identity and its fields are right; a new one is made by a record. */
  ghost predicate IsOutcome(snapshot: seq<Club>, scraped: seq<Scraped>, idOf: string -> string, i: nat, row: Club) {
    if i < |snapshot| then
      row == snapshot[i].(fields := row.fields) && forall f :: FieldIsRight(snapshot, scraped, i, row.fields, f)
    else
      exists k :: 0 <= k < |scraped| && Makes(snapshot, scraped[k], row, idOf)
  }

  lemma LastOfPrefix(snapshot: seq<Club>, scraped: seq<Scraped>, k: nat, i: nat, f: Field)
    requires scraped != [] && !Sets(snapshot, scraped[|scraped| - 1], i, f) && SetsLast(snapshot, scraped, k, i, f)
    ensures k < |scraped| - 1 && SetsLast(snapshot, scraped[..|scraped| - 1], k, i, f)
  {
    hide Sets;
  }

  lemma FieldStays(snapshot: seq<Club>, scraped: seq<Scraped>, i: nat, fields: Fields, f: Field)
    requires i < |snapshot| && scraped != [] && !Sets(snapshot, scraped[|scraped| - 1], i, f)
    requires FieldIsRight(snapshot, scraped[..|scraped| - 1], i, fields, f)
    ensures FieldIsRight(snapshot, scraped, i, fields, f)
  {
    hide Sets, HasSame, SetsLast;
    var n := |scraped| - 1;
    forall k: nat | SetsLast(snapshot, scraped, k, i, f)
      ensures k < n && SetsLast(snapshot, scraped[..n], k, i, f) && scraped[..n][k] == scraped[k]
    {
      LastOfPrefix(snapshot, scraped, k, i, f);
    }
    LastIsInside(snapshot, scraped, i, f);
    assert (forall k | 0 <= k < |scraped| :: !Sets(snapshot, scraped[k], i, f))
        ==> forall k | 0 <= k < n :: !Sets(snapshot, scraped[..n][k], i, f);
  }

  lemma LastIsInside(snapshot: seq<Club>, scraped: seq<Scraped>, i: nat, f: Field)
    ensures forall k: nat | SetsLast(snapshot, scraped, k, i, f) ::
              k < |scraped| && Sets(snapshot, scraped[k], i, f) && f in scraped[k].fields
  {
    hide Finds, IsOpen, IsOffered;
  }

  lemma FieldIsSet(snapshot: seq<Club>, scraped: seq<Scraped>, i: nat, fields: Fields, f: Field)
    requires i < |snapshot| && scraped != [] && Sets(snapshot, scraped[|scraped| - 1], i, f)
    requires f in fields && f in scraped[|scraped| - 1].fields && fields[f] == scraped[|scraped| - 1].fields[f]
    ensures FieldIsRight(snapshot, scraped, i, fields, f)
  {
    hide Sets, HasSame;
  }

  lemma OutcomeStays(snapshot: seq<Club>, scraped: seq<Scraped>, idOf: string -> string, i: nat, row: Club)
    requires scraped != [] && IsOutcome(snapshot, scraped[..|scraped| - 1], idOf, i, row)
    requires !Finds(snapshot, scraped[|scraped| - 1], i)
    ensures IsOutcome(snapshot, scraped, idOf, i, row)
  {
    hide Finds, Makes, IsDue, FieldIsRight;
    var n := |scraped| - 1;
    if i < |snapshot| {
      forall f ensures FieldIsRight(snapshot, scraped, i, row.fields, f) {
        FieldStays(snapshot, scraped, i, row.fields, f);
      }
    } else {
      var k :| 0 <= k < n && Makes(snapshot, scraped[..n][k], row, idOf);
      assert Makes(snapshot, scraped[k], row, idOf);
    }
  }

  lemma OutcomeOfFound(snapshot: seq<Club>, scraped: seq<Scraped>, idOf: string -> string, i: nat, row: Club)
    requires scraped != [] && i < |snapshot| && Finds(snapshot, scraped[|scraped| - 1], i)
    requires IsOutcome(snapshot, scraped[..|scraped| - 1], idOf, i, row)
    ensures IsOutcome(snapshot, scraped, idOf, i,
                      row.(fields := row.fields + Filled(snapshot[i].fields, scraped[|scraped| - 1].fields)))
  {
    hide Finds, FieldIsRight, IsOpen, IsOffered;
    var was, s := snapshot[i].fields, scraped[|scraped| - 1].fields;
    var fields := row.fields + Filled(was, s);
    forall f ensures FieldIsRight(snapshot, scraped, i, fields, f) {
      if IsDue(was, s, f) {
        FieldIsSet(snapshot, scraped, i, fields, f);
      } else {
        SameFieldIsRight(snapshot, scraped[..|scraped| - 1], i, row.fields, fields, f);
        FieldStays(snapshot, scraped, i, fields, f);
      }
    }
  }

  lemma SameFieldIsRight(snapshot: seq<Club>, scraped: seq<Scraped>, i: nat, a: Fields, b: Fields, f: Field)
    requires i < |snapshot| && FieldIsRight(snapshot, scraped, i, a, f) && HasSame(a, b, f)
    ensures FieldIsRight(snapshot, scraped, i, b, f)
  {
    hide SetsLast, Sets;
  }

  lemma StepOutcomes(snapshot: seq<Club>, rows: seq<Club>, scraped: seq<Scraped>, idOf: string -> string)
    requires scraped != [] && UniqueIds(snapshot) && UniqueIds(rows) && OnlyFills(snapshot, rows)
    requires forall i | 0 <= i < |rows| :: IsOutcome(snapshot, scraped[..|scraped| - 1], idOf, i, rows[i])
    requires Apply(rows, DecideFor(snapshot, scraped[|scraped| - 1], idOf)).Some?
    ensures var r := Apply(rows, DecideFor(snapshot, scraped[|scraped| - 1], idOf)).value;
            forall i | 0 <= i < |r| :: IsOutcome(snapshot, scraped, idOf, i, r[i])
  {
    hide Normalize, HasNoPlaceholder, Filled, CreatedFields, IsBlank, IsOutcome;
    var s := scraped[|scraped| - 1];
    var r := Apply(rows, DecideFor(snapshot, s, idOf)).value;
    match Lookup(snapshot, Normalize(s.name)) {
      case None =>
        forall i | 0 <= i < |rows| ensures IsOutcome(snapshot, scraped, idOf, i, r[i]) {
          OutcomeStays(snapshot, scraped, idOf, i, rows[i]);
        }
        NewRowIsMade(snapshot, scraped, idOf, |rows|);
      case Some(club) =>
        hide Lookup;
        var j :| 0 <= j < |snapshot| && snapshot[j] == club;
        assert Finds(snapshot, s, j) && Kept(snapshot[j], rows[j]);
        OutcomeOfFound(snapshot, scraped, idOf, j, rows[j]);
        forall i | 0 <= i < |rows| && i != j ensures IsOutcome(snapshot, scraped, idOf, i, r[i]) && r[i] == rows[i] {
          assert if i < j then rows[i].id != rows[j].id else rows[j].id != rows[i].id;
          assert i < |snapshot|
            ==> if i < j then snapshot[i].id != snapshot[j].id else snapshot[j].id != snapshot[i].id;
          OutcomeStays(snapshot, scraped, idOf, i, rows[i]);
        }
        FilledNothing(rows[j].fields, club.fields, s.fields);
    }
  }

  lemma FilledNothing(fields: Fields, was: Fields, scraped: Fields)
    ensures Filled(was, scraped) == map[] ==> fields + Filled(was, scraped) == fields
  {
  }

  lemma NewRowIsMade(snapshot: seq<Club>, scraped: seq<Scraped>, idOf: string -> string, i: nat)
    requires scraped != [] && |snapshot| <= i && Lookup(snapshot, Normalize(scraped[|scraped| - 1].name)) == None
    ensures var s := scraped[|scraped| - 1];
            IsOutcome(snapshot, scraped, idOf, i, Club(idOf(s.name), s.name, s.shortName, CreatedFields(s.fields)))
  {
    hide Normalize, Lookup, CreatedFields;
    var s := scraped[|scraped| - 1];
    assert Makes(snapshot, s, Club(idOf(s.name), s.name, s.shortName, CreatedFields(s.fields)), idOf);
  }

  lemma OutcomeOfNone(snapshot: seq<Club>, idOf: string -> string, i: nat)
    requires i < |snapshot|
    ensures IsOutcome(snapshot, [], idOf, i, snapshot[i])
  {
    hide Sets;
  }

  /** Each field of each old row is decided by the last record that fills it, and each new row by its record. */
  lemma {:induction false} RunOutcomes(snapshot: seq<Club>, scraped: seq<Scraped>, idOf: string -> string)
    requires UniqueIds(snapshot) && Run(snapshot, scraped, idOf).Some?
    ensures var r := Run(snapshot, scraped, idOf).value;
            forall i | 0 <= i < |r| :: IsOutcome(snapshot, scraped, idOf, i, r[i])
  {
    hide Apply, DecideFor, UniqueIds, OnlyFills, IsOutcome;
    if scraped == [] {
      forall i | 0 <= i < |snapshot| ensures IsOutcome(snapshot, [], idOf, i, snapshot[i]) {
        OutcomeOfNone(snapshot, idOf, i);
      }
    } else {
      var n := |scraped| - 1;
      RunOnlyFills(snapshot, scraped[..n], idOf);
      RunOutcomes(snapshot, scraped[..n], idOf);
      StepOutcomes(snapshot, Run(snapshot, scraped[..n], idOf).value, scraped, idOf);
    }
  }

  lemma {:induction false} SomeRecordSetsLast(snapshot: seq<Club>, scraped: seq<Scraped>, k: nat, i: nat, f: Field)
    requires k < |scraped| && Sets(snapshot, scraped[k], i, f)
    ensures exists j :: SetsLast(snapshot, scraped, j, i, f)
    decreases |scraped| - k
  {
    hide Sets;
    if j :| k < j < |scraped| && Sets(snapshot, scraped[j], i, f) {
      SomeRecordSetsLast(snapshot, scraped, j, i, f);
    } else {
      assert SetsLast(snapshot, scraped, k, i, f);
    }
  }

  // ---- no two records make rows of one name

  lemma {:induction false} MadeIdIsThere(snapshot: seq<Club>, scraped: seq<Scraped>, idOf: string -> string, j: nat)
    requires Run(snapshot, scraped, idOf).Some? && j < |scraped|
    requires Lookup(snapshot, Normalize(scraped[j].name)) == None
    ensures HasId(Run(snapshot, scraped, idOf).value, idOf(scraped[j].name))
  {
    hide Normalize, Lookup, HasId, Decide;
    var n := |scraped| - 1;
    var before := Run(snapshot, scraped[..n], idOf).value;
    if j < n {
      MadeIdIsThere(snapshot, scraped[..n], idOf, j);
      IdsStay(before, DecideFor(snapshot, scraped[n], idOf), idOf(scraped[j].name));
    } else {
      NewIdIsThere(before, scraped[n], idOf);
    }
  }

  lemma IdsStay(rows: seq<Club>, decision: Decision, id: string)
    requires HasId(rows, id) && Apply(rows, decision).Some?
    ensures HasId(Apply(rows, decision).value, id)
  {
    var i :| 0 <= i < |rows| && rows[i].id == id;
    assert Apply(rows, decision).value[i].id == id;
  }

  lemma NewIdIsThere(rows: seq<Club>, s: Scraped, idOf: string -> string)
    requires Apply(rows, Decide(None, s, idOf(s.name))).Some?
    ensures HasId(Apply(rows, Decide(None, s, idOf(s.name))).value, idOf(s.name))
  {
    assert Apply(rows, Decide(None, s, idOf(s.name))).value[|rows|].id == idOf(s.name);
  }

  /** The second of two new rows of one name would have the id of the first, and end the run. */
  lemma {:induction false} MakersDiffer(snapshot: seq<Club>, scraped: seq<Scraped>, idOf: string -> string, j: nat,
                                        k: nat)
    requires Run(snapshot, scraped, idOf).Some? && j < k < |scraped|
    requires Lookup(snapshot, Normalize(scraped[j].name)) == None == Lookup(snapshot, Normalize(scraped[k].name))
    ensures scraped[j].name != scraped[k].name
  {
    hide Normalize, Lookup, HasId;
    var n := |scraped| - 1;
    if k < n {
      MakersDiffer(snapshot, scraped[..n], idOf, j, k);
    } else {
      MadeIdIsThere(snapshot, scraped[..n], idOf, j);
    }
  }

  // ---- when an officer field holds a placeholder

  /** The last record that fills the field of an old row fills it with this placeholder. */
  ghost predicate PutsLast(snapshot: seq<Club>, scraped: seq<Scraped>, k: nat, i: nat, f: Field, placeholder: string) {
    SetsLast(snapshot, scraped, k, i, f) && IsPlaceholder(scraped[k].fields, f, placeholder)
  }

  /** The record that makes this new row puts this placeholder there. */
  predicate PutsFirst(s: Scraped, name: string, f: Field, placeholder: string) {
    s.name == name && !IsGated(s.fields, f) && IsPlaceholder(s.fields, f, placeholder)
  }

  /** Some record puts this placeholder into the officer field of row `i`, which has this name. */
  ghost predicate SomePuts(snapshot: seq<Club>, scraped: seq<Scraped>, i: nat, name: string, f: Field,
                           placeholder: string)
  {
    if i < |snapshot| then exists k: nat :: PutsLast(snapshot, scraped, k, i, f, placeholder)
    else exists k | 0 <= k < |scraped| :: PutsFirst(scraped[k], name, f, placeholder)
  }

  lemma PlaceholderIsNotBlank(fields: Fields, f: Field, placeholder: string)
    requires placeholder != "" && IsPlaceholder(fields, f, placeholder)
    ensures !IsBlank(fields, f)
  {
  }

  lemma CreatedHolds(s: Fields, f: Field, placeholder: string)
    requires IsOfficer(f) && placeholder != ""
    ensures IsPlaceholder(CreatedFields(s), f, placeholder) <==> !IsGated(s, f) && IsPlaceholder(s, f, placeholder)
  {
    if IsPlaceholder(s, f, placeholder) { PlaceholderIsNotBlank(s, f, placeholder); }
    hide IsGated, IsBlank, Trim, ToLower;
  }

  lemma SetOnlyBlank(snapshot: seq<Club>, s: Scraped, i: nat, f: Field)
    requires Sets(snapshot, s, i, f) && IsOfficer(f)
    ensures i < |snapshot| && IsBlank(snapshot[i].fields, f) && !IsGated(s.fields, f) && f in s.fields
  {
    hide IsBlank, IsGated, IsOfficer;
    DueOfficer(snapshot[i].fields, s.fields, f);
  }

  lemma SameValueSamePlaceholder(a: Fields, b: Fields, f: Field, placeholder: string)
    requires HasSame(a, b, f)
    ensures IsPlaceholder(a, f, placeholder) <==> IsPlaceholder(b, f, placeholder)
  {
    hide Trim, ToLower;
  }

  lemma FieldOfLast(snapshot: seq<Club>, scraped: seq<Scraped>, i: nat, fields: Fields, f: Field, k: nat)
    requires i < |snapshot| && FieldIsRight(snapshot, scraped, i, fields, f) && SetsLast(snapshot, scraped, k, i, f)
    ensures k < |scraped| && Sets(snapshot, scraped[k], i, f)
    ensures f in scraped[k].fields && HasSame(fields, scraped[k].fields, f)
  {
    hide Finds, IsOpen, IsOffered;
  }

  lemma FieldOfNone(snapshot: seq<Club>, scraped: seq<Scraped>, i: nat, fields: Fields, f: Field)
    requires i < |snapshot| && FieldIsRight(snapshot, scraped, i, fields, f)
    requires forall k | 0 <= k < |scraped| :: !Sets(snapshot, scraped[k], i, f)
    ensures HasSame(fields, snapshot[i].fields, f)
    ensures forall k: nat :: !SetsLast(snapshot, scraped, k, i, f)
  {
    hide Sets, HasSame;
  }

  lemma OneIsLast(snapshot: seq<Club>, scraped: seq<Scraped>, i: nat, f: Field, j: nat, k: nat)
    requires SetsLast(snapshot, scraped, j, i, f) && SetsLast(snapshot, scraped, k, i, f)
    ensures j == k
  {
    hide Sets;
  }

  lemma OldRowHolds(snapshot: seq<Club>, scraped: seq<Scraped>, i: nat, fields: Fields, f: Field, placeholder: string)
    requires i < |snapshot| && FieldIsRight(snapshot, scraped, i, fields, f) && IsOfficer(f) && placeholder != ""
    ensures IsPlaceholder(fields, f, placeholder) <==>
            || IsPlaceholder(snapshot[i].fields, f, placeholder)
            || exists k: nat :: PutsLast(snapshot, scraped, k, i, f, placeholder)
  {
    hide IsPlaceholder, IsBlank, IsOfficer, IsGated, Sets, FieldIsRight, HasSame, SetsLast;
    var was := snapshot[i].fields;
    if IsPlaceholder(was, f, placeholder) { PlaceholderIsNotBlank(was, f, placeholder); }
    if k :| 0 <= k < |scraped| && Sets(snapshot, scraped[k], i, f) {
      SomeRecordSetsLast(snapshot, scraped, k, i, f);
      var last: nat :| SetsLast(snapshot, scraped, last, i, f);
      FieldOfLast(snapshot, scraped, i, fields, f, last);
      SetOnlyBlank(snapshot, scraped[last], i, f);
      SameValueSamePlaceholder(fields, scraped[last].fields, f, placeholder);
      assert IsPlaceholder(fields, f, placeholder) <==> PutsLast(snapshot, scraped, last, i, f, placeholder);
      forall j: nat | PutsLast(snapshot, scraped, j, i, f, placeholder) ensures j == last {
        OneIsLast(snapshot, scraped, i, f, j, last);
      }
    } else {
      FieldOfNone(snapshot, scraped, i, fields, f);
      SameValueSamePlaceholder(fields, was, f, placeholder);
    }
  }

  /** After a whole run an officer field holds a placeholder, of whichever role, if and only if it held it before, or
      the last record that fills it, or makes the row, puts it there. */
  lemma PlaceholderAfterRun(snapshot: seq<Club>, scraped: seq<Scraped>, idOf: string -> string, i: nat, f: Field,
                            placeholder: string)
    requires UniqueIds(snapshot) && Run(snapshot, scraped, idOf).Some?
    requires i < |Run(snapshot, scraped, idOf).value| && IsOfficer(f) && placeholder != ""
    ensures var row := Run(snapshot, scraped, idOf).value[i];
            IsPlaceholder(row.fields, f, placeholder) <==>
            || (i < |snapshot| && IsPlaceholder(snapshot[i].fields, f, placeholder))
            || SomePuts(snapshot, scraped, i, row.name, f, placeholder)
  {
    var row := Run(snapshot, scraped, idOf).value[i];
    RunOutcomes(snapshot, scraped, idOf);
    assert IsOutcome(snapshot, scraped, idOf, i, row);
    hide UniqueIds, IsOfficer, IsPlaceholder, FieldIsRight, PutsLast, PutsFirst, Run, Makes;
    if i < |snapshot| {
      OldRowHolds(snapshot, scraped, i, row.fields, f, placeholder);
    } else {
      NewRowHolds(snapshot, scraped, idOf, row, f, placeholder);
    }
  }

  lemma NewRowHolds(snapshot: seq<Club>, scraped: seq<Scraped>, idOf: string -> string, row: Club, f: Field,
                    placeholder: string)
    requires Run(snapshot, scraped, idOf).Some? && IsOfficer(f) && placeholder != ""
    requires exists k :: 0 <= k < |scraped| && Makes(snapshot, scraped[k], row, idOf)
    ensures IsPlaceholder(row.fields, f, placeholder) <==>
            exists k | 0 <= k < |scraped| :: PutsFirst(scraped[k], row.name, f, placeholder)
  {
    hide Run, IsOfficer, IsGated, IsPlaceholder, CreatedFields, Lookup, Normalize;
    var k :| 0 <= k < |scraped| && Makes(snapshot, scraped[k], row, idOf);
    CreatedHolds(scraped[k].fields, f, placeholder);
    assert IsPlaceholder(row.fields, f, placeholder) <==> PutsFirst(scraped[k], row.name, f, placeholder);
    forall j | 0 <= j < |scraped| && PutsFirst(scraped[j], row.name, f, placeholder) ensures j == k {
      if j < k { MakersDiffer(snapshot, scraped, idOf, j, k); }
      if k < j { MakersDiffer(snapshot, scraped, idOf, k, j); }
    }
  }

  /** The placeholder of the field's own role is never put there, because such a record is gated. */
  lemma OwnPlaceholderIsOld(snapshot: seq<Club>, scraped: seq<Scraped>, idOf: string -> string, i: nat, f: Field)
    requires UniqueIds(snapshot) && Run(snapshot, scraped, idOf).Some?
    requires i < |Run(snapshot, scraped, idOf).value| && f in {President, Secretary}
    ensures var own := if f == President then PLACEHOLDER_PRESIDENT else PLACEHOLDER_SECRETARY;
            IsPlaceholder(Run(snapshot, scraped, idOf).value[i].fields, f, own)
            <==> i < |snapshot| && IsPlaceholder(snapshot[i].fields, f, own)
  {
    hide Run, UniqueIds;
    var own := if f == President then PLACEHOLDER_PRESIDENT else PLACEHOLDER_SECRETARY;
    PlaceholderAfterRun(snapshot, scraped, idOf, i, f, own);
    hide IsPlaceholder, Sets, IsBlank, Lookup, Normalize;
    forall k: nat ensures !PutsLast(snapshot, scraped, k, i, f, own) {
      if SetsLast(snapshot, scraped, k, i, f) { SetOnlyBlank(snapshot, scraped[k], i, f); }
    }
  }

  // ---- the officers after a run, told without the gates above

  /** The record finds this row and offers this field. */
  ghost predicate OffersTo(snapshot: seq<Club>, s: Scraped, i: nat, f: Field) {
    Finds(snapshot, s, i) && Offers(s.fields, f)
  }

  lemma SetsIffOffersTo(snapshot: seq<Club>, s: Scraped, i: nat, f: Field)
    requires i < |snapshot| && f in {President, Phone, Email, Secretary, SecretaryEmail, SecretaryPhone}
    ensures Sets(snapshot, s, i, f) <==> SaysNothing(snapshot[i].fields, f) && OffersTo(snapshot, s, i, f)
  {
    OfficersAre(f);
    OfferedIffOffers(s.fields, f);
    hide Finds, IsOffered, Offers, IsOfficer, Trim;
  }

  /** An officer field in which the database said nothing has what the last record offers it. */
  lemma LastOfferFills(snapshot: seq<Club>, scraped: seq<Scraped>, idOf: string -> string, i: nat, f: Field, k: nat)
    requires UniqueIds(snapshot) && Run(snapshot, scraped, idOf).Some?
    requires f in {President, Phone, Email, Secretary, SecretaryEmail, SecretaryPhone}
    requires i < |snapshot| && SaysNothing(snapshot[i].fields, f)
    requires k < |scraped| && OffersTo(snapshot, scraped[k], i, f)
    requires forall j | k < j < |scraped| :: !OffersTo(snapshot, scraped[j], i, f)
    ensures |snapshot| <= |Run(snapshot, scraped, idOf).value|
    ensures f in scraped[k].fields && HasSame(Run(snapshot, scraped, idOf).value[i].fields, scraped[k].fields, f)
  {
    hide OffersTo, SaysNothing, UniqueIds;
    RunOnlyFills(snapshot, scraped, idOf);
    RunOutcomes(snapshot, scraped, idOf);
    var row := Run(snapshot, scraped, idOf).value[i];
    assert IsOutcome(snapshot, scraped, idOf, i, row);
    hide Run, Sets, FieldIsRight, HasSame;
    forall j: nat | j < |scraped| ensures Sets(snapshot, scraped[j], i, f) <==> OffersTo(snapshot, scraped[j], i, f) {
      SetsIffOffersTo(snapshot, scraped[j], i, f);
    }
    FieldOfLast(snapshot, scraped, i, row.fields, f, k);
  }

  /** In every other case the field is what it was. */
  lemma UnofferedStays(snapshot: seq<Club>, scraped: seq<Scraped>, idOf: string -> string, i: nat, f: Field)
    requires UniqueIds(snapshot) && Run(snapshot, scraped, idOf).Some?
    requires f in {President, Phone, Email, Secretary, SecretaryEmail, SecretaryPhone} && i < |snapshot|
    requires SaysNothing(snapshot[i].fields, f) ==>
               forall k | 0 <= k < |scraped| :: !OffersTo(snapshot, scraped[k], i, f)
    ensures |snapshot| <= |Run(snapshot, scraped, idOf).value|
    ensures HasSame(Run(snapshot, scraped, idOf).value[i].fields, snapshot[i].fields, f)
  {
    hide OffersTo, SaysNothing, UniqueIds;
    RunOnlyFills(snapshot, scraped, idOf);
    RunOutcomes(snapshot, scraped, idOf);
    var row := Run(snapshot, scraped, idOf).value[i];
    assert IsOutcome(snapshot, scraped, idOf, i, row);
    hide Run, Sets, FieldIsRight, HasSame;
    forall j: nat | j < |scraped| ensures !Sets(snapshot, scraped[j], i, f) {
      SetsIffOffersTo(snapshot, scraped[j], i, f);
    }
    FieldOfNone(snapshot, scraped, i, row.fields, f);
  }

  /** When every record of a row names no president, the row keeps its president, phone and email; so with the three
      fields of the secretary. */
  lemma PlaceholdersChangeNothing(snapshot: seq<Club>, scraped: seq<Scraped>, idOf: string -> string, i: nat, f: Field)
    requires UniqueIds(snapshot) && Run(snapshot, scraped, idOf).Some? && i < |snapshot|
    requires f in {President, Phone, Email} || f in {Secretary, SecretaryEmail, SecretaryPhone}
    requires forall k | 0 <= k < |scraped| && Finds(snapshot, scraped[k], i) ::
               if f in {President, Phone, Email} then NamesNoPresident(scraped[k].fields)
               else NamesNoSecretary(scraped[k].fields)
    ensures |snapshot| <= |Run(snapshot, scraped, idOf).value|
    ensures HasSame(Run(snapshot, scraped, idOf).value[i].fields, snapshot[i].fields, f)
  {
    forall k | 0 <= k < |scraped| ensures !OffersTo(snapshot, scraped[k], i, f) {
      hide NamesNoPresident, NamesNoSecretary, Finds;
    }
    hide OffersTo, Finds, Run, NamesNoPresident, NamesNoSecretary, SaysNothing, HasSame;
    UnofferedStays(snapshot, scraped, idOf, i, f);
  }

  /** A new row has in each officer field what its record offers, and nothing else. */
  lemma NewRowHasOffers(snapshot: seq<Club>, scraped: seq<Scraped>, idOf: string -> string, i: nat) returns (k: nat)
    requires UniqueIds(snapshot) && Run(snapshot, scraped, idOf).Some?
    requires |snapshot| <= i < |Run(snapshot, scraped, idOf).value|
    ensures var row := Run(snapshot, scraped, idOf).value[i];
            && k < |scraped| && scraped[k].name == row.name && row.id == idOf(row.name)
            && forall f | f in {President, Phone, Email, Secretary, SecretaryEmail, SecretaryPhone} ::
                 && (f in row.fields <==> Offers(scraped[k].fields, f))
                 && (f in row.fields ==> f in scraped[k].fields && row.fields[f] == scraped[k].fields[f])
  {
    RunOutcomes(snapshot, scraped, idOf);
    var row := Run(snapshot, scraped, idOf).value[i];
    assert IsOutcome(snapshot, scraped, idOf, i, row);
    hide Run, UniqueIds, Lookup, Normalize, IsOffered, Offers;
    k :| 0 <= k < |scraped| && Makes(snapshot, scraped[k], row, idOf);
    forall f | f in {President, Phone, Email, Secretary, SecretaryEmail, SecretaryPhone}
      ensures IsOfficer(f) && (IsOffered(scraped[k].fields, f) <==> Offers(scraped[k].fields, f))
    {
      OfficersAre(f);
      OfferedIffOffers(scraped[k].fields, f);
    }
    hide IsOfficer;
  }

  // ---- where the guarantees end

  /** Each role is only protected from its own placeholder: the secretary's, given as the president, is written. */
  lemma OtherPlaceholderIsWritten(id: string, name: string)
    ensures var s := map[President := Words("Rtr. Club Secretary")];
            Decide(Some(Club(id, name, None, map[])), Scraped(name, None, s), id) == Update(id, s)
  {
    var s: Fields := map[President := Words("Rtr. Club Secretary")];
    SecretaryAsPresident("Rtr. Club Secretary");
    hide IsBlank, IsGated, IsOfficer, HasPlaceholderPresident, IsDue, Filled;
    BlankWhenAbsent(map[], President);
    OfficersGate(s, President);
    DueOfficer(map[], s, President);
    SingleFilled(President, s[President]);
  }

  lemma OfficersGate(s: Fields, f: Field)
    ensures IsOfficer(President) && IsOfficer(Phone)
    ensures f in {President, Phone} ==> (IsGated(s, f) <==> HasPlaceholderPresident(s))
  {
  }

  lemma SingleFilled(f: Field, v: Value)
    requires IsDue(map[], map[f := v], f)
    ensures Filled(map[], map[f := v]) == map[f := v]
  {
    hide IsOpen, IsOffered;
  }

  lemma SecretaryAsPresident(text: string)
    requires text == "Rtr. Club Secretary"
    ensures !HasPlaceholderPresident(map[President := Words(text)])
            && !IsBlank(map[President := Words(text)], President)
  {
    hide Trim;
    assert IsTrimmed(text) && Trim(text) == text;
    assert ToLower(text)[10] == 's';
  }

  /** Two rows of one normalised name: the import fills the one that is read last, so a second run that reads
      them in the other order writes again. */
  lemma DuplicateNamesNeedTheOrder(a: string, b: string, name: string, idOf: string -> string)
    requires a != b
    ensures var rowA, rowB := Club(a, name, None, map[]), Club(b, name, None, map[]);
            var s := Scraped(name, None, map[Phone := Words("1")]);
            && Run([rowA, rowB], [s], idOf) == Some([rowA, rowB.(fields := s.fields)])
            && Counted([rowB.(fields := s.fields), rowA], [s], idOf) == Tally(0, 1, 0)
  {
    var rowA, rowB := Club(a, name, None, map[]), Club(b, name, None, map[]);
    var s := Scraped(name, None, map[Phone := Words("1")]);
    var full := rowB.(fields := s.fields);
    PhoneIsFilled();
    hide Filled, Normalize;
    assert Lookup([rowA, rowB], Normalize(name)) == Some(rowB);
    assert s.fields != map[] by { assert Phone in s.fields; }
    assert DecideFor([rowA, rowB], s, idOf) == Update(b, s.fields);
    assert DecideFor([full, rowA], s, idOf) == Update(a, s.fields);
    assert map[] + s.fields == s.fields;
    assert SetFields([rowA, rowB], b, s.fields) == [rowA, full];
    assert [s][..0] == [];
  }

  lemma PhoneIsFilled()
    ensures Filled(map[], map[Phone := Words("1")]) == map[Phone := Words("1")]
  {
    var s: Fields := map[Phone := Words("1")];
    BlankWhenAbsent(map[], Phone);
    OfficersGate(s, Phone);
    DueOfficer(map[], s, Phone);
    assert IsTrimmed("1");
    SingleFilled(Phone, s[Phone]);
  }

  // ---- what the counters count

  ghost function NewOnes(snapshot: seq<Club>, scraped: seq<Scraped>): set<nat> {
    set k: nat | k < |scraped| && Lookup(snapshot, Normalize(scraped[k].name)) == None
  }

  ghost function CompleteOnes(snapshot: seq<Club>, scraped: seq<Scraped>): set<nat> {
    set k: nat | k < |scraped| && IsComplete(Lookup(snapshot, Normalize(scraped[k].name)), scraped[k])
  }

  ghost predicate IsComplete(found: Option<Club>, s: Scraped) {
    found.Some? && forall f: Field :: !IsDue(found.value.fields, s.fields, f)
  }

  lemma CompleteIsNoop(found: Option<Club>, s: Scraped, id: string)
    ensures Decide(found, s, id).Create? <==> found == None
    ensures Decide(found, s, id).Noop? <==> IsComplete(found, s)
  {
    hide IsDue;
    if found.Some? {
      var values := Filled(found.value.fields, s.fields);
      DueIsOffered(found.value.fields, s.fields);
      assert forall f: Field :: f in values <==> IsDue(found.value.fields, s.fields, f);
      if values != map[] {
        var f :| f in values;
        assert IsDue(found.value.fields, s.fields, f);
      }
    }
  }

  lemma DueIsOffered(fields: Fields, s: Fields)
    ensures forall f: Field :: IsDue(fields, s, f) ==> f in s
  {
    hide IsOpen, IsOffered;
  }

  /** The records without a row, those with a complete row, and the others; and so many rows come in. */
  lemma {:induction false} CountedIs(snapshot: seq<Club>, scraped: seq<Scraped>, idOf: string -> string)
    ensures var t := Counted(snapshot, scraped, idOf);
            && t.created == |NewOnes(snapshot, scraped)| && t.noop == |CompleteOnes(snapshot, scraped)|
            && t.created + t.updated + t.noop == |scraped|
            && var r := Run(snapshot, scraped, idOf);
               r.Some? ==> |r.value| == |snapshot| + t.created
  {
    hide Lookup, Normalize, IsComplete, Decide;
    if scraped == [] {
      assert NewOnes(snapshot, []) == {} && CompleteOnes(snapshot, []) == {};
    } else {
      var n := |scraped| - 1;
      var found := Lookup(snapshot, Normalize(scraped[n].name));
      CountedIs(snapshot, scraped[..n], idOf);
      CompleteIsNoop(found, scraped[n], idOf(scraped[n].name));
      assert found == None ==> !IsComplete(found, scraped[n]) by { NothingIsNotComplete(scraped[n]); }
      OnesOneMore(snapshot, scraped);
    }
  }

  lemma NothingIsNotComplete(s: Scraped)
    ensures !IsComplete(None, s)
  {
  }

  lemma OnesOneMore(snapshot: seq<Club>, scraped: seq<Scraped>)
    requires scraped != []
    ensures var n := |scraped| - 1;
            var found := Lookup(snapshot, Normalize(scraped[n].name));
            && |NewOnes(snapshot, scraped)| == |NewOnes(snapshot, scraped[..n])| + (if found == None then 1 else 0)
            && |CompleteOnes(snapshot, scraped)|
               == |CompleteOnes(snapshot, scraped[..n])| + (if IsComplete(found, scraped[n]) then 1 else 0)
  {
    hide Lookup, Normalize, IsComplete;
    var n: nat := |scraped| - 1;
    var found := Lookup(snapshot, Normalize(scraped[n].name));
    var a, b := NewOnes(snapshot, scraped[..n]), CompleteOnes(snapshot, scraped[..n]);
    assert n !in a && n !in b && forall k: nat | k < n :: scraped[..n][k] == scraped[k];
    OneMoreOne(a, n, NewOnes(snapshot, scraped), found == None);
    OneMoreOne(b, n, CompleteOnes(snapshot, scraped), IsComplete(found, scraped[n]));
  }

  lemma OneMoreOne(a: set<nat>, n: nat, b: set<nat>, isIn: bool)
    requires n !in a && (n in b <==> isIn) && forall k | k != n :: k in b <==> k in a
    ensures |b| == |a| + if isIn then 1 else 0
  {
    assert b == a + if isIn then {n} else {};
  }
}
