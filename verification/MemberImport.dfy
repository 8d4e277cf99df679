/** `preview` and `commit` of `src/members/members-imports.service.ts`. */
module MemberImport {
  import opened Text
  import opened Csv
  import opened Sets

  datatype RowInput = RowInput(fullName: string, email: string, phone: string, rotaryId: string)

  /** The first of the columns that is there and not empty. */
  function Pick(row: CsvRow, keys: seq<string>): string {
    if keys == [] then ""
    else if keys[0] in row && row[keys[0]] != "" then row[keys[0]]
    else Pick(row, keys[1..])
  }

  function ToRowInput(row: CsvRow): RowInput {
    RowInput(Pick(row, ["fullname", "full name", "name"]), Pick(row, ["email", "e-mail"]),
             Pick(row, ["phone", "phone number", "mobile"]), Pick(row, ["rotaryid", "rotary id"]))
  }

  predicate IsFilled(row: CsvRow, key: string) {
    key in row && row[key] != ""
  }

  /** The first of these columns that is filled says this, or none is filled and it is empty. */
  ghost predicate IsFirstFilled(row: CsvRow, keys: seq<string>, v: string) {
    || (v == "" && forall j | 0 <= j < |keys| :: !IsFilled(row, keys[j]))
    || exists i :: 0 <= i < |keys| && IsFilled(row, keys[i]) && v == row[keys[i]]
                     && forall j | 0 <= j < i :: !IsFilled(row, keys[j])
  }

  lemma {:induction false} PickIsFirstFilled(row: CsvRow, keys: seq<string>)
    ensures IsFirstFilled(row, keys, Pick(row, keys))
  {
    if keys == [] || IsFilled(row, keys[0]) {
      assert keys != [] ==> Pick(row, keys) == row[keys[0]];
    } else {
      var rest, v := keys[1..], Pick(row, keys);
      PickIsFirstFilled(row, rest);
      if i :| 0 <= i < |rest| && IsFilled(row, rest[i]) && v == row[rest[i]]
              && forall j | 0 <= j < i :: !IsFilled(row, rest[j]) {
        assert rest[i] == keys[i + 1] && forall j | 0 < j < i + 1 :: keys[j] == rest[j - 1];
      } else {
        assert forall j | 0 < j < |keys| :: keys[j] == rest[j - 1];
      }
    }
  }

  /** Which columns of a record the import reads, and which of them first. */
  lemma RowInputColumns(row: CsvRow)
    ensures IsFirstFilled(row, ["fullname", "full name", "name"], ToRowInput(row).fullName)
    ensures IsFirstFilled(row, ["email", "e-mail"], ToRowInput(row).email)
    ensures IsFirstFilled(row, ["phone", "phone number", "mobile"], ToRowInput(row).phone)
    ensures IsFirstFilled(row, ["rotaryid", "rotary id"], ToRowInput(row).rotaryId)
  {
    PickIsFirstFilled(row, ["fullname", "full name", "name"]);
    PickIsFirstFilled(row, ["email", "e-mail"]);
    PickIsFirstFilled(row, ["phone", "phone number", "mobile"]);
    PickIsFirstFilled(row, ["rotaryid", "rotary id"]);
    hide IsFirstFilled, Pick;
  }

  function Inputs(rows: seq<CsvRow>): (r: seq<RowInput>)
    ensures |r| == |rows| && forall i | 0 <= i < |rows| :: r[i] == ToRowInput(rows[i])
  {
    seq(|rows|, i requires 0 <= i < |rows| => ToRowInput(rows[i]))
  }

  /** `emailSchema` trims, lower-cases and then matches; the pattern itself is left open. */
  predicate IsEmail(pattern: string -> bool, email: string) {
    pattern(ToLower(Trim(email)))
  }

  datatype Outcome = New | Duplicate | Invalid

  datatype PreviewRow = PreviewRow(lineNumber: nat, input: RowInput, email: string, outcome: Outcome)

  predicate IsComplete(pattern: string -> bool, input: RowInput) {
    input.fullName != "" && IsEmail(pattern, input.email)
  }

  function NewEmails(rows: seq<PreviewRow>): seq<string> {
    if rows == [] then []
    else
      var n := |rows| - 1;
      NewEmails(rows[..n]) + if rows[n].outcome == New then [rows[n].email] else []
  }

  /** How `commit` ends: it finishes, or stops at the first row whose creation fails; `created` are the emails of
      the members created until then. */
  datatype Commitment = Commitment(finished: bool, created: seq<string>)

  /** `createMember` makes a user and a profile in one transaction, and user emails are unique: the loop skips
      emails of members, but fails at an email that belongs to a user who is no member. */
  function Committed(members: set<string>, users: set<string>, emails: seq<string>): (r: Commitment)
    ensures |r.created| <= |emails|
  {
    if emails == [] then Commitment(true, [])
    else
      var email := emails[|emails| - 1];
      var before := Committed(members, users, emails[..|emails| - 1]);
      if !before.finished || email in members || email in before.created then before
      else if email in users then Commitment(false, before.created)
      else Commitment(true, before.created + [email])
  }

  predicate HasEarlier(inputs: seq<RowInput>, i: nat, email: string)
    requires i <= |inputs|
  {
    exists j | 0 <= j < i :: ToLower(inputs[j].email) == email
  }

  /** The outcome of row `i`: it is new when it is complete, nobody has its email, and no earlier row of the
      file, complete or not, has it either. */
  ghost predicate IsPreviewRow(row: PreviewRow, inputs: seq<RowInput>, i: nat, members: set<string>,
                               pattern: string -> bool)
    requires i < |inputs|
  {
    var email := ToLower(inputs[i].email);
    && row.lineNumber == i + 2 && row.input == inputs[i] && row.email == email
    && row.outcome ==
       if !IsComplete(pattern, inputs[i]) then Invalid
       else if email in members || HasEarlier(inputs, i, email) then Duplicate
       else New
  }

  ghost predicate IsPreviewOf(rows: seq<PreviewRow>, inputs: seq<RowInput>, members: set<string>,
                              pattern: string -> bool)
  {
    |rows| == |inputs| && forall i | 0 <= i < |inputs| :: IsPreviewRow(rows[i], inputs, i, members, pattern)
  }

  /** What the preview says of a row, told from the row and the table. */
  lemma OutcomeOfRow(row: PreviewRow, inputs: seq<RowInput>, i: nat, members: set<string>, pattern: string -> bool)
    requires i < |inputs| && IsPreviewRow(row, inputs, i, members, pattern)
    ensures var email := ToLower(inputs[i].email);
            var complete := inputs[i].fullName != "" && pattern(ToLower(Trim(inputs[i].email)));
            var free := email !in members && forall j | 0 <= j < i :: ToLower(inputs[j].email) != email;
            && row.lineNumber == i + 2 && row.input == inputs[i] && row.email == email
            && (row.outcome == Invalid <==> !complete)
            && (row.outcome == New <==> complete && free)
            && (row.outcome == Duplicate <==> complete && !free)
  {
    hide ToLower, Trim;
  }

  // ---- the cells that the parser yields are trimmed, so both ways of normalising an email agree

  ghost predicate ValuesAreTrimmed(row: CsvRow) {
    forall k | k in row :: IsTrimmed(row[k])
  }

  lemma {:induction false} RecordIsTrimmed(headers: seq<string>, cells: seq<string>)
    requires forall i | 0 <= i < |cells| :: IsTrimmed(cells[i])
    ensures ValuesAreTrimmed(Record(headers, cells))
  {
    if headers != [] { RecordIsTrimmed(headers[..|headers| - 1], cells); }
  }

  lemma {:induction false} PickIsTrimmed(row: CsvRow, keys: seq<string>)
    requires ValuesAreTrimmed(row)
    ensures IsTrimmed(Pick(row, keys))
  {
    if keys != [] { PickIsTrimmed(row, keys[1..]); }
  }

  lemma InputsAreTrimmed(csv: string)
    ensures forall i | 0 <= i < |Inputs(Parsed(csv))| :: IsTrimmed(Inputs(Parsed(csv))[i].email)
  {
    hide SplitLines, NonBlank, Scan, Trim, IsTrimmed, Record, Pick;
    var rows := Parsed(csv);
    var lines := NonBlank(SplitLines(csv));
    forall i | 0 <= i < |rows| ensures IsTrimmed(Inputs(rows)[i].email) {
      RecordIsTrimmed(Lowered(LineCells(lines[0])), LineCells(lines[1..][i]));
      PickIsTrimmed(rows[i], ["email", "e-mail"]);
    }
  }

  lemma LoweredEmail(pattern: string -> bool, email: string)
    requires IsTrimmed(email)
    ensures Trim(email) == email && ToLower(ToLower(email)) == ToLower(email)
    ensures IsEmail(pattern, ToLower(email)) == IsEmail(pattern, email)
  {
    hide Trim, IsTrimmed, ToLower;
    LowerTwice(email);
    LowerIsTrimmed(email);
    assert Trim(email) == email;
    assert Trim(ToLower(email)) == ToLower(email);
  }

  lemma IsPreviewRowIntro(row: PreviewRow, inputs: seq<RowInput>, i: nat, members: set<string>, pattern: string -> bool)
    requires i < |inputs| && row.lineNumber == i + 2 && row.input == inputs[i] && row.email == ToLower(inputs[i].email)
    requires row.outcome == if !IsComplete(pattern, inputs[i]) then Invalid
                            else if row.email in members || HasEarlier(inputs, i, row.email) then Duplicate else New
    ensures IsPreviewRow(row, inputs, i, members, pattern)
  {
  }

  function ElementsOf(emails: seq<string>): set<string> {
    set e | e in emails
  }

  /** New members: distinct emails of the rows that no member and no user had. */
  ghost predicate AreCreations(created: seq<string>, members: set<string>, users: set<string>, emails: seq<string>) {
    NoDuplicates(created) && forall i | 0 <= i < |created| ::
      created[i] !in members && created[i] !in users && created[i] in emails
  }

  /** What a commitment means: new members only; when it finishes, every row has its member, and otherwise some row
      has the email of a user who is no member. */
  ghost predicate IsCommitment(r: Commitment, members: set<string>, users: set<string>, emails: seq<string>) {
    && AreCreations(r.created, members, users, emails)
    && if r.finished then forall i | 0 <= i < |emails| :: emails[i] in members || emails[i] in r.created
       else exists i :: 0 <= i < |emails| && emails[i] in users && emails[i] !in members && emails[i] !in r.created
  }

  lemma {:induction false} CommittedIsCommitment(members: set<string>, users: set<string>, emails: seq<string>)
    ensures IsCommitment(Committed(members, users, emails), members, users, emails)
  {
    if emails != [] {
      var n := |emails| - 1;
      CommittedIsCommitment(members, users, emails[..n]);
      assert emails == emails[..n] + [emails[n]];
    }
  }

  lemma CommittedOneMore(members: set<string>, users: set<string>, emails: seq<string>, i: nat)
    requires i < |emails| && Committed(members, users, emails[..i]).finished
    ensures var before := Committed(members, users, emails[..i]);
            Committed(members, users, emails[..i + 1]) ==
            if emails[i] in members || emails[i] in before.created then before
            else if emails[i] in users then Commitment(false, before.created)
            else Commitment(true, before.created + [emails[i]])
  {
    assert emails[..i + 1][..i] == emails[..i] && emails[..i + 1][i] == emails[i];
  }

  lemma {:induction false} FailureIsFinal(members: set<string>, users: set<string>, emails: seq<string>, i: nat)
    requires i < |emails| && !Committed(members, users, emails[..i + 1]).finished
    ensures Committed(members, users, emails) == Committed(members, users, emails[..i + 1])
  {
    if |emails| == i + 1 {
      assert emails[..i + 1] == emails;
    } else {
      assert emails[..|emails| - 1][..i + 1] == emails[..i + 1];
      FailureIsFinal(members, users, emails[..|emails| - 1], i);
    }
  }

  lemma NoneEarlier(inputs: seq<RowInput>)
    ensures forall e :: !HasEarlier(inputs, 0, e)
  {
  }

  lemma OneMoreEarlier(inputs: seq<RowInput>, i: nat)
    requires i < |inputs|
    ensures forall e :: HasEarlier(inputs, i + 1, e) <==> HasEarlier(inputs, i, e) || e == ToLower(inputs[i].email)
  {
    hide ToLower;
    forall e ensures HasEarlier(inputs, i + 1, e) <==> HasEarlier(inputs, i, e) || e == ToLower(inputs[i].email) {
      if j :| 0 <= j < i && ToLower(inputs[j].email) == e { assert j < i + 1; }
      if e == ToLower(inputs[i].email) { assert 0 <= i < i + 1; }
    }
  }

  class MembersImports {
    /** The emails of the profiles and those of the users; both columns are unique. A user may have no profile. */
    var members: set<string>
    var users: set<string>

    /** `email in (...)` on lower-cased emails, and the answers lower-cased again. */
    method FindExistingEmails(emails: seq<string>) returns (found: set<string>)
      ensures forall e :: e in found <==> e in members && exists i :: 0 <= i < |emails| && ToLower(emails[i]) == e
    {
      var asked := set i | 0 <= i < |emails| :: ToLower(emails[i]);
      found := set e | e in members && e in asked :: ToLower(e);
      forall e | e in members && e in asked ensures ToLower(e) == e {
        var i :| 0 <= i < |emails| && ToLower(emails[i]) == e;
        LowerTwice(emails[i]);
      }
    }

    /** The valid emails of the file, lower-cased. */
    method ValidEmails(inputs: seq<RowInput>, pattern: string -> bool) returns (emails: seq<string>)
      requires forall i | 0 <= i < |inputs| :: IsTrimmed(inputs[i].email)
      ensures forall k | 0 <= k < |emails| :: ToLower(emails[k]) == emails[k]
      ensures forall j | 0 <= j < |inputs| && IsEmail(pattern, inputs[j].email) :: ToLower(inputs[j].email) in emails
    {
      hide IsEmail, IsTrimmed;
      emails := [];
      for i := 0 to |inputs|
        invariant forall k | 0 <= k < |emails| :: ToLower(emails[k]) == emails[k]
        invariant forall j | 0 <= j < i && IsEmail(pattern, inputs[j].email) :: ToLower(inputs[j].email) in emails
      {
        var email := ToLower(inputs[i].email);
        LoweredEmail(pattern, inputs[i].email);
        if IsEmail(pattern, email) { emails := emails + [email]; }
      }
    }

    method Preview(csv: string, pattern: string -> bool) returns (rows: seq<PreviewRow>)
      ensures IsPreviewOf(rows, Inputs(Parsed(csv)), members, pattern)
    {
      hide Parsed, Inputs, IsEmail, IsTrimmed, IsPreviewRow, Trim, HasEarlier, ToLower;
      var parsed := ParseCsv(csv);
      var inputs := Inputs(parsed);
      InputsAreTrimmed(csv);
      var emails := ValidEmails(inputs, pattern);
      var existing := FindExistingEmails(emails);
      var seenInFile: set<string> := {};
      rows := [];
      NoneEarlier(inputs);
      for i := 0 to |inputs|
        invariant |rows| == i
        invariant forall e :: e in seenInFile <==> HasEarlier(inputs, i, e)
        invariant forall j | 0 <= j < i :: IsPreviewRow(rows[j], inputs, j, members, pattern)
      {
        var input := inputs[i];
        LoweredEmail(pattern, input.email);
        var valid := IsEmail(pattern, input.email);
        var email := if valid then ToLower(Trim(input.email)) else ToLower(input.email);
        var outcome := New;
        if input.fullName == "" || !valid {
          outcome := Invalid;
        } else if email in existing || email in seenInFile {
          outcome := Duplicate;
        }
        assert valid ==> (email in existing <==> email in members);
        var row := PreviewRow(i + 2, input, email, outcome);
        IsPreviewRowIntro(row, inputs, i, members, pattern);
        OneMoreEarlier(inputs, i);
        rows := rows + [row];
        seenInFile := seenInFile + {email};
      }
    }

    /** Both rows of a member, or neither: the unique user email is enforced. */
    method CreateMember(email: string) returns (ok: bool)
      modifies this
      ensures ok <==> email !in old(users)
      ensures members == old(members) + (if ok then {email} else {})
      ensures users == old(users) + (if ok then {email} else {})
    {
      ok := email !in users;
      if ok { members, users := members + {email}, users + {email}; }
    }

    /** `committed` are the emails of the members created, also when the call fails. */
    method Commit(emails: seq<string>) returns (finished: bool, committed: seq<string>, skipped: nat)
      modifies this
      ensures Commitment(finished, committed) == Committed(old(members), old(users), Lowered(emails))
      ensures members == old(members) + ElementsOf(committed) && users == old(users) + ElementsOf(committed)
      ensures IsCommitment(Commitment(finished, committed), old(members), old(users), Lowered(emails))
      ensures finished ==> |committed| + skipped == |emails|
    {
      hide ToLower, IsCommitment, Committed;
      ghost var members0, users0 := members, users;
      var existing := FindExistingEmails(emails);
      var lowered := Lowered(emails);
      ghost var found := existing;
      finished, committed, skipped := true, [], 0;
      CommittedIsCommitment(members, users, lowered);
      NothingCommitted(members, users, lowered);
      for i := 0 to |emails|
        invariant |committed| + skipped == i && finished
        invariant Commitment(true, committed) == Committed(members0, users0, lowered[..i])
        invariant existing == found + ElementsOf(committed)
        invariant members == members0 + ElementsOf(committed) && users == users0 + ElementsOf(committed)
      {
        var email := ToLower(emails[i]);
        assert email in found <==> email in members0;
        CommittedOneMore(members0, users0, lowered, i);
        if email in existing {
          skipped := skipped + 1;
        } else {
          existing := existing + {email};
          var ok := CreateMember(email);
          if !ok {
            finished := false;
            FailureIsFinal(members0, users0, lowered, i);
            return;
          }
          committed := committed + [email];
        }
      }
      assert lowered[..|emails|] == lowered;
    }
  }

  lemma NothingCommitted(members: set<string>, users: set<string>, emails: seq<string>)
    ensures Committed(members, users, emails[..0]) == Commitment(true, [])
  {
  }

  // ---- preview and commit agree

  lemma {:induction false} NoneIsCreated(members: set<string>, users: set<string>, emails: seq<string>)
    requires forall i | 0 <= i < |emails| :: emails[i] in members
    ensures Committed(members, users, emails) == Commitment(true, [])
  {
    if emails != [] { NoneIsCreated(members, users, emails[..|emails| - 1]); }
  }

  /** Distinct emails of no members are created one after the other up to the first that belongs to a user. */
  lemma {:induction false} CreatedUpToUser(members: set<string>, users: set<string>, emails: seq<string>)
    requires NoDuplicates(emails) && forall i | 0 <= i < |emails| :: emails[i] !in members
    ensures var r := Committed(members, users, emails);
            && (r.finished <==> forall i | 0 <= i < |emails| :: emails[i] !in users)
            && (r.finished ==> r.created == emails)
            && (!r.finished ==> r.created < emails && emails[|r.created|] in users)
  {
    if emails != [] {
      var n := |emails| - 1;
      CreatedUpToUser(members, users, emails[..n]);
      assert emails == emails[..n] + [emails[n]];
    }
  }

  ghost predicate IsNewEmail(email: string, inputs: seq<RowInput>, members: set<string>) {
    email !in members && HasEarlier(inputs, |inputs|, email) && ToLower(email) == email
  }

  /** The emails previewed as new are pairwise distinct, nobody's yet, in the file, and in normal form. */
  lemma {:induction false} NewEmailsAreNew(rows: seq<PreviewRow>, inputs: seq<RowInput>, members: set<string>,
                                           pattern: string -> bool)
    requires IsPreviewOf(rows, inputs, members, pattern)
    ensures NoDuplicates(NewEmails(rows))
    ensures forall i | 0 <= i < |NewEmails(rows)| :: IsNewEmail(NewEmails(rows)[i], inputs, members)
  {
    if rows != [] {
      hide IsPreviewRow, IsNewEmail, HasEarlier, NoDuplicates;
      var n := |rows| - 1;
      var before := NewEmails(rows[..n]);
      PrefixIsPreview(rows, inputs, members, pattern);
      NewEmailsAreNew(rows[..n], inputs[..n], members, pattern);
      forall i | 0 <= i < |before| ensures IsNewEmail(before[i], inputs, members) && HasEarlier(inputs, n, before[i]) {
        NewEmailStaysNew(before[i], inputs, members);
      }
      NewRowIsNew(rows[n], inputs, n, members, pattern);
      if rows[n].outcome == New { DistinctExtends(before, rows[n].email); }
    }
  }

  lemma DistinctExtends(emails: seq<string>, email: string)
    requires NoDuplicates(emails) && forall i | 0 <= i < |emails| :: emails[i] != email
    ensures NoDuplicates(emails + [email])
  {
  }

  lemma NewEmailStaysNew(email: string, inputs: seq<RowInput>, members: set<string>)
    requires inputs != [] && IsNewEmail(email, inputs[..|inputs| - 1], members)
    ensures IsNewEmail(email, inputs, members) && HasEarlier(inputs, |inputs| - 1, email)
  {
    hide ToLower, HasEarlier;
    var n := |inputs| - 1;
    EarlierInPrefix(inputs, n, n, email);
  }

  lemma NewRowIsNew(row: PreviewRow, inputs: seq<RowInput>, n: nat, members: set<string>, pattern: string -> bool)
    requires n < |inputs| && IsPreviewRow(row, inputs, n, members, pattern)
    requires n + 1 == |inputs|
    ensures row.outcome == New ==> IsNewEmail(row.email, inputs, members) && !HasEarlier(inputs, n, row.email)
  {
    hide IsComplete, ToLower;
    LowerTwice(inputs[n].email);
  }

  lemma PrefixIsPreview(rows: seq<PreviewRow>, inputs: seq<RowInput>, members: set<string>, pattern: string -> bool)
    requires IsPreviewOf(rows, inputs, members, pattern) && rows != []
    ensures IsPreviewOf(rows[..|rows| - 1], inputs[..|rows| - 1], members, pattern)
  {
    hide IsComplete, ToLower;
    var n := |rows| - 1;
    forall i | 0 <= i < n ensures IsPreviewRow(rows[i], inputs[..n], i, members, pattern) {
      assert IsPreviewRow(rows[i], inputs, i, members, pattern);
      EarlierInPrefix(inputs, n, i, rows[i].email);
    }
  }

  lemma EarlierInPrefix(inputs: seq<RowInput>, n: nat, i: nat, email: string)
    requires i <= n <= |inputs|
    ensures HasEarlier(inputs[..n], i, email) == HasEarlier(inputs, i, email)
    ensures HasEarlier(inputs, i, email) && i < |inputs| ==> HasEarlier(inputs, i + 1, email)
  {
    hide ToLower;
  }

  /** Committing exactly the rows previewed as new, on unchanged tables: it finishes, and then has created all of
      them, if and only if none of their emails belongs to a user; otherwise it stops at the first that does. If
      it finished, doing it again adds nothing. */
  lemma PreviewAgreesWithCommit(rows: seq<PreviewRow>, inputs: seq<RowInput>, members: set<string>, users: set<string>,
                                pattern: string -> bool)
    requires IsPreviewOf(rows, inputs, members, pattern)
    ensures var emails := NewEmails(rows);
            var r := Committed(members, users, Lowered(emails));
            && (r.finished <==> forall i | 0 <= i < |emails| :: emails[i] !in users)
            && (r.finished ==> r.created == emails)
            && (!r.finished ==> r.created < emails && emails[|r.created|] in users)
            && (r.finished ==>
                  Committed(members + ElementsOf(emails), users + ElementsOf(emails), Lowered(emails))
                  == Commitment(true, []))
  {
    var emails := NewEmails(rows);
    NewEmailsAreNew(rows, inputs, members, pattern);
    assert Lowered(emails) == emails
      by { assert forall i | 0 <= i < |emails| :: IsNewEmail(emails[i], inputs, members); }
    CreatedUpToUser(members, users, emails);
    NoneIsCreated(members + ElementsOf(emails), users + ElementsOf(emails), emails);
  }

  /** It does fail: two complete rows, and the second email belongs to a user without a profile. Preview calls
      both new, and commit stops half way with the first member created. */
  lemma UserWithoutProfileStopsCommit(a: RowInput, b: RowInput, rows: seq<PreviewRow>, pattern: string -> bool)
    requires IsComplete(pattern, a) && IsComplete(pattern, b) && ToLower(a.email) != ToLower(b.email)
    requires IsPreviewOf(rows, [a, b], {}, pattern)
    ensures NewEmails(rows) == [ToLower(a.email), ToLower(b.email)]
    ensures Committed({}, {ToLower(b.email)}, NewEmails(rows)) == Commitment(false, [ToLower(a.email)])
  {
    hide ToLower, IsComplete;
    assert IsPreviewRow(rows[0], [a, b], 0, {}, pattern) && IsPreviewRow(rows[1], [a, b], 1, {}, pattern);
    assert rows[..1] == [rows[0]] && [rows[0]][..0] == [];
    assert NewEmails([rows[0]]) == [ToLower(a.email)];
    var emails := NewEmails(rows);
    assert emails[..1] == [ToLower(a.email)] && emails[..1][..0] == [];
    assert Committed({}, {ToLower(b.email)}, emails[..1]) == Commitment(true, [ToLower(a.email)]);
  }

  /** Not the other way round: a complete row whose email nobody has is still called a duplicate exactly when
      an earlier row of the file has that email, even if that row is itself invalid and will not be imported. */
  lemma DuplicateOfAnyEarlierRow(rows: seq<PreviewRow>, inputs: seq<RowInput>, members: set<string>, users: set<string>,
                                 pattern: string -> bool, i: nat)
    requires IsPreviewOf(rows, inputs, members, pattern) && i < |inputs|
    requires IsComplete(pattern, inputs[i]) && ToLower(inputs[i].email) !in members + users
    ensures rows[i].outcome == Duplicate <==> HasEarlier(inputs, i, ToLower(inputs[i].email))
    ensures Committed(members, users, [ToLower(inputs[i].email)]) == Commitment(true, [ToLower(inputs[i].email)])
  {
    assert IsPreviewRow(rows[i], inputs, i, members, pattern);
  }
}
