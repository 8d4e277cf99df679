/** The legacy club import: `mergeClubFields` of `src/legacy-import/club-mapper.ts` and `importClubs` of
    `scripts/import-legacy-district-data.ts`. A null column is a field that is absent from the map. */
module ClubImport {
  import opened Text

  datatype Field = Zone | Lat | RotaryId | Lng | President | Phone | Email | Secretary | SecretaryEmail | SecretaryPhone

  datatype Value = Words(text: string) | Number(number: real)

  type Fields = map<Field, Value>

  datatype Club = Club(id: string, name: string, shortName: Option<string>, fields: Fields)

  datatype Scraped = Scraped(name: string, shortName: Option<string>, fields: Fields)

  datatype Decision = Create(club: Club) | Update(id: string, values: Fields) | Noop

  const OFFICER_FIELDS := [President, Phone, Email, Secretary, SecretaryEmail, SecretaryPhone]

  const META_FIELDS := [Zone, Lat, RotaryId]

  const PLACEHOLDER_PRESIDENT := "rtr. club president"

  const PLACEHOLDER_SECRETARY := "rtr. club secretary"

  predicate IsOfficer(f: Field) {
    f in OFFICER_FIELDS
  }

  predicate IsBlank(fields: Fields, f: Field) {
    f !in fields || (fields[f].Words? && Trim(fields[f].text) == "")
  }

  predicate IsEmpty(fields: Fields, f: Field) {
    f !in fields || fields[f] == Words("")
  }

  function Normalize(name: string): string {
    ToLower(Trim(name))
  }

  predicate IsPlaceholder(fields: Fields, f: Field, placeholder: string) {
    f in fields && fields[f].Words? && ToLower(Trim(fields[f].text)) == placeholder
  }

  predicate HasPlaceholderPresident(fields: Fields) {
    IsPlaceholder(fields, President, PLACEHOLDER_PRESIDENT)
  }

  predicate HasPlaceholderSecretary(fields: Fields) {
    IsPlaceholder(fields, Secretary, PLACEHOLDER_SECRETARY)
  }

  /** The officer the field belongs to is a placeholder in the source. */
  predicate IsGated(fields: Fields, f: Field) {
    if f in {President, Phone, Email} then HasPlaceholderPresident(fields) else HasPlaceholderSecretary(fields)
  }

  // ---- what a merge is meant to do, field by field

  /** The database has nothing to lose in this field. */
  predicate IsOpen(fields: Fields, f: Field) {
    if IsOfficer(f) then IsBlank(fields, f) else if f == Lng then f !in fields else IsEmpty(fields, f)
  }

  /** The source has something to offer for this field. */
  predicate IsOffered(scraped: Fields, f: Field) {
    if IsOfficer(f) then !IsGated(scraped, f) && !IsBlank(scraped, f)
    else if f == Lng then f in scraped
    else !IsEmpty(scraped, f)
  }

  predicate IsDue(fields: Fields, scraped: Fields, f: Field) {
    f in scraped && IsOpen(fields, f) && IsOffered(scraped, f)
  }

  function Filled(fields: Fields, scraped: Fields): (r: Fields) {
    map f | IsDue(fields, scraped, f) :: scraped[f]
  }

  function CreatedFields(scraped: Fields): Fields {
    map f | f in scraped && (IsOfficer(f) ==> IsOffered(scraped, f)) :: scraped[f]
  }

  function Decide(existing: Option<Club>, scraped: Scraped, id: string): Decision {
    match existing
    case None => Create(Club(id, scraped.name, scraped.shortName, CreatedFields(scraped.fields)))
    case Some(club) =>
      var values := Filled(club.fields, scraped.fields);
      if values == map[] then Noop else Update(club.id, values)
  }

  // ---- the merge as it is written

  /** `Object.fromEntries`. */
  function FromEntries(updates: seq<(Field, Value)>): Fields {
    if updates == [] then map[]
    else FromEntries(updates[..|updates| - 1])[updates[|updates| - 1].0 := updates[|updates| - 1].1]
  }

  lemma FromEntriesOneMore(updates: seq<(Field, Value)>, f: Field, v: Value)
    ensures FromEntries(updates + [(f, v)]) == FromEntries(updates)[f := v]
  {
    assert (updates + [(f, v)])[..|updates|] == updates;
  }

  /** The values filled in for the fields seen so far. */
  function FilledAmong(fields: Fields, scraped: Fields, among: set<Field>): Fields {
    map f | f in among && IsDue(fields, scraped, f) :: scraped[f]
  }

  lemma FilledOneMore(fields: Fields, scraped: Fields, among: set<Field>, f: Field)
    ensures IsDue(fields, scraped, f) ==>
              FilledAmong(fields, scraped, among + {f}) == FilledAmong(fields, scraped, among)[f := scraped[f]]
    ensures !IsDue(fields, scraped, f) ==>
              FilledAmong(fields, scraped, among + {f}) == FilledAmong(fields, scraped, among)
  {
    hide IsOpen, IsOffered;
  }

  lemma DueMeta(fields: Fields, scraped: Fields, f: Field)
    ensures f in META_FIELDS ==> (IsDue(fields, scraped, f) <==> IsEmpty(fields, f) && !IsEmpty(scraped, f))
    ensures f == Lng ==> (IsDue(fields, scraped, f) <==> f !in fields && f in scraped)
  {
    hide IsGated, IsBlank;
    if f in META_FIELDS || f == Lng { assert !IsOfficer(f); }
  }

  lemma DueOfficer(fields: Fields, scraped: Fields, f: Field)
    requires IsOfficer(f)
    ensures IsDue(fields, scraped, f) <==> !IsGated(scraped, f) && IsBlank(fields, f) && !IsBlank(scraped, f)
  {
    hide IsGated, Trim;
  }

  lemma AllFields()
    ensures forall f: Field :: f in META_FIELDS || f == Lng || IsOfficer(f)
  {
    forall f: Field ensures f in META_FIELDS || f == Lng || IsOfficer(f) {
      match f { case _ => }
    }
  }

  method Updates(fields: Fields, scraped: Fields) returns (updates: seq<(Field, Value)>)
    ensures FromEntries(updates) == Filled(fields, scraped)
    ensures updates == [] <==> Filled(fields, scraped) == map[]
  {
    hide IsBlank, IsGated, IsEmpty, IsDue, FilledAmong, FromEntries;
    updates := [];
    ghost var seen: set<Field> := {};
    assert FromEntries([]) == FilledAmong(fields, scraped, {}) by { NothingYet(fields, scraped); }
    for i := 0 to |META_FIELDS|
      invariant forall j | 0 <= j < i :: META_FIELDS[j] in seen
      invariant FromEntries(updates) == FilledAmong(fields, scraped, seen)
    {
      var f := META_FIELDS[i];
      DueMeta(fields, scraped, f);
      FilledOneMore(fields, scraped, seen, f);
      if IsEmpty(fields, f) && !IsEmpty(scraped, f) {
        assert f in scraped by { EmptyWhenAbsent(scraped, f); }
        FromEntriesOneMore(updates, f, scraped[f]);
        updates := updates + [(f, scraped[f])];
      }
      seen := seen + {f};
    }
    DueMeta(fields, scraped, Lng);
    FilledOneMore(fields, scraped, seen, Lng);
    if Lng !in fields && Lng in scraped {
      FromEntriesOneMore(updates, Lng, scraped[Lng]);
      updates := updates + [(Lng, scraped[Lng])];
    }
    seen := seen + {Lng};
    for i := 0 to |OFFICER_FIELDS|
      invariant Lng in seen && forall f | f in META_FIELDS :: f in seen
      invariant forall j | 0 <= j < i :: OFFICER_FIELDS[j] in seen
      invariant FromEntries(updates) == FilledAmong(fields, scraped, seen)
    {
      var f := OFFICER_FIELDS[i];
      DueOfficer(fields, scraped, f);
      FilledOneMore(fields, scraped, seen, f);
      seen := seen + {f};
      if IsGated(scraped, f) { continue; }
      if IsBlank(fields, f) && !IsBlank(scraped, f) {
        assert f in scraped by { BlankWhenAbsent(scraped, f); }
        FromEntriesOneMore(updates, f, scraped[f]);
        updates := updates + [(f, scraped[f])];
      }
    }
    AllFields();
    AllSeen(fields, scraped, seen);
    EntriesAreSome(updates);
  }

  lemma NothingYet(fields: Fields, scraped: Fields)
    ensures FromEntries([]) == FilledAmong(fields, scraped, {})
  {
  }

  lemma AllSeen(fields: Fields, scraped: Fields, seen: set<Field>)
    requires forall f: Field :: f in seen
    ensures FilledAmong(fields, scraped, seen) == Filled(fields, scraped)
  {
    hide IsOpen, IsOffered;
  }

  lemma EntriesAreSome(updates: seq<(Field, Value)>)
    ensures updates == [] <==> FromEntries(updates) == map[]
  {
    if updates != [] { assert updates[|updates| - 1].0 in FromEntries(updates); }
  }

  lemma EmptyWhenAbsent(fields: Fields, f: Field)
    ensures f !in fields ==> IsEmpty(fields, f)
  {
  }

  lemma BlankWhenAbsent(fields: Fields, f: Field)
    ensures f !in fields ==> IsBlank(fields, f)
  {
  }

  function CreatedAmong(scraped: Fields, among: set<Field>): Fields {
    map f | f in scraped && f in among && (IsOfficer(f) ==> IsOffered(scraped, f)) :: scraped[f]
  }

  lemma CreatedOneMore(scraped: Fields, among: set<Field>, f: Field)
    requires IsOfficer(f)
    ensures CreatedAmong(scraped, among + {f}) == if !IsGated(scraped, f) && !IsBlank(scraped, f)
                                                  then CreatedAmong(scraped, among)[f := scraped[f]]
                                                  else CreatedAmong(scraped, among)
  {
    hide IsGated, IsOfficer, Trim;
  }

  lemma CreatedAll(scraped: Fields, among: set<Field>)
    requires forall f: Field :: f in among
    ensures CreatedAmong(scraped, among) == CreatedFields(scraped)
  {
    hide IsOffered, IsOfficer;
  }

  lemma CreatedMeta(scraped: Fields)
    ensures CreatedAmong(scraped, {Zone, Lat, Lng, RotaryId})
         == map f | f in scraped && f in {Zone, Lat, Lng, RotaryId} :: scraped[f]
  {
    hide IsOffered;
  }

  method NewFields(scraped: Fields) returns (data: Fields)
    ensures data == CreatedFields(scraped)
  {
    hide IsBlank, IsGated, CreatedAmong, CreatedFields;
    data := map f | f in scraped && f in {Zone, Lat, Lng, RotaryId} :: scraped[f];
    ghost var seen := {Zone, Lat, Lng, RotaryId};
    CreatedMeta(scraped);
    for i := 0 to |OFFICER_FIELDS|
      invariant Lng in seen && forall f | f in META_FIELDS :: f in seen
      invariant forall j | 0 <= j < i :: OFFICER_FIELDS[j] in seen
      invariant data == CreatedAmong(scraped, seen)
    {
      var f := OFFICER_FIELDS[i];
      CreatedOneMore(scraped, seen, f);
      seen := seen + {f};
      if IsGated(scraped, f) { continue; }
      if !IsBlank(scraped, f) {
        assert f in scraped by { BlankWhenAbsent(scraped, f); }
        data := data[f := scraped[f]];
      }
    }
    AllFields();
    CreatedAll(scraped, seen);
  }

  /** `idOf` is `slugify` followed by `toUpperCase`. */
  method MergeClubFields(existing: Option<Club>, scraped: Scraped, idOf: string -> string) returns (decision: Decision)
    ensures decision == Decide(existing, scraped, idOf(scraped.name))
  {
    match existing
    case None =>
      var data := NewFields(scraped.fields);
      decision := Create(Club(idOf(scraped.name), scraped.name, scraped.shortName, data));
    case Some(club) =>
      var updates := Updates(club.fields, scraped.fields);
      decision := if |updates| == 0 then Noop else Update(club.id, FromEntries(updates));
  }

  // ---- what is written, told without the functions above

  function WrittenBy(decision: Decision): Fields {
    match decision
    case Create(club) => club.fields
    case Update(_, values) => values
    case Noop => map[]
  }

  /** A club that is not there is created under the given id, one with something to fill is updated, and every other is
      left alone. */
  lemma DecisionIs(existing: Option<Club>, s: Scraped, id: string)
    ensures match existing
            case None =>
              Decide(existing, s, id) == Create(Club(id, s.name, s.shortName, WrittenBy(Decide(existing, s, id))))
            case Some(club) =>
              var values := WrittenBy(Decide(existing, s, id));
              Decide(existing, s, id) == if values == map[] then Noop else Update(club.id, values)
  {
  }

  /** Nothing, or only white space. */
  predicate SaysNothing(fields: Fields, f: Field) {
    f in fields ==> fields[f].Words? && Trim(fields[f].text) == ""
  }

  predicate NamesNoPresident(s: Fields) {
    President in s && s[President].Words? && ToLower(Trim(s[President].text)) == "rtr. club president"
  }

  predicate NamesNoSecretary(s: Fields) {
    Secretary in s && s[Secretary].Words? && ToLower(Trim(s[Secretary].text)) == "rtr. club secretary"
  }

  /** The source says something in this officer field, about an officer that it names. */
  predicate Offers(s: Fields, f: Field) {
    && !SaysNothing(s, f)
    && (f in {President, Phone, Email} ==> !NamesNoPresident(s))
    && (f in {Secretary, SecretaryEmail, SecretaryPhone} ==> !NamesNoSecretary(s))
  }

  lemma OfficersAre(f: Field)
    ensures IsOfficer(f) <==> f in {President, Phone, Email, Secretary, SecretaryEmail, SecretaryPhone}
  {
  }

  lemma OfferedIffOffers(s: Fields, f: Field)
    requires f in {President, Phone, Email, Secretary, SecretaryEmail, SecretaryPhone}
    ensures IsOffered(s, f) <==> Offers(s, f)
    ensures Offers(s, f) ==> f in s
  {
    OfficersAre(f);
    hide Trim, ToLower, IsOfficer;
  }

  /** An officer field is written exactly when the database says nothing in it and the source offers something. */
  lemma OfficerIsWrittenIff(existing: Option<Club>, s: Scraped, id: string, f: Field)
    requires f in {President, Phone, Email, Secretary, SecretaryEmail, SecretaryPhone}
    ensures var values := WrittenBy(Decide(existing, s, id));
            && (f in values <==> (existing.Some? ==> SaysNothing(existing.value.fields, f)) && Offers(s.fields, f))
            && (f in values ==> f in s.fields && values[f] == s.fields[f])
  {
    OfficersAre(f);
    OfferedIffOffers(s.fields, f);
    hide Trim, IsOffered, IsOfficer, Offers;
  }

  /** A placeholder president keeps his name, phone and email out. */
  lemma NoPresidentIsWritten(existing: Option<Club>, s: Scraped, id: string, f: Field)
    requires NamesNoPresident(s.fields) && f in {President, Phone, Email}
    ensures f !in WrittenBy(Decide(existing, s, id))
  {
    OfficerIsWrittenIff(existing, s, id, f);
    hide Decide, NamesNoPresident;
  }

  lemma NoSecretaryIsWritten(existing: Option<Club>, s: Scraped, id: string, f: Field)
    requires NamesNoSecretary(s.fields) && f in {Secretary, SecretaryEmail, SecretaryPhone}
    ensures f !in WrittenBy(Decide(existing, s, id))
  {
    OfficerIsWrittenIff(existing, s, id, f);
    hide Decide, NamesNoSecretary;
  }

  /** Of the other fields a new club gets all there are, and an old one those that are missing, or empty for the text
      fields, and not empty in the source. */
  lemma OtherFieldIsWrittenIff(existing: Option<Club>, s: Scraped, id: string, f: Field)
    requires f in {Zone, Lat, Lng, RotaryId}
    ensures var values := WrittenBy(Decide(existing, s, id));
            && (f in values <==>
                  && f in s.fields
                  && (existing.Some? && f in existing.value.fields ==>
                        f != Lng && existing.value.fields[f] == Words(""))
                  && (existing.Some? && f != Lng ==> s.fields[f] != Words("")))
            && (f in values ==> f in s.fields && values[f] == s.fields[f])
  {
    OfficersAre(f);
    hide IsGated, IsBlank, IsOfficer;
  }
}
