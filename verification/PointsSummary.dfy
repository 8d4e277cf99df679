/** `clubPointsDto` of `src/points/points.transformer.ts`: the figures of a summary add up. */
module PointsSummary {
  import opened Text
  import opened Points

  predicate IsDigit(c: char) {
    '0' <= c <= '9'
  }

  /** `/^\d{4}-\d{2}$/`. */
  predicate IsMonthKey(key: string) {
    && |key| == 7 && key[4] == '-'
    && IsDigit(key[0]) && IsDigit(key[1]) && IsDigit(key[2]) && IsDigit(key[3]) && IsDigit(key[5]) && IsDigit(key[6])
  }

  predicate IsDigits(s: string) {
    forall i | 0 <= i < |s| :: s[i] in "0123456789"
  }

  lemma DigitIff(c: char)
    ensures IsDigit(c) <==> c in "0123456789"
  {
    var digits := "0123456789";
    if IsDigit(c) { assert digits[c as int - '0' as int] == c; }
  }

  lemma FourDigits(s: string)
    requires |s| == 4
    ensures IsDigits(s) <==> IsDigit(s[0]) && IsDigit(s[1]) && IsDigit(s[2]) && IsDigit(s[3])
  {
    forall i | 0 <= i < 4 ensures IsDigit(s[i]) <==> s[i] in "0123456789" { DigitIff(s[i]); }
    hide IsDigit;
  }

  lemma TwoDigits(s: string)
    requires |s| == 2
    ensures IsDigits(s) <==> IsDigit(s[0]) && IsDigit(s[1])
  {
    forall i | 0 <= i < 2 ensures IsDigit(s[i]) <==> s[i] in "0123456789" { DigitIff(s[i]); }
    hide IsDigit;
  }

  lemma PartsOfMonthKey(key: string, year: string, month: string)
    requires key == year + "-" + month && |year| == 4 && |month| == 2
    ensures IsMonthKey(key) <==> IsDigits(year) && IsDigits(month)
  {
    FourDigits(year);
    TwoDigits(month);
    hide IsDigit, IsDigits;
  }

  /** Four digits, a hyphen and two digits. */
  lemma MonthKeyIff(key: string)
    ensures IsMonthKey(key) <==> exists year, month ::
              key == year + "-" + month && |year| == 4 && |month| == 2 && IsDigits(year) && IsDigits(month)
  {
    if IsMonthKey(key) {
      var year, month := key[..4], key[5..];
      assert key == year + "-" + month;
      hide IsMonthKey, IsDigits;
      PartsOfMonthKey(key, year, month);
    } else {
      hide IsMonthKey, IsDigits;
      forall year, month | key == year + "-" + month && |year| == 4 && |month| == 2
        ensures !(IsDigits(year) && IsDigits(month))
      {
        PartsOfMonthKey(key, year, month);
      }
    }
  }

  datatype Grouping = ByCategory | ByMonth

  function KeyOf(g: Grouping, e: Entry): Option<string> {
    match g
    case ByCategory => Some(e.categoryId)
    case ByMonth => if IsMonthKey(e.periodKey) then Some(e.periodKey) else None
  }

  // ---- sums over the entries themselves

  datatype Pick = All | HasKey(g: Grouping) | HasNoKey(g: Grouping) | OfKey(g: Grouping, key: string)
                | OfPeriod(periodKey: string) | ListedIn(periodKey: string) | JudgedIn(periodKey: string)

  predicate Picks(p: Pick, e: Entry) {
    match p
    case All => true
    case HasKey(g) => KeyOf(g, e).Some?
    case HasNoKey(g) => KeyOf(g, e) == None
    case OfKey(g, key) => KeyOf(g, e) == Some(key)
    case OfPeriod(periodKey) => e.periodKey == periodKey
    case ListedIn(periodKey) => e.kind == Computed && e.periodKey == periodKey
    case JudgedIn(periodKey) => e.kind == Judged && e.periodKey == periodKey
  }

  function SumOf(entries: seq<Entry>, p: Pick): int {
    if entries == [] then 0
    else SumOf(entries[..|entries| - 1], p)
         + if Picks(p, entries[|entries| - 1]) then entries[|entries| - 1].points else 0
  }

  // ---- the maps of the summary, as the pairs they hold in insertion order

  datatype Total = Total(key: string, points: int)

  function KeysOf(totals: seq<Total>): (r: seq<string>)
    ensures |r| == |totals| && forall i | 0 <= i < |totals| :: r[i] == totals[i].key
  {
    seq(|totals|, i requires 0 <= i < |totals| => totals[i].key)
  }

  function SlotOf(totals: seq<Total>, key: string): (i: nat)
    ensures i <= |totals|
    ensures i < |totals| ==> totals[i].key == key
    ensures forall j | 0 <= j < i :: totals[j].key != key
  {
    assert forall j | 0 <= j < |totals| :: KeysOf(totals)[j] == totals[j].key;
    Position(KeysOf(totals), key)
  }

  function Add(totals: seq<Total>, key: string, points: int): seq<Total> {
    var i := SlotOf(totals, key);
    if i < |totals| then totals[i := Total(key, totals[i].points + points)] else totals + [Total(key, points)]
  }

  function Grouped(entries: seq<Entry>, g: Grouping): seq<Total> {
    if entries == [] then []
    else
      var last := entries[|entries| - 1];
      var before := Grouped(entries[..|entries| - 1], g);
      if KeyOf(g, last) == None then before else Add(before, KeyOf(g, last).value, last.points)
  }

  function SumTotals(totals: seq<Total>): int {
    if totals == [] then 0 else SumTotals(totals[..|totals| - 1]) + totals[|totals| - 1].points
  }

  function Filter(entries: seq<Entry>, p: Pick): seq<Entry> {
    if entries == [] then []
    else Filter(entries[..|entries| - 1], p) + if Picks(p, entries[|entries| - 1]) then [entries[|entries| - 1]] else []
  }

  function First(entries: seq<Entry>, p: Pick): (i: nat)
    ensures i <= |entries|
    ensures i < |entries| ==> Picks(p, entries[i])
    ensures forall j | 0 <= j < i :: !Picks(p, entries[j])
  {
    if entries == [] || Picks(p, entries[0]) then 0 else 1 + First(entries[1..], p)
  }

  datatype Summary = Summary(total: int, byCategory: seq<Total>, byMonth: seq<Total>, listed: seq<Entry>,
                             judged: Option<Entry>)

  function SummaryOf(entries: seq<Entry>, month: Option<string>): Summary {
    Summary(
      SumOf(entries, All), Grouped(entries, ByCategory), Grouped(entries, ByMonth),
      if IsGiven(month) then Filter(entries, ListedIn(month.value)) else [],
      if IsGiven(month) && First(entries, JudgedIn(month.value)) < |entries|
      then Some(entries[First(entries, JudgedIn(month.value))]) else None)
  }

  method CategoryMap(entries: seq<Entry>) returns (byCategory: seq<Total>)
    ensures byCategory == Grouped(entries, ByCategory)
  {
    byCategory := [];
    for k := 0 to |entries|
      invariant byCategory == Grouped(entries[..k], ByCategory)
    {
      assert entries[..k + 1][..k] == entries[..k];
      var key := entries[k].categoryId;
      var i := SlotOf(byCategory, key);
      if i < |byCategory| {
        byCategory := byCategory[i := byCategory[i].(points := byCategory[i].points + entries[k].points)];
      } else {
        byCategory := byCategory + [Total(key, entries[k].points)];
      }
    }
    assert entries[..|entries|] == entries;
  }

  method MonthMap(entries: seq<Entry>) returns (byMonth: seq<Total>)
    ensures byMonth == Grouped(entries, ByMonth)
  {
    hide IsMonthKey;
    byMonth := [];
    for k := 0 to |entries|
      invariant byMonth == Grouped(entries[..k], ByMonth)
    {
      assert entries[..k + 1][..k] == entries[..k];
      var key := entries[k].periodKey;
      if !IsMonthKey(key) { continue; }
      var i := SlotOf(byMonth, key);
      var sofar := if i < |byMonth| then byMonth[i].points else 0;
      byMonth := if i < |byMonth| then byMonth[i := Total(key, sofar + entries[k].points)]
                 else byMonth + [Total(key, sofar + entries[k].points)];
    }
    assert entries[..|entries|] == entries;
  }

  method ClubPointsDto(entries: seq<Entry>, month: Option<string>) returns (dto: Summary)
    ensures dto == SummaryOf(entries, month)
  {
    hide Grouped, Filter, First, Picks;
    var total := 0;
    for k := 0 to |entries|
      invariant total == SumOf(entries[..k], All)
    {
      assert entries[..k + 1][..k] == entries[..k];
      assert Picks(All, entries[k]) by { AllArePicked(entries[k]); }
      total := total + entries[k].points;
    }
    assert entries[..|entries|] == entries;
    var byCategory := CategoryMap(entries);
    var byMonth := MonthMap(entries);
    var judged := None;
    if IsGiven(month) {
      var i := First(entries, JudgedIn(month.value));
      judged := if i < |entries| then Some(entries[i]) else None;
    }
    dto := Summary(total, byCategory, byMonth,
                   if IsGiven(month) then Filter(entries, ListedIn(month.value)) else [], judged);
  }

  lemma AllArePicked(e: Entry)
    ensures Picks(All, e)
  {
  }

  // ---- every breakdown is right

  ghost predicate IsTotalled(totals: seq<Total>, key: string) {
    exists i :: 0 <= i < |totals| && totals[i].key == key
  }

  ghost predicate Occurs(entries: seq<Entry>, g: Grouping, key: string) {
    exists i :: 0 <= i < |entries| && KeyOf(g, entries[i]) == Some(key)
  }

  ghost predicate IsRight(t: Total, entries: seq<Entry>, g: Grouping) {
    t.points == SumOf(entries, OfKey(g, t.key))
  }

  ghost predicate DistinctKeys(totals: seq<Total>) {
    forall i, j | 0 <= i < j < |totals| :: totals[i].key != totals[j].key
  }

  /** One total per key that occurs, and it is the sum of the entries with that key. */
  ghost predicate IsBreakdown(totals: seq<Total>, entries: seq<Entry>, g: Grouping) {
    && DistinctKeys(totals)
    && (forall i | 0 <= i < |totals| :: IsRight(totals[i], entries, g))
    && (forall key :: IsTotalled(totals, key) <==> Occurs(entries, g, key))
    && SumTotals(totals) == SumOf(entries, HasKey(g))
  }

  lemma {:induction false} SumAfterUpdate(totals: seq<Total>, i: nat, t: Total)
    requires i < |totals|
    ensures SumTotals(totals[i := t]) == SumTotals(totals) - totals[i].points + t.points
  {
    var n := |totals| - 1;
    if i == n {
      assert totals[i := t][..n] == totals[..n];
    } else {
      assert totals[i := t][..n] == totals[..n][i := t];
      SumAfterUpdate(totals[..n], i, t);
    }
  }

  lemma SumAfterAdd(totals: seq<Total>, key: string, points: int)
    ensures SumTotals(Add(totals, key, points)) == SumTotals(totals) + points
  {
    var i := SlotOf(totals, key);
    if i < |totals| {
      SumAfterUpdate(totals, i, Total(key, totals[i].points + points));
    } else {
      assert (totals + [Total(key, points)])[..|totals|] == totals;
    }
  }

  lemma {:induction false} NoneOfKey(entries: seq<Entry>, p: Pick)
    requires forall i | 0 <= i < |entries| :: !Picks(p, entries[i])
    ensures SumOf(entries, p) == 0
  {
    hide Picks;
    if entries != [] { NoneOfKey(entries[..|entries| - 1], p); }
  }

  lemma AddedKeys(totals: seq<Total>, key: string, points: int)
    requires DistinctKeys(totals)
    ensures DistinctKeys(Add(totals, key, points))
    ensures forall k :: IsTotalled(Add(totals, key, points), k) <==> IsTotalled(totals, k) || k == key
  {
    var r := Add(totals, key, points);
    var i := SlotOf(totals, key);
    assert r[i].key == key;
    assert forall j | 0 <= j < |totals| :: r[j].key == totals[j].key;
  }

  lemma OccursOneMore(entries: seq<Entry>, g: Grouping)
    requires entries != []
    ensures var n := |entries| - 1;
            forall key :: Occurs(entries, g, key) <==> Occurs(entries[..n], g, key) || KeyOf(g, entries[n]) == Some(key)
  {
    hide KeyOf;
    var n := |entries| - 1;
    assert forall i | 0 <= i < n :: entries[..n][i] == entries[i];
  }

  lemma RightOneMore(t: Total, entries: seq<Entry>, g: Grouping)
    requires entries != [] && IsRight(t, entries[..|entries| - 1], g)
    ensures var last := entries[|entries| - 1];
            IsRight(if KeyOf(g, last) == Some(t.key) then Total(t.key, t.points + last.points) else t, entries, g)
  {
    hide KeyOf;
  }

  lemma NewKeyIsRight(entries: seq<Entry>, g: Grouping, key: string)
    requires entries != [] && KeyOf(g, entries[|entries| - 1]) == Some(key) && !Occurs(entries[..|entries| - 1], g, key)
    ensures IsRight(Total(key, entries[|entries| - 1].points), entries, g)
  {
    NoneOfKey(entries[..|entries| - 1], OfKey(g, key));
  }

  lemma TotalsStayRight(before: seq<Total>, entries: seq<Entry>, g: Grouping, key: string, points: int)
    requires entries != [] && KeyOf(g, entries[|entries| - 1]) == Some(key) && entries[|entries| - 1].points == points
    requires DistinctKeys(before) && forall i | 0 <= i < |before| :: IsRight(before[i], entries[..|entries| - 1], g)
    requires IsTotalled(before, key) <==> Occurs(entries[..|entries| - 1], g, key)
    ensures var totals := Add(before, key, points);
            forall i | 0 <= i < |totals| :: IsRight(totals[i], entries, g)
  {
    hide KeyOf, Occurs, IsTotalled, IsRight;
    var totals := Add(before, key, points);
    var at := SlotOf(before, key);
    forall i | 0 <= i < |totals| ensures IsRight(totals[i], entries, g) {
      if i < |before| {
        RightOneMore(before[i], entries, g);
        assert before[i].key == key ==> i == at;
      } else {
        NotTotalled(before, key);
        NewKeyIsRight(entries, g, key);
      }
    }
  }

  lemma SumsOneMore(entries: seq<Entry>, g: Grouping)
    requires entries != []
    ensures var last := entries[|entries| - 1];
            SumOf(entries, HasKey(g))
            == SumOf(entries[..|entries| - 1], HasKey(g)) + if KeyOf(g, last) == None then 0 else last.points
  {
    hide KeyOf;
  }

  lemma KeyedOneMore(before: seq<Total>, entries: seq<Entry>, g: Grouping, key: string)
    requires entries != [] && IsBreakdown(before, entries[..|entries| - 1], g)
             && KeyOf(g, entries[|entries| - 1]) == Some(key)
    ensures IsBreakdown(Add(before, key, entries[|entries| - 1].points), entries, g)
  {
    hide KeyOf, Occurs, IsTotalled, IsRight, DistinctKeys, Add, SumOf, SumTotals;
    var last := entries[|entries| - 1];
    OccursOneMore(entries, g);
    SumsOneMore(entries, g);
    SumAfterAdd(before, key, last.points);
    AddedKeys(before, key, last.points);
    TotalsStayRight(before, entries, g, key, last.points);
  }

  lemma KeylessOneMore(before: seq<Total>, entries: seq<Entry>, g: Grouping)
    requires entries != [] && IsBreakdown(before, entries[..|entries| - 1], g)
             && KeyOf(g, entries[|entries| - 1]) == None
    ensures IsBreakdown(before, entries, g)
  {
    hide KeyOf, Occurs, IsTotalled, IsRight, DistinctKeys, SumOf, SumTotals;
    OccursOneMore(entries, g);
    SumsOneMore(entries, g);
    forall i | 0 <= i < |before| ensures IsRight(before[i], entries, g) { RightOneMore(before[i], entries, g); }
  }

  lemma {:induction false} GroupedIsBreakdown(entries: seq<Entry>, g: Grouping)
    ensures IsBreakdown(Grouped(entries, g), entries, g)
  {
    if entries != [] {
      hide IsBreakdown, Add, KeyOf;
      GroupedIsBreakdown(entries[..|entries| - 1], g);
      var before := Grouped(entries[..|entries| - 1], g);
      match KeyOf(g, entries[|entries| - 1]) {
        case Some(key) => KeyedOneMore(before, entries, g, key);
        case None => KeylessOneMore(before, entries, g);
      }
    } else {
      NothingToBreakDown(g);
    }
  }

  lemma NothingToBreakDown(g: Grouping)
    ensures IsBreakdown([], [], g)
  {
  }

  lemma NotTotalled(totals: seq<Total>, key: string)
    requires SlotOf(totals, key) == |totals|
    ensures !IsTotalled(totals, key)
  {
  }

  lemma {:induction false} KeyedOrNot(entries: seq<Entry>, g: Grouping)
    ensures SumOf(entries, All) == SumOf(entries, HasKey(g)) + SumOf(entries, HasNoKey(g))
  {
    if entries != [] { KeyedOrNot(entries[..|entries| - 1], g); }
  }

  /** The total is the sum of the categories, and the sum of the months plus the entries of no month. */
  lemma SummaryAddsUp(entries: seq<Entry>, month: Option<string>)
    ensures var s := SummaryOf(entries, month);
            && s.total == SumTotals(s.byCategory)
            && s.total == SumTotals(s.byMonth) + SumOf(entries, HasNoKey(ByMonth))
            && IsBreakdown(s.byCategory, entries, ByCategory)
            && IsBreakdown(s.byMonth, entries, ByMonth)
  {
    GroupedIsBreakdown(entries, ByCategory);
    GroupedIsBreakdown(entries, ByMonth);
    KeyedOrNot(entries, ByCategory);
    KeyedOrNot(entries, ByMonth);
    forall i | 0 <= i < |entries| ensures !Picks(HasNoKey(ByCategory), entries[i]) {}
    NoneOfKey(entries, HasNoKey(ByCategory));
  }

  // ---- a month is its listed entries and its judged entry

  lemma {:induction false} PeriodIsListedPlusJudged(entries: seq<Entry>, m: string)
    ensures SumOf(entries, OfPeriod(m)) == SumOf(entries, ListedIn(m)) + SumOf(entries, JudgedIn(m))
  {
    if entries != [] { PeriodIsListedPlusJudged(entries[..|entries| - 1], m); }
  }

  lemma {:induction false} MonthKeyIsPeriod(entries: seq<Entry>, m: string)
    requires IsMonthKey(m)
    ensures SumOf(entries, OfKey(ByMonth, m)) == SumOf(entries, OfPeriod(m))
  {
    hide IsMonthKey;
    if entries != [] { MonthKeyIsPeriod(entries[..|entries| - 1], m); }
  }

  lemma {:induction false} SumOfFiltered(entries: seq<Entry>, p: Pick)
    ensures SumOf(Filter(entries, p), All) == SumOf(entries, p)
  {
    hide KeyOf;
    if entries != [] {
      var n := |entries| - 1;
      SumOfFiltered(entries[..n], p);
      var before := Filter(entries[..n], p);
      assert (before + [entries[n]])[..|before|] == before && before + [] == before;
    }
  }

  lemma {:induction false} SumOfFront(entries: seq<Entry>, p: Pick)
    requires entries != []
    ensures SumOf(entries, p) == (if Picks(p, entries[0]) then entries[0].points else 0) + SumOf(entries[1..], p)
  {
    hide Picks;
    if |entries| > 1 {
      SumOfFront(entries[..|entries| - 1], p);
      assert entries[..|entries| - 1][1..] == entries[1..][..|entries[1..]| - 1];
    }
  }

  lemma {:induction false} SumFromFirst(entries: seq<Entry>, p: Pick)
    ensures var i := First(entries, p);
            SumOf(entries, p) == if i < |entries| then entries[i].points + SumOf(entries[i + 1..], p) else 0
  {
    hide Picks;
    if entries != [] {
      SumOfFront(entries, p);
      if !Picks(p, entries[0]) {
        SumFromFirst(entries[1..], p);
        var i := First(entries[1..], p);
        if i < |entries[1..]| { assert entries[1..][i + 1..] == entries[i + 2..]; }
      }
    }
  }

  function JudgedPoints(s: Summary): int {
    if s.judged == None then 0 else s.judged.value.points
  }

  /** The month's total in the breakdown, 0 when it is not there. */
  function PointsOf(totals: seq<Total>, key: string): int {
    if SlotOf(totals, key) < |totals| then totals[SlotOf(totals, key)].points else 0
  }

  /** What the summary of month `m` shows for it: the listed entries and the judged one. */
  function Shown(entries: seq<Entry>, m: string): int {
    var s := SummaryOf(entries, Some(m));
    SumOf(s.listed, All) + JudgedPoints(s)
  }

  function OtherJudged(entries: seq<Entry>, m: string): seq<Entry> {
    var i := First(entries, JudgedIn(m));
    if i < |entries| then entries[i + 1..] else []
  }

  lemma MonthIsNamed(m: string)
    ensures IsMonthKey(m) ==> m != ""
  {
  }

  /** The month's total exceeds what is shown by exactly the judged entries after the first. */
  lemma MonthIsShownPlusOtherJudged(entries: seq<Entry>, m: string)
    requires IsMonthKey(m)
    ensures SumOf(entries, OfKey(ByMonth, m)) == Shown(entries, m) + SumOf(OtherJudged(entries, m), JudgedIn(m))
  {
    hide IsMonthKey, Picks, Filter, First, SumOf, Grouped, KeyOf;
    assert IsGiven(Some(m)) by { MonthIsNamed(m); }
    PeriodIsListedPlusJudged(entries, m);
    MonthKeyIsPeriod(entries, m);
    SumOfFiltered(entries, ListedIn(m));
    SumFromFirst(entries, JudgedIn(m));
    NoneOfKey([], JudgedIn(m));
    var s := SummaryOf(entries, Some(m));
    var i := First(entries, JudgedIn(m));
    assert s.listed == Filter(entries, ListedIn(m));
    assert JudgedPoints(s) == if i < |entries| then entries[i].points else 0;
  }

  /** `findForYear`, but for the order of the rows. */
  function ForYear(rows: seq<Entry>, clubId: string, ryYear: int): seq<Entry> {
    if rows == [] then []
    else
      var n := |rows| - 1;
      ForYear(rows[..n], clubId, ryYear)
      + if rows[n].clubId == clubId && rows[n].ryYear == ryYear then [rows[n]] else []
  }

  /** The entries of this club and year, each as often as it is in the table. */
  lemma {:induction false} ForYearIs(rows: seq<Entry>, clubId: string, ryYear: int, e: Entry)
    ensures multiset(ForYear(rows, clubId, ryYear))[e]
         == if e.clubId == clubId && e.ryYear == ryYear then multiset(rows)[e] else 0
  {
    if rows != [] {
      var rest, x := rows[..|rows| - 1], rows[|rows| - 1];
      ForYearIs(rest, clubId, ryYear, e);
      OneMoreCounted(rows, rest, x, e);
      if x.clubId == clubId && x.ryYear == ryYear {
        OneMoreCounted(ForYear(rows, clubId, ryYear), ForYear(rest, clubId, ryYear), x, e);
      }
    }
  }

  lemma ForYearMembers(rows: seq<Entry>, clubId: string, ryYear: int)
    ensures forall e | e in ForYear(rows, clubId, ryYear) :: e in rows && e.clubId == clubId
  {
    forall e | e in ForYear(rows, clubId, ryYear) ensures e in rows && e.clubId == clubId {
      ForYearIs(rows, clubId, ryYear, e);
      hide ForYear;
      assert multiset(rows)[e] > 0;
    }
  }

  lemma {:induction false} ForYearKeeps(rows: seq<Entry>, clubId: string, ryYear: int)
    requires OnePerKey(rows) && NoForeignJudged(rows)
    ensures OnePerKey(ForYear(rows, clubId, ryYear)) && NoForeignJudged(ForYear(rows, clubId, ryYear))
  {
    hide SameKey;
    if rows != [] {
      var n := |rows| - 1;
      ForYearKeeps(rows[..n], clubId, ryYear);
      ForYearMembers(rows[..n], clubId, ryYear);
      LastStaysApart(rows, ForYear(rows[..n], clubId, ryYear));
    }
  }

  lemma JudgedOnce(entries: seq<Entry>, clubId: string, m: string)
    requires OnePerKey(entries) && NoForeignJudged(entries)
    requires forall i | 0 <= i < |entries| :: entries[i].clubId == clubId
    ensures SumOf(OtherJudged(entries, m), JudgedIn(m)) == 0
  {
    var i := First(entries, JudgedIn(m));
    var others := OtherJudged(entries, m);
    forall k | 0 <= k < |others| ensures !Picks(JudgedIn(m), others[k]) {
      assert others[k] == entries[i + 1 + k];
      assert !SameKey(entries[i], entries[i + 1 + k]);
    }
    NoneOfKey(others, JudgedIn(m));
  }

  /** Every figure of the summary of this club, year and month adds up. */
  ghost predicate AddsUp(rows: seq<Entry>, clubId: string, ryYear: int, m: string) {
    var entries := ForYear(rows, clubId, ryYear);
    var s := SummaryOf(entries, Some(m));
    && s.total == SumTotals(s.byCategory)
    && s.total == SumTotals(s.byMonth) + SumOf(entries, HasNoKey(ByMonth))
    && (IsMonthKey(m) ==> PointsOf(s.byMonth, m) == SumOf(s.listed, All) + JudgedPoints(s))
  }

  lemma OnePerKeyAddsUp(rows: seq<Entry>, clubId: string, ryYear: int, m: string)
    requires OnePerKey(rows) && NoForeignJudged(rows)
    ensures AddsUp(rows, clubId, ryYear, m)
  {
    var entries := ForYear(rows, clubId, ryYear);
    ForYearKeeps(rows, clubId, ryYear);
    ForYearMembers(rows, clubId, ryYear);
    hide ForYear, Grouped, OnePerKey, NoForeignJudged;
    SummaryAddsUp(entries, Some(m));
    var s := SummaryOf(entries, Some(m));
    if IsMonthKey(m) {
      BreakdownGivesSums(s.byMonth, entries, ByMonth, m);
      MonthIsShownPlusOtherJudged(entries, m);
      JudgedOnce(entries, clubId, m);
    }
  }

  /** After every sequence of operations. */
  lemma RunsAddUp(rows: seq<Entry>, ops: seq<Op>, newId: nat -> string, clubId: string, ryYear: int, m: string)
    requires OnePerKey(rows) && NoForeignJudged(rows)
    ensures AddsUp(Run(rows, ops, newId), clubId, ryYear, m)
  {
    RunKeeps(rows, ops, newId);
    OnePerKeyAddsUp(Run(rows, ops, newId), clubId, ryYear, m);
  }

  /** At every moment of every interleaving of looks, writes and deletes, by any number of callers. */
  lemma InterleavingsAddUp(states: seq<Race>, phases: seq<Phase>, n: nat, clubId: string, ryYear: int, m: string)
    requires IsInterleaving(states, phases) && IsStart(states[0]) && n <= |phases|
    ensures AddsUp(states[n].rows, clubId, ryYear, m)
  {
    hide AddsUp;
    InterleavingKeeps(states, phases, n);
    OnePerKeyAddsUp(states[n].rows, clubId, ryYear, m);
  }

  lemma BreakdownGivesSums(totals: seq<Total>, entries: seq<Entry>, g: Grouping, key: string)
    requires IsBreakdown(totals, entries, g)
    ensures PointsOf(totals, key) == SumOf(entries, OfKey(g, key))
  {
    var i := SlotOf(totals, key);
    if i < |totals| {
      assert IsRight(totals[i], entries, g);
    } else {
      NotTotalled(totals, key);
      assert !Occurs(entries, g, key);
      NoneOfKey(entries, OfKey(g, key));
    }
  }
}
