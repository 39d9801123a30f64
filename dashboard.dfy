/** The dashboard itself (`DashboardManager`): the statistics cards and
    table figures of one year, the combined table that joins the years by
    tax number, and the switching between tabs by a horizontal swipe. */
module Dashboard {
  import opened Common
  import opened Records
  import opened Aggregation
  import opened Utils

  // ---------------------------------------------------------------------
  // Averages shared by the year cards, the year tables and the combined table
  // ---------------------------------------------------------------------

  /** `f > 0 ? Math.round(o / f) : 0`: the average amount per unit. */
  function AvgPerPerson(o: nat, f: nat): (r: nat)
    ensures f == 0 ==> r == 0
    ensures f > 0 ==> o as real / f as real - 0.5 < r as real <= o as real / f as real + 0.5
  {
    if f > 0 then Round(o as real / f as real) else 0
  }

  /** `f > 0 ? Math.round((o / f) / 0.0015) : 0`: the yearly income the
      average donation stands for (a donor gives 0.15 % of it). */
  function AvgYearlyIncome(o: nat, f: nat): (r: int)
    ensures f == 0 ==> r == 0
    ensures f > 0 ==> var x := o as real / f as real;
                      x * 2000.0 / 3.0 - 0.5 < r as real <= x * 2000.0 / 3.0 + 0.5
  {
    if f > 0 then Round((o as real / f as real) / 0.0015) else 0
  }

  /** The cards write the estimate as `/ 0.0015`, the tables and
      `calculateYearlyIncome` as `* 100 / 0.15`: both give the same figure. */
  lemma AvgYearlyIncomeAgrees(o: nat, f: nat)
    ensures AvgYearlyIncome(o, f) == YearlyIncome(o, f)
  {
    if f > 0 {
      YearlyIncomeForms(o, f);
    }
  }

  // ---------------------------------------------------------------------
  // One year (processYearData)
  // ---------------------------------------------------------------------

  /** The figures a year table shows for one record. */
  datatype RecordFigures = RecordFigures(avgPerPerson: nat, yearlyIncome: int)

  function FiguresOf(d: Record): RecordFigures {
    RecordFigures(AvgPerPerson(d.amount, d.donors), YearlyIncome(d.amount, d.donors))
  }

  /** The statistics cards of one year. */
  datatype YearStats = YearStats(
    count: nat,
    totalO: nat,
    totalF: nat,
    avgPerPerson: nat,
    avgYearlyIncome: int,
    companiesAbove1M: nat,
    avgCompaniesPerEmployee: nat,
    topCompaniesRevenue: nat)

  predicate Above1M(d: Record) { d.amount > 1000000 }

  predicate HasDonors(d: Record) { d.donors > 0 }

  /** The cards computed from the records `rs`; the last one sums the
      amounts of the first ten, which are the ten largest when `rs` is
      ordered by amount, largest first. */
  function StatsOf(rs: seq<Record>): YearStats {
    var t := RecordsTotal(rs);
    YearStats(
      |rs|, t.o, t.f, AvgPerPerson(t.o, t.f), AvgYearlyIncome(t.o, t.f),
      Count(rs, Above1M), AvgPerPerson(t.o, Count(rs, HasDonors)),
      RecordsTotal(rs[..Min(10, |rs|)]).o)
  }

  /** `(a, b) => b.o - a.o`: larger amounts first. */
  function ByAmountDesc(a: Record, b: Record): bool { a.amount >= b.amount }

  function Amount(d: Record): nat { d.amount }

  /** A year with one record shows that record's own figures on its cards. */
  lemma SingleRecordYear(d: Record)
    ensures StatsOf([d]).avgPerPerson == FiguresOf(d).avgPerPerson
    ensures StatsOf([d]).avgYearlyIncome == FiguresOf(d).yearlyIncome
    ensures StatsOf([d]).topCompaniesRevenue == StatsOf([d]).totalO == d.amount
  {
    assert [d][..0] == [];
    assert [d][..Min(10, 1)] == [d];
    assert RecordsTotal([d]) == Slot(0, 0).Plus(d);
    AvgYearlyIncomeAgrees(d.amount, d.donors);
  }

  /** Bounds between the cards: each record above one million adds more
      than a million to the total, and the top ten never exceed the total
      (they are the total when the year has at most ten records). */
  lemma StatsBounds(rs: seq<Record>)
    ensures StatsOf(rs).companiesAbove1M <= StatsOf(rs).count
    ensures StatsOf(rs).totalO >= 1000001 * StatsOf(rs).companiesAbove1M
    ensures StatsOf(rs).topCompaniesRevenue <= StatsOf(rs).totalO
    ensures |rs| <= 10 ==> StatsOf(rs).topCompaniesRevenue == StatsOf(rs).totalO
  {
    Above1MShare(rs);
    var k := Min(10, |rs|);
    assert rs == rs[..k] + rs[k..];
    RecordsTotalAppend(rs[..k], rs[k..]);
  }

  lemma {:induction false} Above1MShare(rs: seq<Record>)
    ensures RecordsTotal(rs).o >= 1000001 * Count(rs, Above1M)
  {
    if rs != [] {
      Above1MShare(rs[..|rs| - 1]);
    }
  }

  /** Non-increasing naturals. */
  predicate NonIncreasing(xs: seq<nat>) {
    forall i, j :: 0 <= i < j < |xs| ==> xs[i] >= xs[j]
  }

  /** A non-increasing sequence is determined by its multiset. */
  lemma {:induction false} NonIncreasingUnique(xs: seq<nat>, ys: seq<nat>)
    requires multiset(xs) == multiset(ys)
    requires NonIncreasing(xs) && NonIncreasing(ys)
    ensures xs == ys
  {
    PermutationLength(xs, ys);
    if xs != [] {
      var n := |xs| - 1;
      LastAgrees(xs, ys);
      NonIncreasingUnique(xs[..n], ys[..n]);
      assert xs == xs[..n] + [xs[n]];
      assert ys == ys[..n] + [ys[n]];
    }
  }

  /** Two non-increasing orderings of one multiset end in the same (least)
      element, and what precedes it is again such a pair. */
  lemma LastAgrees(xs: seq<nat>, ys: seq<nat>)
    requires multiset(xs) == multiset(ys) && |xs| == |ys| > 0
    requires NonIncreasing(xs) && NonIncreasing(ys)
    ensures xs[|xs| - 1] == ys[|ys| - 1]
    ensures multiset(xs[..|xs| - 1]) == multiset(ys[..|ys| - 1])
    ensures NonIncreasing(xs[..|xs| - 1]) && NonIncreasing(ys[..|ys| - 1])
  {
    var n := |xs| - 1;
    LastIsLeast(ys, xs[n]);
    LastIsLeast(xs, ys[n]);
    DropLast(xs);
    DropLast(ys);
  }

  /** The last element of a non-increasing sequence is its least. */
  lemma LastIsLeast(xs: seq<nat>, v: nat)
    requires NonIncreasing(xs) && v in multiset(xs)
    ensures v >= xs[|xs| - 1]
  {
    var i :| 0 <= i < |xs| && xs[i] == v;
  }

  lemma DropLast(xs: seq<nat>)
    requires xs != []
    ensures multiset(xs[..|xs| - 1]) == multiset(xs) - multiset{xs[|xs| - 1]}
  {
    assert xs == xs[..|xs| - 1] + [xs[|xs| - 1]];
  }

  /** Two orderings of the same records by amount, largest first, list the
      same amounts: only records of equal amount can trade places. */
  lemma SortedAmounts(s: seq<Record>, t: seq<Record>)
    requires multiset(s) == multiset(t)
    requires SortedBy(s, ByAmountDesc) && SortedBy(t, ByAmountDesc)
    ensures Map(Amount, s) == Map(Amount, t)
  {
    MapMultiset(Amount, s, t);
    NonIncreasingUnique(Map(Amount, s), Map(Amount, t));
  }

  /** The amount total only depends on the amounts. */
  lemma {:induction false} AmountsDetermineTotal(s: seq<Record>, t: seq<Record>)
    requires Map(Amount, s) == Map(Amount, t)
    ensures RecordsTotal(s).o == RecordsTotal(t).o
  {
    if s != [] {
      var n := |s| - 1;
      assert Map(Amount, s[..n]) == Map(Amount, t[..n]) by {
        assert forall i :: 0 <= i < n ==> Map(Amount, s)[i] == Map(Amount, s[..n])[i];
        assert forall i :: 0 <= i < n ==> Map(Amount, t)[i] == Map(Amount, t[..n])[i];
      }
      AmountsDetermineTotal(s[..n], t[..n]);
      assert Map(Amount, s)[n] == Map(Amount, t)[n];
    }
  }

  /** The cards do not depend on how ties in the sort fall: any two
      orderings of the same records by amount give the same cards, and the
      card totals are those of the records in any order. */
  lemma SortedStatsAgree(s: seq<Record>, t: seq<Record>)
    requires multiset(s) == multiset(t)
    requires SortedBy(s, ByAmountDesc) && SortedBy(t, ByAmountDesc)
    ensures StatsOf(s) == StatsOf(t)
  {
    PermutationLength(s, t);
    RecordsTotalPermutation(s, t);
    CountPermutation(s, t, Above1M);
    CountPermutation(s, t, HasDonors);
    SortedAmounts(s, t);
    var k := Min(10, |s|);
    assert Map(Amount, s[..k]) == Map(Amount, t[..k]) by {
      assert forall i :: 0 <= i < k ==> Map(Amount, s)[i] == Map(Amount, s[..k])[i];
      assert forall i :: 0 <= i < k ==> Map(Amount, t)[i] == Map(Amount, t[..k])[i];
    }
    AmountsDetermineTotal(s[..k], t[..k]);
  }

  // ---------------------------------------------------------------------
  // The combined table (updateCombinedData)
  // ---------------------------------------------------------------------

  /** The combined table joins records by tax number (`companies[d.a]`);
      every record without one falls under the same missing key. */
  function TaxKey(r: Record): Option<string> { r.taxId }

  function CompanyTaxId(c: Company): Option<string> { c.taxId }

  /** The tax numbers that occur, the missing one counted once. */
  ghost function TaxIds(ds: Datasets): set<Option<string>> {
    set r | r in AllRecords(ds) :: r.taxId
  }

  /** `Object.values(companies)` of the tax-keyed merge. */
  function CombinedCompanies(ds: Datasets): seq<Company> {
    AggregateTotals(ds, TaxKey, 0);
    Values(Merge(Entries(ds), TaxKey))
  }

  /** A combined entry: its three slots are the sums of the records with
      its tax number, and its name and address are those of the first such
      record. */
  ghost predicate FromTaxId(ds: Datasets, c: Company) {
    && c.y2023 == YearSlot(ds, 0, TaxKey, c.taxId)
    && c.y2024 == YearSlot(ds, 1, TaxKey, c.taxId)
    && c.y2025 == YearSlot(ds, 2, TaxKey, c.taxId)
    && exists i :: FirstWith(Entries(ds), TaxKey, c.taxId, i)
                   && c.name == Entries(ds)[i].rec.name
                   && c.address == Entries(ds)[i].rec.address
  }

  /** The combined table has one entry per tax number that occurs, each
      the merge of the records carrying it. */
  lemma CombinedCompaniesCorrect(ds: Datasets)
    ensures Distinct(Map(CompanyTaxId, CombinedCompanies(ds)))
    ensures Elements(Map(CompanyTaxId, CombinedCompanies(ds))) == TaxIds(ds)
    ensures |CombinedCompanies(ds)| == |TaxIds(ds)|
    ensures forall i :: 0 <= i < |CombinedCompanies(ds)| ==> FromTaxId(ds, CombinedCompanies(ds)[i])
  {
    var m := Merge(Entries(ds), TaxKey);
    MergeCorrect(ds, TaxKey);
    TaxMerge(ds, m);
    TaxValues(ds, m);
    DistinctCard(m.order);
  }

  /** With tax numbers as keys, the keys are the tax numbers that occur
      and each entry carries its own key. */
  lemma TaxMerge(ds: Datasets, m: Merged<Option<string>>)
    requires MergedFrom(ds, TaxKey, m)
    ensures m.companies.Keys == TaxIds(ds)
    ensures forall k :: k in m.companies ==> m.companies[k].taxId == k
  {
    forall k ensures k in m.companies <==> k in TaxIds(ds) {
      if k in TaxIds(ds) {
        var r :| r in AllRecords(ds) && r.taxId == k;
        AllRecordsYear(ds, r);
        var yi: YearIndex :| r in YearRecords(ds, Years[yi]);
        assert r in YearRecords(ds, Years[yi]) && TaxKey(r) == k;
        assert Occurs(ds, TaxKey, k);
      }
      if k in m.companies {
        assert Occurs(ds, TaxKey, k);
        var yi: YearIndex, r :| r in YearRecords(ds, Years[yi]) && TaxKey(r) == k;
        AllRecordsYear(ds, r);
      }
    }
    forall k | k in m.companies ensures m.companies[k].taxId == k {
      var i :| FirstWith(Entries(ds), TaxKey, k, i) && m.companies[k].taxId == Entries(ds)[i].rec.taxId;
    }
  }

  lemma TaxValues(ds: Datasets, m: Merged<Option<string>>)
    requires MergedFrom(ds, TaxKey, m)
    requires forall k :: k in m.companies ==> m.companies[k].taxId == k
    ensures forall k :: k in m.order ==> k in m.companies
    ensures Map(CompanyTaxId, Values(m)) == m.order
    ensures forall i :: 0 <= i < |Values(m)| ==> FromTaxId(ds, Values(m)[i])
  {
    assert forall k :: k in m.order ==> k in Elements(m.order);
    var cs := Values(m);
    forall i | 0 <= i < |cs| ensures FromTaxId(ds, cs[i]) {
      var k := m.order[i];
      assert k in Elements(m.order);
      assert cs[i].taxId == k;
      assert forall yi: YearIndex :: cs[i].At(yi) == YearSlot(ds, yi, TaxKey, k);
      assert cs[i].At(0) == cs[i].y2023 && cs[i].At(1) == cs[i].y2024 && cs[i].At(2) == cs[i].y2025;
    }
  }

  /** One row of the combined table. */
  datatype CombinedRow = CombinedRow(
    name: string,
    o2023: nat, f2023: nat,
    o2024: nat, f2024: nat,
    o2025: nat, f2025: nat,
    totalO: nat,
    avgPerPerson: nat,
    yearlyIncomePerPerson: int,
    taxNumber: string,
    address: Option<string>)

  function CombinedRowOf(c: Company): CombinedRow {
    CombinedRow(
      c.name, c.y2023.o, c.y2023.f, c.y2024.o, c.y2024.f, c.y2025.o, c.y2025.f,
      c.TotalO(), AvgPerPerson(c.TotalO(), c.TotalF()), YearlyIncome(c.TotalO(), c.TotalF()),
      FormatTaxNumber(c.taxId), c.address)
  }

  /** The statistics cards of the combined tab. */
  datatype CombinedStats = CombinedStats(
    totalCompanies: nat,
    totalO: nat,
    totalF: nat,
    avgPerPerson: nat,
    avgYearlyIncome: int,
    companiesAbove1M: nat,
    avgPerCompany: nat,
    growthCompanies: nat)

  /** `_.sumBy` of the three-year totals of amounts and donors. */
  function CompaniesTotal(cs: seq<Company>): Slot {
    if cs == [] then Slot(0, 0)
    else CompaniesTotal(cs[..|cs| - 1]).Add(Slot(cs[|cs| - 1].TotalO(), cs[|cs| - 1].TotalF()))
  }

  predicate Above1MTotal(c: Company) { c.TotalO() > 1000000 }

  /** Strictly growing amounts from 2023 to 2024 to 2025. */
  predicate Growing(c: Company) { c.y2025.o > c.y2024.o && c.y2024.o > c.y2023.o }

  function CombinedStatsOf(cs: seq<Company>): CombinedStats {
    var t := CompaniesTotal(cs);
    CombinedStats(
      |cs|, t.o, t.f, AvgPerPerson(t.o, t.f), AvgYearlyIncome(t.o, t.f),
      Count(cs, Above1MTotal), AvgPerPerson(t.o, |cs|), Count(cs, Growing))
  }

  /** The three-year totals are the three yearly totals added up. */
  lemma {:induction false} CompaniesTotalByYear(cs: seq<Company>)
    ensures CompaniesTotal(cs) == YearTotal(cs, 0).Add(YearTotal(cs, 1)).Add(YearTotal(cs, 2))
  {
    if cs != [] {
      CompaniesTotalByYear(cs[..|cs| - 1]);
    }
  }

  /** Nothing is lost or counted twice: the combined totals are the totals
      of all loaded records, and so the sums of the yearly cards. */
  lemma CombinedConserves(ds: Datasets)
    ensures CompaniesTotal(CombinedCompanies(ds)) == RecordsTotal(AllRecords(ds))
    ensures CompaniesTotal(CombinedCompanies(ds)).o
              == StatsOf(YearRecords(ds, 2023)).totalO + StatsOf(YearRecords(ds, 2024)).totalO
                 + StatsOf(YearRecords(ds, 2025)).totalO
    ensures CompaniesTotal(CombinedCompanies(ds)).f
              == StatsOf(YearRecords(ds, 2023)).totalF + StatsOf(YearRecords(ds, 2024)).totalF
                 + StatsOf(YearRecords(ds, 2025)).totalF
  {
    var cs := CombinedCompanies(ds);
    CompaniesTotalByYear(cs);
    AggregateTotals(ds, TaxKey, 0);
    AggregateTotals(ds, TaxKey, 1);
    AggregateTotals(ds, TaxKey, 2);
    RecordsTotalAppend(YearRecords(ds, 2023) + YearRecords(ds, 2024), YearRecords(ds, 2025));
    RecordsTotalAppend(YearRecords(ds, 2023), YearRecords(ds, 2024));
  }

  /** Counted companies are among the companies. */
  lemma CombinedStatsBounds(cs: seq<Company>)
    ensures CombinedStatsOf(cs).companiesAbove1M <= CombinedStatsOf(cs).totalCompanies
    ensures CombinedStatsOf(cs).growthCompanies <= CombinedStatsOf(cs).totalCompanies
    ensures CombinedStatsOf(cs).totalO >= 1000001 * CombinedStatsOf(cs).companiesAbove1M
  {
    Above1MTotalShare(cs);
  }

  lemma {:induction false} Above1MTotalShare(cs: seq<Company>)
    ensures CompaniesTotal(cs).o >= 1000001 * Count(cs, Above1MTotal)
  {
    if cs != [] {
      Above1MTotalShare(cs[..|cs| - 1]);
    }
  }

  /** The combined tab: its rows and its cards. */
  datatype CombinedView = CombinedView(rows: seq<CombinedRow>, stats: CombinedStats)

  // ---------------------------------------------------------------------
  // Swiping between tabs (handleSwipe)
  // ---------------------------------------------------------------------

  /** The tabs in the order a swipe walks them. */
  const Tabs: seq<string> := ["combined", "analytics", "year2025", "year2024", "year2023"]

  /** The horizontal distance a touch must travel to count as a swipe. */
  const SwipeThreshold: real := 50.0

  /** `s.replace(c, '')` for a one-character pattern: the first occurrence
      of `c` dropped. */
  function RemoveFirst(s: string, c: char): (r: string)
    ensures c !in s ==> r == s
    ensures |s| > 0 && s[0] == c ==> r == s[1..]
    ensures c in s ==> RemovedAt(s, c, r)
  {
    if s == [] then []
    else if s[0] == c then
      assert s[..0] + s[1..] == s[1..];
      s[1..]
    else
      var r' := RemoveFirst(s[1..], c);
      RemovedAtCons(s, c, r');
      [s[0]] + r'
  }

  /** `r` is `s` without its first `c`. */
  ghost predicate RemovedAt(s: string, c: char, r: string) {
    exists i :: 0 <= i < |s| && s[i] == c && c !in s[..i] && r == s[..i] + s[i + 1..]
  }

  lemma RemovedAtCons(s: string, c: char, r: string)
    requires s != [] && s[0] != c
    requires c in s[1..] ==> RemovedAt(s[1..], c, r)
    ensures c in s ==> RemovedAt(s, c, [s[0]] + r)
  {
    if c in s {
      var k :| 0 <= k < |s| && s[k] == c;
      assert s[1..][k - 1] == c;
      var i :| 0 <= i < |s[1..]| && s[1..][i] == c && c !in s[1..][..i] && r == s[1..][..i] + s[1..][i + 1..];
      RemovedAtShift(s, c, r, i);
    }
  }

  lemma RemovedAtShift(s: string, c: char, r: string, i: nat)
    requires s != [] && s[0] != c
    requires i < |s[1..]| && s[1..][i] == c && c !in s[1..][..i] && r == s[1..][..i] + s[1..][i + 1..]
    ensures RemovedAt(s, c, [s[0]] + r)
  {
    var j := i + 1;
    assert s[..j] == [s[0]] + s[1..][..i];
    assert s[j + 1..] == s[1..][i + 1..];
    assert [s[0]] + r == s[..j] + s[j + 1..];
    assert s[j] == c && c !in s[..j];
  }



  /** `xs.indexOf(x)`: the first position holding `x`, or -1. */
  function IndexOf(xs: seq<string>, x: string): (r: int)
    ensures -1 <= r < |xs|
    ensures r == -1 <==> x !in xs
    ensures r >= 0 ==> xs[r] == x && x !in xs[..r]
  {
    if xs == [] then -1
    else if xs[0] == x then 0
    else
      var i := IndexOf(xs[1..], x);
      if i == -1 then -1 else i + 1
  }

  /** The tab a touch from `startX` to `endX` switches to, given the
      `data-bs-target` of the active tab: the next tab for a swipe to the
      left, the previous one for a swipe to the right, both cyclically;
      nothing for a short movement, a missing or empty target, or a target
      that is not one of the tabs. */
  function SwipeTarget(startX: real, endX: real, activeTab: Option<string>): (r: Option<string>)
    ensures r.Some? ==> r.value in Tabs
    ensures -SwipeThreshold <= startX - endX <= SwipeThreshold ==> r == None
  {
    var diff := startX - endX;
    if -SwipeThreshold <= diff <= SwipeThreshold then None
    else if activeTab.None? || activeTab.value == "" then None
    else
      var current := IndexOf(Tabs, RemoveFirst(activeTab.value, '#'));
      if current == -1 then None
      else
        var next := if diff > 0.0 then (current + 1) % |Tabs| else (current - 1 + |Tabs|) % |Tabs|;
        Some(Tabs[next])
  }

  /** No tab name holds a `#`, and each occurs once. */
  lemma TabsPlain(i: int)
    requires 0 <= i < |Tabs|
    ensures '#' !in Tabs[i]
    ensures IndexOf(Tabs, Tabs[i]) == i
  {
    assert Tabs[0] == "combined";
    assert Tabs[1] == "analytics";
    assert Tabs[2] == "year2025";
    assert Tabs[3] == "year2024";
    assert Tabs[4] == "year2023";
  }

  /** A swipe to the left moves to the next tab, a swipe to the right to
      the previous one, wrapping around at both ends. */
  lemma SwipeSteps(i: int, x: real, d: real)
    requires 0 <= i < |Tabs| && d > SwipeThreshold
    ensures SwipeTarget(x + d, x, Some("#" + Tabs[i])) == Some(Tabs[(i + 1) % |Tabs|])
    ensures SwipeTarget(x, x + d, Some("#" + Tabs[i])) == Some(Tabs[(i - 1 + |Tabs|) % |Tabs|])
  {
    TabsPlain(i);
    assert ("#" + Tabs[i])[1..] == Tabs[i];
  }

  /** A swipe to the left followed by a swipe to the right of the same
      length returns to the tab one started from, and the other way round. */
  lemma SwipeRoundTrip(i: int, x: real, d: real)
    requires 0 <= i < |Tabs| && d > SwipeThreshold
    ensures SwipeTarget(x + d, x, Some("#" + Tabs[i])).Some?
    ensures SwipeTarget(x, x + d, Some("#" + SwipeTarget(x + d, x, Some("#" + Tabs[i])).value)) == Some(Tabs[i])
    ensures SwipeTarget(x, x + d, Some("#" + Tabs[i])).Some?
    ensures SwipeTarget(x + d, x, Some("#" + SwipeTarget(x, x + d, Some("#" + Tabs[i])).value)) == Some(Tabs[i])
  {
    var next, prev := (i + 1) % 5, (i + 4) % 5;
    assert (next + 4) % 5 == i && (prev + 1) % 5 == i;
    SwipeSteps(i, x, d);
    SwipeSteps(next, x, d);
    SwipeSteps(prev, x, d);
  }

  // ---------------------------------------------------------------------
  // The manager
  // ---------------------------------------------------------------------

  /** `DashboardManager`: the loaded files by year and the set of years
      loaded so far. */
  class DashboardManager {
    var datasets: Datasets
    var loadedYears: set<int>

    constructor ()
      ensures datasets == map[] && loadedYears == {}
    {
      datasets := map[];
      loadedYears := {};
    }

    /** What `loadYear` records once a year's file has been parsed: the file
        under its year, and the year among the loaded ones. */
    method StoreYear(year: int, data: YearData)
      modifies this
      ensures datasets == old(datasets)[year := data]
      ensures loadedYears == old(loadedYears) + {year}
    {
      datasets := datasets[year := data];
      loadedYears := loadedYears + {year};
    }

    /** `processYearData`: nothing for a year without a file or without
        `adatok`; otherwise the cards of the year, whose top-ten figure
        comes from sorting the year's records by amount, largest first, in
        place, so that the stored file keeps the sorted order. */
    method ProcessYearData(year: int) returns (stats: Option<YearStats>)
      modifies this
      ensures loadedYears == old(loadedYears)
      ensures year !in old(datasets) || old(datasets)[year].adatok.None? ==>
                stats == None && datasets == old(datasets)
      ensures year in old(datasets) && old(datasets)[year].adatok.Some? ==>
                && year in datasets && datasets[year].adatok.Some?
                && datasets == old(datasets)[year := datasets[year]]
                && SortedBy(datasets[year].adatok.value, ByAmountDesc)
                && multiset(datasets[year].adatok.value) == multiset(old(datasets)[year].adatok.value)
                && StablySorted(datasets[year].adatok.value, old(datasets)[year].adatok.value, ByAmountDesc)
                && stats == Some(StatsOf(datasets[year].adatok.value))
                && stats.value.count == |old(datasets)[year].adatok.value|
                && Slot(stats.value.totalO, stats.value.totalF) == RecordsTotal(old(datasets)[year].adatok.value)
    {
      if year !in datasets || datasets[year].adatok.None? {
        return None;
      }
      var adatok := datasets[year].adatok.value;
      var total := RecordsTotal(adatok);
      var above := Count(adatok, Above1M);
      var withDonors := Count(adatok, HasDonors);
      var sorted := SortSeq(adatok, ByAmountDesc);
      datasets := datasets[year := YearData(Some(sorted))];
      var top := RecordsTotal(sorted[..Min(10, |sorted|)]).o;
      PermutationLength(sorted, adatok);
      RecordsTotalPermutation(sorted, adatok);
      CountPermutation(sorted, adatok, Above1M);
      CountPermutation(sorted, adatok, HasDonors);
      stats := Some(YearStats(
        |adatok|, total.o, total.f, AvgPerPerson(total.o, total.f), AvgYearlyIncome(total.o, total.f),
        above, AvgPerPerson(total.o, withDonors), top));
    }

    /** `updateCombinedData`: nothing before any year is loaded; otherwise
        one row per tax number merged over the loaded years, and the cards
        of the combined tab, whose totals are those of all loaded records. */
    method UpdateCombinedData() returns (view: Option<CombinedView>)
      ensures view.None? <==> loadedYears == {}
      ensures view.Some? ==>
                && view.value.rows == Map(CombinedRowOf, CombinedCompanies(datasets))
                && view.value.stats == CombinedStatsOf(CombinedCompanies(datasets))
                && view.value.stats.totalCompanies == |TaxIds(datasets)|
                && Slot(view.value.stats.totalO, view.value.stats.totalF) == RecordsTotal(AllRecords(datasets))
    {
      if loadedYears == {} {
        return None;
      }
      var m := Aggregate(datasets, TaxKey);
      AggregateTotals(datasets, TaxKey, 0);
      var cs := Values(m);
      var rows := Map(CombinedRowOf, cs);
      view := Some(CombinedView(rows, CombinedStatsOf(cs)));
      CombinedCompaniesCorrect(datasets);
      CombinedConserves(datasets);
    }
  }
}
