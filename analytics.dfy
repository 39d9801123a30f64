/** The analytical views of the dashboard (`window.analyticsManager`).
    Each view merges the loaded years by company name, keeps the companies
    that meet the view's criterion, builds one row per kept company, and
    (for most views) orders the rows by one column, largest first. */
module Analytics {
  import opened Common
  import opened Records
  import opened Aggregation

  // ---------------------------------------------------------------------
  // The name-keyed merge
  // ---------------------------------------------------------------------

  /** The views join records by company name (`companies[d.n]`). */
  function NameKey(r: Record): string { r.name }

  /** The company names that occur in some loaded year. */
  ghost function Names(ds: Datasets): set<string> {
    set r | r in AllRecords(ds) :: r.name
  }

  /** Amount and donor count of company `name` in year `Years[yi]`. */
  function NameSlot(ds: Datasets, yi: YearIndex, name: string): Slot {
    YearSlot(ds, yi, NameKey, name)
  }

  /** With names as keys, the merged dictionary has exactly one entry per
      name that occurs, each entry carries its own name, and its slots are
      the per-year sums of that name's records. */
  lemma NameMerge(ds: Datasets, m: Merged<string>)
    requires MergedFrom(ds, NameKey, m)
    ensures ByName(ds, m)
    ensures |m.order| == |Names(ds)|
  {
    forall k ensures k in m.companies <==> k in Names(ds) {
      if k in Names(ds) {
        var r :| r in AllRecords(ds) && r.name == k;
        AllRecordsYear(ds, r);
        var yi: YearIndex :| r in YearRecords(ds, Years[yi]);
        assert r in YearRecords(ds, Years[yi]) && NameKey(r) == k;
        assert Occurs(ds, NameKey, k);
      }
      if k in m.companies {
        assert Occurs(ds, NameKey, k);
        var yi: YearIndex, r :| r in YearRecords(ds, Years[yi]) && NameKey(r) == k;
        AllRecordsYear(ds, r);
      }
    }
    DistinctCard(m.order);
    forall k | k in m.companies ensures m.companies[k].name == k {
      var i :| FirstWith(Entries(ds), NameKey, k, i) && m.companies[k].name == Entries(ds)[i].rec.name;
    }
  }

  /** The name-keyed merge of `ds`, seen from the names. */
  ghost predicate ByName(ds: Datasets, m: Merged<string>) {
    && Distinct(m.order)
    && m.companies.Keys == Names(ds)
    && Elements(m.order) == Names(ds)
    && (forall k :: k in m.companies ==> m.companies[k].name == k)
    && (forall k, yi: YearIndex :: k in m.companies ==> m.companies[k].At(yi) == NameSlot(ds, yi, k))
  }

  /** A company entry that is the merge of the records carrying its name. */
  ghost predicate FromName(ds: Datasets, c: Company) {
    && c.y2023 == NameSlot(ds, 0, c.name)
    && c.y2024 == NameSlot(ds, 1, c.name)
    && c.y2025 == NameSlot(ds, 2, c.name)
  }

  function CompanyName(c: Company): string { c.name }

  /** `cs` lists the name-keyed companies of `ds`: each name once, and each
      company with its own per-year slots. */
  ghost predicate ByNameOf(ds: Datasets, cs: seq<Company>) {
    && Distinct(Map(CompanyName, cs))
    && Elements(Map(CompanyName, cs)) == Names(ds)
    && forall i :: 0 <= i < |cs| ==> FromName(ds, cs[i])
  }

  /** `Object.values(companies)` of the name-keyed merge: one entry per
      name that occurs, in the order the names were first met, each the
      merge of that name's records. */
  method CompaniesByName(ds: Datasets) returns (cs: seq<Company>)
    ensures Distinct(Map(CompanyName, cs))
    ensures Elements(Map(CompanyName, cs)) == Names(ds)
    ensures |cs| == |Names(ds)|
    ensures forall i :: 0 <= i < |cs| ==> FromName(ds, cs[i])
    ensures cs == NameCompanies(ds)
  {
    var m := Aggregate(ds, NameKey);
    NameMerge(ds, m);
    NameValues(ds, m);
    cs := Values(m);
  }

  /** `Object.values(companies)` of the name-keyed merge. */
  ghost function NameCompanies(ds: Datasets): seq<Company> {
    MergeOrder(Entries(ds), NameKey);
    Values(Merge(Entries(ds), NameKey))
  }

  /** The views walk the companies in the order their names were first met
      among the loaded records, year after year. */
  lemma NameCompaniesOrder(ds: Datasets)
    ensures FirstMetOrder(AllRecords(ds), NameKey, Map(CompanyName, NameCompanies(ds)))
    ensures KeysOf(AllRecords(ds), NameKey, Map(CompanyName, NameCompanies(ds)))
  {
    var m := Merge(Entries(ds), NameKey);
    MergeCorrect(ds, NameKey);
    NameMerge(ds, m);
    NameValues(ds, m);
    MergeFirstMet(Entries(ds), NameKey);
    EntriesRecords(ds, 3);
    assert RecordsUpTo(ds, 3) == AllRecords(ds) by {
      assert RecordsUpTo(ds, 1) == YearRecords(ds, 2023);
    }
  }

  lemma NameValues(ds: Datasets, m: Merged<string>)
    requires ByName(ds, m)
    ensures forall k :: k in m.order ==> k in m.companies
    ensures Map(CompanyName, Values(m)) == m.order
    ensures Distinct(Map(CompanyName, Values(m)))
    ensures Elements(Map(CompanyName, Values(m))) == Names(ds)
    ensures forall i :: 0 <= i < |Values(m)| ==> FromName(ds, Values(m)[i])
  {
    assert forall k :: k in m.order ==> k in Elements(m.order);
    var cs := Values(m);
    assert Map(CompanyName, cs) == m.order;
    forall i | 0 <= i < |cs| ensures FromName(ds, cs[i]) {
      assert m.order[i] in Elements(m.order);
    }
  }

  // ---------------------------------------------------------------------
  // Derived figures
  // ---------------------------------------------------------------------

  /** The estimated monthly income per donor, `(o / f / 0.0015) / 12`: a
      donor gives 0.15 % of a year's income, so `o / f` given per donor
      stands for `o / f / 0.0015` of yearly income. Zero without donors. */
  function MonthlyPerCapita(o: nat, f: nat): (r: real)
    ensures f == 0 ==> r == 0.0
    ensures f > 0 ==> r * (0.018 * f as real) == o as real
    ensures r >= 0.0
  {
    if f > 0 then ((o as real / f as real) / 0.0015) / 12.0 else 0.0
  }

  /** The monthly estimate exceeds 3,000,000 exactly when the amount
      exceeds 54,000 per donor. */
  lemma MonthlyThreshold(o: nat, f: nat)
    requires f > 0
    ensures MonthlyPerCapita(o, f) > 3000000.0 <==> o > 54000 * f
  {
    var r := MonthlyPerCapita(o, f);
    var d := 0.018 * f as real;
    assert r * d == o as real;
    assert 3000000.0 * d == (54000 * f) as real;
    assert r * d - 3000000.0 * d == (r - 3000000.0) * d;
    if r > 3000000.0 {
      PositiveProduct(r - 3000000.0, d);
    } else if r < 3000000.0 {
      PositiveProduct(3000000.0 - r, d);
    }
  }

  lemma PositiveProduct(a: real, b: real)
    requires a > 0.0 && b > 0.0
    ensures a * b > 0.0
  {
  }

  /** Year-over-year change as a fraction of the earlier year: `(cur -
      prev) / prev`, or 1 when only the later year has an amount, 0 when
      neither has. */
  function FractionChange(prev: nat, cur: nat): (r: real)
    ensures prev > 0 ==> r * prev as real == cur as real - prev as real
    ensures prev == 0 ==> r == (if cur > 0 then 1.0 else 0.0)
    ensures r > 0.0 <==> cur > prev
    ensures r < 0.0 <==> cur < prev
  {
    if prev > 0 then (cur as real - prev as real) / prev as real
    else if cur > 0 then 1.0
    else 0.0
  }

  /** The CSS class a change value is shown with. */
  datatype ChangeClass = Positive | Negative | Neutral

  /** `formatPercentChange` / `formatChangeAmount`: the class chosen by the
      sign of the value. */
  function ClassOf(v: real): ChangeClass {
    if v > 0.0 then Positive else if v < 0.0 then Negative else Neutral
  }

  /** The explicit sign prefix: `+` for a positive value, none otherwise
      (a negative number prints its own minus). */
  function SignOf(v: real): string {
    if v > 0.0 then "+" else ""
  }

  /** The percentage column and the amount column of a change agree: both
      are shown as growth exactly when the later year is larger, as decline
      exactly when it is smaller. */
  lemma ChangeClassAgrees(prev: nat, cur: nat)
    ensures ClassOf(FractionChange(prev, cur)) == ClassOf(cur as real - prev as real)
    ensures ClassOf(FractionChange(prev, cur)) == Positive <==> cur > prev
    ensures ClassOf(FractionChange(prev, cur)) == Negative <==> cur < prev
    ensures SignOf(FractionChange(prev, cur)) == "+" <==> cur > prev
  {
  }

  // ---------------------------------------------------------------------
  // Views as sets of names
  // ---------------------------------------------------------------------

  /** `rows` holds exactly one row for each name of `wanted`. */
  ghost predicate ListsExactly<R>(rows: seq<R>, name: R -> string, wanted: set<string>) {
    Distinct(Map(name, rows)) && Elements(Map(name, rows)) == wanted
  }

  /** Sorting a view keeps what it lists. */
  lemma PermutedListing<R>(rows: seq<R>, result: seq<R>, name: R -> string, wanted: set<string>)
    requires multiset(rows) == multiset(result)
    requires ListsExactly(result, name, wanted)
    ensures ListsExactly(rows, name, wanted)
  {
    PermutedKeysDistinct(rows, result, name);
    PermutedKeys(rows, result, name);
  }

  /** Appending the row of `order[i]` when it is wanted extends a listing
      of the wanted names among `order[..i]` to one among `order[..i + 1]`. */
  lemma ListingStep<R>(result: seq<R>, name: R -> string, order: seq<string>, i: int,
                       keep: set<string>, row: R, take: bool)
    requires 0 <= i < |order|
    requires Distinct(order)
    requires ListsExactly(result, name, Elements(order[..i]) * keep)
    requires take <==> order[i] in keep
    requires take ==> name(row) == order[i]
    ensures ListsExactly(if take then result + [row] else result, name, Elements(order[..i + 1]) * keep)
  {
    assert order[..i + 1] == order[..i] + [order[i]];
    assert Elements(order[..i + 1]) == Elements(order[..i]) + {order[i]};
    assert order[i] !in Elements(order[..i]);
    if take {
      MapSnoc(name, result, row);
      assert name(row) !in Elements(Map(name, result));
      var ns := Map(name, result + [row]);
      forall a, b | 0 <= a < b < |ns| ensures ns[a] != ns[b] {
        if b == |result| {
          assert ns[a] == Map(name, result)[a];
          assert ns[a] in Elements(Map(name, result));
        } else {
          assert ns[a] == Map(name, result)[a] && ns[b] == Map(name, result)[b];
        }
      }
      assert Elements(ns) == Elements(Map(name, result)) + {name(row)};
    }
  }

  /** The filter loop pushes, in the order of `cs`, the row of each
      company that `p` keeps. */
  lemma KeptRowsStep<R>(rows: seq<R>, rowOf: Company -> R, cs: seq<Company>, i: int, p: Company -> bool, take: bool)
    requires 0 <= i < |cs|
    requires rows == Map(rowOf, Kept(cs[..i], p))
    requires take <==> p(cs[i])
    ensures (if take then rows + [rowOf(cs[i])] else rows) == Map(rowOf, Kept(cs[..i + 1], p))
  {
    assert cs[..i + 1] == cs[..i] + [cs[i]];
    KeptSnoc(cs[..i], cs[i], p);
    if take {
      MapSnoc(rowOf, Kept(cs[..i], p), cs[i]);
    }
  }

  lemma {:induction false} KeptRowsDone<R>(rows: seq<R>, rowOf: Company -> R, cs: seq<Company>, p: Company -> bool)
    requires rows == Map(rowOf, Kept(cs[..|cs|], p))
    ensures rows == Map(rowOf, Kept(cs, p))
  {
    KeptWhole(cs, p);
  }

  /** The same for rows known by their names only. */
  lemma KeptNamesStep<R>(rows: seq<R>, name: R -> string, cs: seq<Company>, i: int, p: Company -> bool,
                         take: bool, row: R)
    requires 0 <= i < |cs|
    requires Map(name, rows) == Map(CompanyName, Kept(cs[..i], p))
    requires take <==> p(cs[i])
    requires name(row) == cs[i].name
    ensures Map(name, if take then rows + [row] else rows) == Map(CompanyName, Kept(cs[..i + 1], p))
  {
    assert cs[..i + 1] == cs[..i] + [cs[i]];
    KeptSnoc(cs[..i], cs[i], p);
    if take {
      MapSnoc(CompanyName, Kept(cs[..i], p), cs[i]);
      MapSnoc(name, rows, row);
    }
  }

  /** A listing of the wanted names among all of `order`. */
  lemma ListingDone<R>(result: seq<R>, name: R -> string, order: seq<string>, keep: set<string>)
    requires ListsExactly(result, name, Elements(order[..|order|]) * keep)
    ensures ListsExactly(result, name, Elements(order) * keep)
  {
    assert order[..|order|] == order;
  }

  // ---------------------------------------------------------------------
  // Top revenue (processTopRevenue)
  // ---------------------------------------------------------------------

  /** A row of the top-revenue table. */
  datatype TopRevenueRow = TopRevenueRow(
    name: string,
    o2023: nat, f2023: nat,
    o2024: nat, f2024: nat,
    change2324: real,
    o2025: nat, f2025: nat,
    change2425: real,
    monthlyIncome2025: real,
    avgMonthlyIncome: real,
    totalSum: nat)

  function TopRevenueName(row: TopRevenueRow): string { row.name }

  /** Some year in which the company has donors and more than 54,000 per
      donor, i.e. an estimated monthly income per donor above 3,000,000. */
  ghost predicate HighIncome(ds: Datasets, k: string) {
    exists yi: YearIndex :: NameSlot(ds, yi, k).f > 0 && NameSlot(ds, yi, k).o > 54000 * NameSlot(ds, yi, k).f
  }

  /** The same test on a merged company. */
  ghost predicate HighIncomeCompany(c: Company) {
    exists yi: YearIndex :: c.At(yi).f > 0 && c.At(yi).o > 54000 * c.At(yi).f
  }

  ghost function HighIncomeNames(ds: Datasets): set<string> {
    set k | k in Names(ds) && HighIncome(ds, k)
  }

  /** The figures of a top-revenue row are those of its company. */
  ghost predicate TopRevenueRowFor(ds: Datasets, row: TopRevenueRow) {
    TopRevenueFigures(row, NameSlot(ds, 0, row.name), NameSlot(ds, 1, row.name), NameSlot(ds, 2, row.name))
  }

  /** The figures of a top-revenue row with yearly counters `s0`, `s1`, `s2`:
      amounts and donors per year, the two yearly changes, the 2025 and the
      three-year monthly estimates per donor, and the three-year total. */
  ghost predicate TopRevenueFigures(row: TopRevenueRow, s0: Slot, s1: Slot, s2: Slot) {
    && row.o2023 == s0.o && row.f2023 == s0.f
    && row.o2024 == s1.o && row.f2024 == s1.f
    && row.o2025 == s2.o && row.f2025 == s2.f
    && row.change2324 == FractionChange(s0.o, s1.o)
    && row.change2425 == FractionChange(s1.o, s2.o)
    && row.monthlyIncome2025 == MonthlyPerCapita(s2.o, s2.f)
    && row.avgMonthlyIncome == MonthlyPerCapita(s0.o + s1.o + s2.o, s0.f + s1.f + s2.f)
    && row.totalSum == s0.o + s1.o + s2.o
  }

  /** The top-revenue table: one row per high-income company, each with
      its own figures. */
  ghost predicate TopRevenueSpec(ds: Datasets, rows: seq<TopRevenueRow>) {
    && ListsExactly(rows, TopRevenueName, HighIncomeNames(ds))
    && forall i :: 0 <= i < |rows| ==> TopRevenueRowFor(ds, rows[i])
  }

  /** The `qualifies` loop over the three years: some year has donors and
      a monthly estimate per donor above 3,000,000. */
  method HasHighIncome(c: Company) returns (qualifies: bool)
    ensures qualifies <==> exists yi: YearIndex :: c.At(yi).f > 0 && c.At(yi).o > 54000 * c.At(yi).f
  {
    qualifies := false;
    for yi := 0 to 3
      invariant qualifies <==> exists j: YearIndex :: j < yi && c.At(j).f > 0 && c.At(j).o > 54000 * c.At(j).f
    {
      var s := c.At(yi);
      if s.f > 0 {
        var avgOffer := s.o as real / s.f as real;
        var estYearPerCapita := avgOffer / 0.0015;
        var estMonthPerCapita := estYearPerCapita / 12.0;
        MonthlyThreshold(s.o, s.f);
        if estMonthPerCapita > 3000000.0 {
          qualifies := true;
        }
      }
    }
  }

  /** The rows built from the first `i` companies of `order`. */
  ghost predicate TopRevenueUpTo(ds: Datasets, order: seq<string>, i: nat, rows: seq<TopRevenueRow>)
    requires i <= |order|
  {
    && ListsExactly(rows, TopRevenueName, Elements(order[..i]) * HighIncomeNames(ds))
    && forall p :: 0 <= p < |rows| ==> TopRevenueRowFor(ds, rows[p])
  }

  /** One turn of the filter loop over the merged companies. */
  lemma TopRevenueStep(ds: Datasets, order: seq<string>, i: nat, rows: seq<TopRevenueRow>,
                       c: Company, qualifies: bool, row: TopRevenueRow)
    requires i < |order| && Distinct(order)
    requires TopRevenueUpTo(ds, order, i, rows)
    requires FromName(ds, c) && c.name == order[i] && c.name in Names(ds)
    requires qualifies <==> exists yi: YearIndex :: c.At(yi).f > 0 && c.At(yi).o > 54000 * c.At(yi).f
    requires row.name == c.name && TopRevenueFigures(row, c.y2023, c.y2024, c.y2025)
    ensures TopRevenueUpTo(ds, order, i + 1, if qualifies then rows + [row] else rows)
  {
    assert forall yi: YearIndex :: c.At(yi) == NameSlot(ds, yi, c.name);
    assert qualifies <==> order[i] in HighIncomeNames(ds);
    ListingStep(rows, TopRevenueName, order, i, HighIncomeNames(ds), row, qualifies);
    if qualifies {
      assert c.y2023 == c.At(0) && c.y2024 == c.At(1) && c.y2025 == c.At(2);
      assert TopRevenueRowFor(ds, row);
      assert forall p :: 0 <= p < |rows| ==> (rows + [row])[p] == rows[p];
    }
  }

  /** Builds the top-revenue rows (without storing them). */
  method TopRevenue(ds: Datasets) returns (rows: seq<TopRevenueRow>)
    ensures TopRevenueSpec(ds, rows)
    ensures Map(TopRevenueName, rows) == Map(CompanyName, Kept(NameCompanies(ds), HighIncomeCompany))
  {
    var cs := CompaniesByName(ds);
    rows := [];
    for i := 0 to |cs|
      invariant TopRevenueUpTo(ds, Map(CompanyName, cs), i, rows)
      invariant Map(TopRevenueName, rows) == Map(CompanyName, Kept(cs[..i], HighIncomeCompany))
    {
      var qualifies := HasHighIncome(cs[i]);
      var row := TopRevenueRowOf(cs[i]);
      ghost var before := rows;
      if qualifies {
        rows := rows + [row];
      }
      TopRevenueFilterStep(ds, cs, i, before, rows, qualifies, row);
    }
    TopRevenueFilterDone(ds, cs, rows);
  }

  /** One turn of the filter loop keeps both of its invariants. */
  lemma TopRevenueFilterStep(ds: Datasets, cs: seq<Company>, i: int, rows: seq<TopRevenueRow>,
                             rows': seq<TopRevenueRow>, qualifies: bool, row: TopRevenueRow)
    requires ByNameOf(ds, cs) && 0 <= i < |cs|
    requires TopRevenueUpTo(ds, Map(CompanyName, cs), i, rows)
    requires Map(TopRevenueName, rows) == Map(CompanyName, Kept(cs[..i], HighIncomeCompany))
    requires qualifies <==> HighIncomeCompany(cs[i])
    requires row.name == cs[i].name && TopRevenueFigures(row, cs[i].y2023, cs[i].y2024, cs[i].y2025)
    requires rows' == if qualifies then rows + [row] else rows
    ensures TopRevenueUpTo(ds, Map(CompanyName, cs), i + 1, rows')
    ensures Map(TopRevenueName, rows') == Map(CompanyName, Kept(cs[..i + 1], HighIncomeCompany))
  {
    var names := Map(CompanyName, cs);
    assert cs[i].name in Names(ds) by {
      assert names[i] == cs[i].name && names[i] in Elements(names);
    }
    TopRevenueStep(ds, names, i, rows, cs[i], qualifies, row);
    KeptNamesStep(rows, TopRevenueName, cs, i, HighIncomeCompany, qualifies, row);
  }

  lemma {:induction false} TopRevenueFilterDone(ds: Datasets, cs: seq<Company>, rows: seq<TopRevenueRow>)
    requires Elements(Map(CompanyName, cs)) == Names(ds)
    requires TopRevenueUpTo(ds, Map(CompanyName, cs), |cs|, rows)
    requires Map(TopRevenueName, rows) == Map(CompanyName, Kept(cs[..|cs|], HighIncomeCompany))
    ensures TopRevenueSpec(ds, rows)
    ensures Map(TopRevenueName, rows) == Map(CompanyName, Kept(cs, HighIncomeCompany))
  {
    var names := Map(CompanyName, cs);
    ListingDone(rows, TopRevenueName, names, HighIncomeNames(ds));
    assert Elements(names) * HighIncomeNames(ds) == HighIncomeNames(ds);
    KeptWhole(cs, HighIncomeCompany);
  }

  /** The row pushed for a qualifying company. */
  method TopRevenueRowOf(c: Company) returns (row: TopRevenueRow)
    ensures row.name == c.name
    ensures TopRevenueFigures(row, c.y2023, c.y2024, c.y2025)
  {
    var change2324 := FractionChange(c.y2023.o, c.y2024.o);
    var change2425 := FractionChange(c.y2024.o, c.y2025.o);
    var monthlyIncome2025 := 0.0;
    if c.y2025.f > 0 {
      var avgOffer := c.y2025.o as real / c.y2025.f as real;
      monthlyIncome2025 := (avgOffer / 0.0015) / 12.0;
    }
    var totalSum := c.TotalO();
    var totalCnt := c.TotalF();
    var avgMonthlyIncome := 0.0;
    if totalCnt > 0 {
      var avgOffer := totalSum as real / totalCnt as real;
      avgMonthlyIncome := (avgOffer / 0.0015) / 12.0;
    }
    row := TopRevenueRow(c.name, c.y2023.o, c.y2023.f, c.y2024.o, c.y2024.f, change2324,
                         c.y2025.o, c.y2025.f, change2425, monthlyIncome2025, avgMonthlyIncome, totalSum);
  }

  // ---------------------------------------------------------------------
  // Special (processSpecial)
  // ---------------------------------------------------------------------

  /** A row of the special table: companies with few donors but a large amount. */
  datatype SpecialRow = SpecialRow(
    name: string,
    o2023: nat, f2023: nat,
    o2024: nat, f2024: nat,
    o2025: nat, f2025: nat,
    totalSum: nat)

  function SpecialName(row: SpecialRow): string { row.name }

  /** Some year in which the company has between one and four donors and
      more than 1,000,000 offered. */
  ghost predicate FewDonorsLargeAmount(ds: Datasets, k: string) {
    exists yi: YearIndex :: 0 < NameSlot(ds, yi, k).f < 5 && NameSlot(ds, yi, k).o > 1000000
  }

  /** The same test on a merged company. */
  ghost predicate FewDonorsCompany(c: Company) {
    exists yi: YearIndex :: 0 < c.At(yi).f < 5 && c.At(yi).o > 1000000
  }

  ghost function SpecialNames(ds: Datasets): set<string> {
    set k | k in Names(ds) && FewDonorsLargeAmount(ds, k)
  }

  /** The figures of a special row are its company's yearly amounts and
      donors, and their three-year total. */
  ghost predicate SpecialRowFor(ds: Datasets, row: SpecialRow) {
    var s0, s1, s2 := NameSlot(ds, 0, row.name), NameSlot(ds, 1, row.name), NameSlot(ds, 2, row.name);
    && row.o2023 == s0.o && row.f2023 == s0.f
    && row.o2024 == s1.o && row.f2024 == s1.f
    && row.o2025 == s2.o && row.f2025 == s2.f
    && row.totalSum == s0.o + s1.o + s2.o
  }

  /** The special table: one row per qualifying company, with its own
      figures, the largest three-year total first. */
  ghost predicate SpecialSpec(ds: Datasets, rows: seq<SpecialRow>) {
    && ListsExactly(rows, SpecialName, SpecialNames(ds))
    && (forall i :: 0 <= i < |rows| ==> SpecialRowFor(ds, rows[i]))
    && (forall i, j :: 0 <= i < j < |rows| ==> rows[i].totalSum >= rows[j].totalSum)
  }

  /** The `qualifies` loop of the special view. */
  method HasFewDonorsLargeAmount(c: Company) returns (qualifies: bool)
    ensures qualifies <==> exists yi: YearIndex :: 0 < c.At(yi).f < 5 && c.At(yi).o > 1000000
  {
    qualifies := false;
    for yi := 0 to 3
      invariant qualifies <==> exists j: YearIndex :: j < yi && 0 < c.At(j).f < 5 && c.At(j).o > 1000000
    {
      var s := c.At(yi);
      if s.f > 0 && s.f < 5 && s.o > 1000000 {
        qualifies := true;
      }
    }
  }

  function SpecialRowOf(c: Company): SpecialRow {
    SpecialRow(c.name, c.y2023.o, c.y2023.f, c.y2024.o, c.y2024.f, c.y2025.o, c.y2025.f, c.TotalO())
  }

  ghost predicate SpecialUpTo(ds: Datasets, order: seq<string>, i: nat, rows: seq<SpecialRow>)
    requires i <= |order|
  {
    && ListsExactly(rows, SpecialName, Elements(order[..i]) * SpecialNames(ds))
    && forall p :: 0 <= p < |rows| ==> SpecialRowFor(ds, rows[p])
  }

  lemma SpecialStep(ds: Datasets, order: seq<string>, i: nat, rows: seq<SpecialRow>,
                    c: Company, qualifies: bool)
    requires i < |order| && Distinct(order)
    requires SpecialUpTo(ds, order, i, rows)
    requires FromName(ds, c) && c.name == order[i] && c.name in Names(ds)
    requires qualifies <==> exists yi: YearIndex :: 0 < c.At(yi).f < 5 && c.At(yi).o > 1000000
    ensures SpecialUpTo(ds, order, i + 1, if qualifies then rows + [SpecialRowOf(c)] else rows)
  {
    assert forall yi: YearIndex :: c.At(yi) == NameSlot(ds, yi, c.name);
    assert qualifies <==> order[i] in SpecialNames(ds);
    ListingStep(rows, SpecialName, order, i, SpecialNames(ds), SpecialRowOf(c), qualifies);
    if qualifies {
      assert c.y2023 == c.At(0) && c.y2024 == c.At(1) && c.y2025 == c.At(2);
      assert SpecialRowFor(ds, SpecialRowOf(c));
      assert forall p :: 0 <= p < |rows| ==> (rows + [SpecialRowOf(c)])[p] == rows[p];
    }
  }

  /** The comparator `(a, b) => b[7] - a[7]`: larger total first. */
  function ByTotalDesc(a: SpecialRow, b: SpecialRow): bool { a.totalSum >= b.totalSum }

  /** Sorting the special rows keeps them and orders them by total. */
  lemma SpecialSorted(ds: Datasets, result: seq<SpecialRow>, rows: seq<SpecialRow>)
    requires ListsExactly(result, SpecialName, SpecialNames(ds))
    requires forall p :: 0 <= p < |result| ==> SpecialRowFor(ds, result[p])
    requires multiset(rows) == multiset(result) && SortedBy(rows, ByTotalDesc)
    ensures SpecialSpec(ds, rows)
  {
    PermutedListing(rows, result, SpecialName, SpecialNames(ds));
    forall p | 0 <= p < |rows| ensures SpecialRowFor(ds, rows[p]) {
      assert rows[p] in multiset(result);
    }
  }

  /** Builds the special rows (without storing them). */
  method Special(ds: Datasets) returns (rows: seq<SpecialRow>)
    ensures SpecialSpec(ds, rows)
    ensures StablySorted(rows, Map(SpecialRowOf, Kept(NameCompanies(ds), FewDonorsCompany)), ByTotalDesc)
  {
    var cs := CompaniesByName(ds);
    var result := SpecialFilter(ds, cs);
    rows := SortSeq(result, ByTotalDesc);
    SpecialSorted(ds, result, rows);
  }

  /** The filter loop of the special view: the row of each qualifying
      company, in the order of `cs`. */
  method SpecialFilter(ds: Datasets, cs: seq<Company>) returns (result: seq<SpecialRow>)
    requires ByNameOf(ds, cs)
    ensures ListsExactly(result, SpecialName, SpecialNames(ds))
    ensures forall p :: 0 <= p < |result| ==> SpecialRowFor(ds, result[p])
    ensures result == Map(SpecialRowOf, Kept(cs, FewDonorsCompany))
  {
    result := [];
    for i := 0 to |cs|
      invariant SpecialUpTo(ds, Map(CompanyName, cs), i, result)
      invariant result == Map(SpecialRowOf, Kept(cs[..i], FewDonorsCompany))
    {
      var qualifies := HasFewDonorsLargeAmount(cs[i]);
      ghost var before := result;
      if qualifies {
        result := result + [SpecialRowOf(cs[i])];
      }
      SpecialFilterStep(ds, cs, i, before, result, qualifies);
    }
    SpecialFilterDone(ds, cs, result);
  }

  /** One turn of the filter loop keeps both of its invariants. */
  lemma SpecialFilterStep(ds: Datasets, cs: seq<Company>, i: int, rows: seq<SpecialRow>,
                          rows': seq<SpecialRow>, qualifies: bool)
    requires ByNameOf(ds, cs) && 0 <= i < |cs|
    requires SpecialUpTo(ds, Map(CompanyName, cs), i, rows)
    requires rows == Map(SpecialRowOf, Kept(cs[..i], FewDonorsCompany))
    requires qualifies <==> FewDonorsCompany(cs[i])
    requires rows' == if qualifies then rows + [SpecialRowOf(cs[i])] else rows
    ensures SpecialUpTo(ds, Map(CompanyName, cs), i + 1, rows')
    ensures rows' == Map(SpecialRowOf, Kept(cs[..i + 1], FewDonorsCompany))
  {
    var names := Map(CompanyName, cs);
    assert cs[i].name in Names(ds) by {
      assert names[i] == cs[i].name && names[i] in Elements(names);
    }
    SpecialStep(ds, names, i, rows, cs[i], qualifies);
    KeptRowsStep(rows, SpecialRowOf, cs, i, FewDonorsCompany, qualifies);
  }

  lemma {:induction false} SpecialFilterDone(ds: Datasets, cs: seq<Company>, rows: seq<SpecialRow>)
    requires Elements(Map(CompanyName, cs)) == Names(ds)
    requires SpecialUpTo(ds, Map(CompanyName, cs), |cs|, rows)
    requires rows == Map(SpecialRowOf, Kept(cs[..|cs|], FewDonorsCompany))
    ensures ListsExactly(rows, SpecialName, SpecialNames(ds))
    ensures forall p :: 0 <= p < |rows| ==> SpecialRowFor(ds, rows[p])
    ensures rows == Map(SpecialRowOf, Kept(cs, FewDonorsCompany))
  {
    var names := Map(CompanyName, cs);
    ListingDone(rows, SpecialName, names, SpecialNames(ds));
    SpecialAll(ds, names);
    KeptRowsDone(rows, SpecialRowOf, cs, FewDonorsCompany);
  }

  lemma {:induction false} SpecialAll(ds: Datasets, names: seq<string>)
    requires Elements(names) == Names(ds)
    ensures Elements(names) * SpecialNames(ds) == SpecialNames(ds)
  {
  }

  // ---------------------------------------------------------------------
  // Single donor (processSingleDonor)
  // ---------------------------------------------------------------------

  /** A row of the single-donor table. */
  datatype SingleDonorRow = SingleDonorRow(
    name: string,
    o2023: nat, f2023: nat,
    o2024: nat, f2024: nat,
    o2025: nat, f2025: nat)

  function SingleDonorName(row: SingleDonorRow): string { row.name }

  /** Exactly one donor in 2025, who offered more than 50,000. */
  ghost function SingleDonorNames(ds: Datasets): set<string> {
    set k | k in Names(ds) && NameSlot(ds, 2, k).f == 1 && NameSlot(ds, 2, k).o > 50000
  }

  ghost predicate SingleDonorRowFor(ds: Datasets, row: SingleDonorRow) {
    var s0, s1, s2 := NameSlot(ds, 0, row.name), NameSlot(ds, 1, row.name), NameSlot(ds, 2, row.name);
    && row.o2023 == s0.o && row.f2023 == s0.f
    && row.o2024 == s1.o && row.f2024 == s1.f
    && row.o2025 == s2.o && row.f2025 == s2.f
  }

  /** The single-donor table: one row per qualifying company, with its own
      figures, the largest 2025 amount first. */
  ghost predicate SingleDonorSpec(ds: Datasets, rows: seq<SingleDonorRow>) {
    && ListsExactly(rows, SingleDonorName, SingleDonorNames(ds))
    && (forall i :: 0 <= i < |rows| ==> SingleDonorRowFor(ds, rows[i]))
    && (forall i, j :: 0 <= i < j < |rows| ==> rows[i].o2025 >= rows[j].o2025)
  }

  /** The same test on a merged company. */
  ghost predicate SingleDonorCompany(c: Company) {
    c.y2025.f == 1 && c.y2025.o > 50000
  }

  function SingleDonorRowOf(c: Company): SingleDonorRow {
    SingleDonorRow(c.name, c.y2023.o, c.y2023.f, c.y2024.o, c.y2024.f, c.y2025.o, c.y2025.f)
  }

  ghost predicate SingleDonorUpTo(ds: Datasets, order: seq<string>, i: nat, rows: seq<SingleDonorRow>)
    requires i <= |order|
  {
    && ListsExactly(rows, SingleDonorName, Elements(order[..i]) * SingleDonorNames(ds))
    && forall p :: 0 <= p < |rows| ==> SingleDonorRowFor(ds, rows[p])
  }

  lemma SingleDonorStep(ds: Datasets, order: seq<string>, i: nat, rows: seq<SingleDonorRow>, c: Company, take: bool)
    requires i < |order| && Distinct(order)
    requires SingleDonorUpTo(ds, order, i, rows)
    requires FromName(ds, c) && c.name == order[i] && c.name in Names(ds)
    requires take <==> c.y2025.f == 1 && c.y2025.o > 50000
    ensures SingleDonorUpTo(ds, order, i + 1, if take then rows + [SingleDonorRowOf(c)] else rows)
  {
    assert c.y2023 == c.At(0) && c.y2024 == c.At(1) && c.y2025 == c.At(2);
    assert take <==> order[i] in SingleDonorNames(ds);
    ListingStep(rows, SingleDonorName, order, i, SingleDonorNames(ds), SingleDonorRowOf(c), take);
    if take {
      assert SingleDonorRowFor(ds, SingleDonorRowOf(c));
      assert forall p :: 0 <= p < |rows| ==> (rows + [SingleDonorRowOf(c)])[p] == rows[p];
    }
  }

  /** One turn of the filter loop keeps both of its invariants. */
  lemma SingleDonorFilterStep(ds: Datasets, cs: seq<Company>, i: int, rows: seq<SingleDonorRow>,
                               rows': seq<SingleDonorRow>, take: bool)
    requires ByNameOf(ds, cs) && 0 <= i < |cs|
    requires SingleDonorUpTo(ds, Map(CompanyName, cs), i, rows)
    requires rows == Map(SingleDonorRowOf, Kept(cs[..i], SingleDonorCompany))
    requires take <==> SingleDonorCompany(cs[i])
    requires rows' == if take then rows + [SingleDonorRowOf(cs[i])] else rows
    ensures SingleDonorUpTo(ds, Map(CompanyName, cs), i + 1, rows')
    ensures rows' == Map(SingleDonorRowOf, Kept(cs[..i + 1], SingleDonorCompany))
  {
    var names := Map(CompanyName, cs);
    assert cs[i].name in Names(ds) by {
      assert names[i] == cs[i].name && names[i] in Elements(names);
    }
    SingleDonorStep(ds, names, i, rows, cs[i], take);
    KeptRowsStep(rows, SingleDonorRowOf, cs, i, SingleDonorCompany, take);
  }

  /** The comparator `(a, b) => b[5] - a[5]`: larger 2025 amount first. */
  function By2025Desc(a: SingleDonorRow, b: SingleDonorRow): bool { a.o2025 >= b.o2025 }

  lemma SingleDonorSorted(ds: Datasets, result: seq<SingleDonorRow>, rows: seq<SingleDonorRow>)
    requires ListsExactly(result, SingleDonorName, SingleDonorNames(ds))
    requires forall p :: 0 <= p < |result| ==> SingleDonorRowFor(ds, result[p])
    requires multiset(rows) == multiset(result) && SortedBy(rows, By2025Desc)
    ensures SingleDonorSpec(ds, rows)
  {
    PermutedListing(rows, result, SingleDonorName, SingleDonorNames(ds));
    forall p | 0 <= p < |rows| ensures SingleDonorRowFor(ds, rows[p]) {
      assert rows[p] in multiset(result);
    }
  }

  /** Builds the single-donor rows (without storing them). */
  method SingleDonor(ds: Datasets) returns (rows: seq<SingleDonorRow>)
    ensures SingleDonorSpec(ds, rows)
    ensures StablySorted(rows, Map(SingleDonorRowOf, Kept(NameCompanies(ds), SingleDonorCompany)), By2025Desc)
  {
    var cs := CompaniesByName(ds);
    var result := SingleDonorFilter(ds, cs);
    rows := SortSeq(result, By2025Desc);
    SingleDonorSorted(ds, result, rows);
  }

  /** The filter loop of the single-donor view: the row of each qualifying
      company, in the order of `cs`. */
  method SingleDonorFilter(ds: Datasets, cs: seq<Company>) returns (result: seq<SingleDonorRow>)
    requires ByNameOf(ds, cs)
    ensures ListsExactly(result, SingleDonorName, SingleDonorNames(ds))
    ensures forall p :: 0 <= p < |result| ==> SingleDonorRowFor(ds, result[p])
    ensures result == Map(SingleDonorRowOf, Kept(cs, SingleDonorCompany))
  {
    result := [];
    for i := 0 to |cs|
      invariant SingleDonorUpTo(ds, Map(CompanyName, cs), i, result)
      invariant result == Map(SingleDonorRowOf, Kept(cs[..i], SingleDonorCompany))
    {
      var c := cs[i];
      var take := c.y2025.f == 1 && c.y2025.o > 50000;
      ghost var before := result;
      if take {
        result := result + [SingleDonorRowOf(c)];
      }
      SingleDonorFilterStep(ds, cs, i, before, result, take);
    }
    SingleDonorFilterDone(ds, cs, result);
  }

  lemma {:induction false} SingleDonorFilterDone(ds: Datasets, cs: seq<Company>, rows: seq<SingleDonorRow>)
    requires Elements(Map(CompanyName, cs)) == Names(ds)
    requires SingleDonorUpTo(ds, Map(CompanyName, cs), |cs|, rows)
    requires rows == Map(SingleDonorRowOf, Kept(cs[..|cs|], SingleDonorCompany))
    ensures ListsExactly(rows, SingleDonorName, SingleDonorNames(ds))
    ensures forall p :: 0 <= p < |rows| ==> SingleDonorRowFor(ds, rows[p])
    ensures rows == Map(SingleDonorRowOf, Kept(cs, SingleDonorCompany))
  {
    KeptRowsDone(rows, SingleDonorRowOf, cs, SingleDonorCompany);
    var names := Map(CompanyName, cs);
    ListingDone(rows, SingleDonorName, names, SingleDonorNames(ds));
    SingleDonorAll(ds, names);
  }

  lemma {:induction false} SingleDonorAll(ds: Datasets, names: seq<string>)
    requires Elements(names) == Names(ds)
    ensures Elements(names) * SingleDonorNames(ds) == SingleDonorNames(ds)
  {
  }

  // ---------------------------------------------------------------------
  // Top 100 (processTop100)
  // ---------------------------------------------------------------------

  /** A row of the top-100 table: the yearly amounts, the two yearly
      differences and the three-year total. */
  datatype Top100Row = Top100Row(
    name: string,
    a2023: nat, a2024: nat, a2025: nat,
    change2423: int, change2524: int,
    total: nat)

  function Top100Name(row: Top100Row): string { row.name }

  ghost predicate Top100RowFor(ds: Datasets, row: Top100Row) {
    var a0, a1, a2 := NameSlot(ds, 0, row.name).o, NameSlot(ds, 1, row.name).o, NameSlot(ds, 2, row.name).o;
    && row.a2023 == a0 && row.a2024 == a1 && row.a2025 == a2
    && row.change2423 == a1 - a0
    && row.change2524 == a2 - a1
    && row.total == a0 + a1 + a2
  }

  /** The top-100 table: the 100 companies (or all, when fewer) with the
      largest 2025 amounts, largest first, each once with its own figures;
      no company left out has a larger 2025 amount than any listed one. */
  ghost predicate Top100Spec(ds: Datasets, rows: seq<Top100Row>) {
    Top100Of(ds, Names(ds), rows)
  }

  /** The top-100 property over the set `names` of all company names. */
  ghost predicate Top100Of(ds: Datasets, names: set<string>, rows: seq<Top100Row>) {
    && |rows| == Min(100, |names|)
    && Distinct(Map(Top100Name, rows))
    && (forall i :: 0 <= i < |rows| ==> rows[i].name in names && Top100RowFor(ds, rows[i]))
    && (forall i, j :: 0 <= i < j < |rows| ==> rows[i].a2025 >= rows[j].a2025)
    && (forall k, i :: k in names && k !in Elements(Map(Top100Name, rows)) && 0 <= i < |rows|
          ==> NameSlot(ds, 2, k).o <= rows[i].a2025)
  }

  /** The row `sorted.map` builds for a company. */
  function Top100RowOf(c: Company): Top100Row {
    Top100Row(c.name, c.y2023.o, c.y2024.o, c.y2025.o,
              c.y2024.o - c.y2023.o, c.y2025.o - c.y2024.o, c.TotalO())
  }

  /** The comparator `(a, b) => b[2025] - a[2025]`: larger 2025 amount first. */
  function ByAmount2025Desc(a: Company, b: Company): bool { a.y2025.o >= b.y2025.o }

  lemma PermutedFromName(ds: Datasets, cs: seq<Company>, sorted: seq<Company>)
    requires forall i :: 0 <= i < |cs| ==> FromName(ds, cs[i])
    requires multiset(sorted) == multiset(cs)
    ensures forall i :: 0 <= i < |sorted| ==> FromName(ds, sorted[i])
  {
    forall i | 0 <= i < |sorted| ensures FromName(ds, sorted[i]) {
      assert sorted[i] in multiset(cs);
    }
  }

  lemma Top100RowsFor(ds: Datasets, top: seq<Company>)
    requires forall i :: 0 <= i < |top| ==> FromName(ds, top[i])
    ensures forall i :: 0 <= i < |top| ==> Top100RowFor(ds, Map(Top100RowOf, top)[i])
  {
  }

  /** A name left out of the first `n` sorted companies has a 2025 amount
      no larger than any of them. */
  lemma Top100LeftOut(ds: Datasets, names: set<string>, sorted: seq<Company>, n: nat, k: string, i: int)
    requires n <= |sorted|
    requires Elements(Map(CompanyName, sorted)) == names
    requires forall i :: 0 <= i < |sorted| ==> FromName(ds, sorted[i])
    requires SortedBy(sorted, ByAmount2025Desc)
    requires k in names && k !in Elements(Map(CompanyName, sorted[..n])) && 0 <= i < n
    ensures NameSlot(ds, 2, k).o <= sorted[i].y2025.o
  {
    var q :| 0 <= q < |sorted| && Map(CompanyName, sorted)[q] == k;
    assert ByAmount2025Desc(sorted[i], sorted[q]);
  }

  lemma Top100Correct(ds: Datasets, names: set<string>, cs: seq<Company>, sorted: seq<Company>)
    requires Distinct(Map(CompanyName, cs))
    requires Elements(Map(CompanyName, cs)) == names
    requires |cs| == |names|
    requires forall i :: 0 <= i < |cs| ==> FromName(ds, cs[i])
    requires multiset(sorted) == multiset(cs)
    requires SortedBy(sorted, ByAmount2025Desc)
    ensures Top100Of(ds, names, Map(Top100RowOf, sorted[..Min(100, |sorted|)]))
  {
    PermutedKeysDistinct(sorted, cs, CompanyName);
    PermutedKeys(sorted, cs, CompanyName);
    PermutationLength(sorted, cs);
    PermutedFromName(ds, cs, sorted);
    var n := Min(100, |sorted|);
    var top := sorted[..n];
    var rows := Map(Top100RowOf, top);
    assert Map(Top100Name, rows) == Map(CompanyName, top) == Map(CompanyName, sorted)[..n];
    Top100RowsFor(ds, top);
    forall i | 0 <= i < |rows| ensures rows[i].name in names {
      assert Map(CompanyName, sorted)[i] == rows[i].name;
    }
    forall i, j | 0 <= i < j < |rows| ensures rows[i].a2025 >= rows[j].a2025 {
      assert ByAmount2025Desc(sorted[i], sorted[j]);
    }
    forall k, i | k in names && k !in Elements(Map(Top100Name, rows)) && 0 <= i < |rows|
      ensures NameSlot(ds, 2, k).o <= rows[i].a2025
    {
      Top100LeftOut(ds, names, sorted, n, k, i);
    }
  }

  /** Builds the top-100 rows (without storing them). */
  method Top100(ds: Datasets) returns (rows: seq<Top100Row>)
    ensures Top100Spec(ds, rows)
    ensures exists sorted :: StablySorted(sorted, NameCompanies(ds), ByAmount2025Desc)
                             && rows == Map(Top100RowOf, sorted[..Min(100, |sorted|)])
  {
    var cs := CompaniesByName(ds);
    var sorted := SortSeq(cs, ByAmount2025Desc);
    rows := Map(Top100RowOf, sorted[..Min(100, |sorted|)]);
    Top100Correct(ds, Names(ds), cs, sorted);
  }

  // ---------------------------------------------------------------------
  // Locations (processLocations)
  // ---------------------------------------------------------------------

  /** `d.c || 'Ismeretlen'`: a missing or empty address counts as unknown. */
  function LocationOf(r: Record): (loc: string)
    ensures loc != ""
  {
    if r.address.Some? && r.address.value != "" then r.address.value else "Ismeretlen"
  }

  /** The `locations` dictionary: for each location the set of company
      names seen there (in insertion order), and the order in which the
      locations were first met. */
  datatype Groups = Groups(members: map<string, seq<string>>, order: seq<string>)

  /** One step of the grouping loop: record `r` adds its name to its location. */
  function AddToGroups(g: Groups, r: Record): Groups {
    var loc := LocationOf(r);
    if loc in g.members then
      var names := g.members[loc];
      Groups(g.members[loc := if r.name in names then names else names + [r.name]], g.order)
    else
      Groups(g.members[loc := [r.name]], g.order + [loc])
  }

  /** The dictionary after visiting `rs`. */
  function GroupAll(rs: seq<Record>): Groups {
    if rs == [] then Groups(map[], []) else AddToGroups(GroupAll(rs[..|rs| - 1]), rs[|rs| - 1])
  }

  /** The locations of the records of `rs`. */
  ghost function LocationsIn(rs: seq<Record>): set<string> {
    set r | r in rs :: LocationOf(r)
  }

  /** The company names of the records of `rs` at location `loc`. */
  ghost function NamesAtIn(rs: seq<Record>, loc: string): set<string> {
    set r | r in rs && LocationOf(r) == loc :: r.name
  }

  /** What the grouping guarantees: each location once in `order`, a
      location exactly for those some record has, and for each location
      the distinct names of the records there. */
  ghost predicate GroupedFrom(rs: seq<Record>, g: Groups) {
    && Distinct(g.order)
    && Elements(g.order) == g.members.Keys
    && g.members.Keys == LocationsIn(rs)
    && forall loc :: loc in g.members ==>
         Distinct(g.members[loc]) && Elements(g.members[loc]) == NamesAtIn(rs, loc)
  }

  lemma LocationsSnoc(p: seq<Record>, x: Record)
    ensures LocationsIn(p + [x]) == LocationsIn(p) + {LocationOf(x)}
    ensures forall loc :: NamesAtIn(p + [x], loc) ==
              NamesAtIn(p, loc) + (if LocationOf(x) == loc then {x.name} else {})
  {
    assert forall r :: r in p + [x] <==> r in p || r == x;
  }

  lemma {:induction false} GroupCorrect(rs: seq<Record>)
    ensures GroupedFrom(rs, GroupAll(rs))
  {
    if rs != [] {
      var p := rs[..|rs| - 1];
      var x := rs[|rs| - 1];
      assert rs == p + [x];
      GroupCorrect(p);
      GroupAdd(p, GroupAll(p), x);
    }
  }

  /** Adding one record to a grouping of `p` gives a grouping of `p + [x]`. */
  lemma GroupAdd(p: seq<Record>, g: Groups, x: Record)
    requires GroupedFrom(p, g)
    ensures GroupedFrom(p + [x], AddToGroups(g, x))
  {
    LocationsSnoc(p, x);
    if LocationOf(x) in g.members {
      GroupAddKnown(p, g, x);
    } else {
      GroupAddNew(p, g, x);
    }
  }

  lemma GroupAddKnown(p: seq<Record>, g: Groups, x: Record)
    requires GroupedFrom(p, g)
    requires LocationOf(x) in g.members
    requires LocationsIn(p + [x]) == LocationsIn(p) + {LocationOf(x)}
    requires forall loc :: NamesAtIn(p + [x], loc) ==
               NamesAtIn(p, loc) + (if LocationOf(x) == loc then {x.name} else {})
    ensures GroupedFrom(p + [x], AddToGroups(g, x))
  {
    var loc := LocationOf(x);
    var names := g.members[loc];
    if x.name !in names {
      assert Elements(names + [x.name]) == Elements(names) + {x.name};
    }
    var g' := AddToGroups(g, x);
    forall l | l in g'.members
      ensures Distinct(g'.members[l]) && Elements(g'.members[l]) == NamesAtIn(p + [x], l)
    {
      if l != loc {
        assert g'.members[l] == g.members[l];
      }
    }
  }

  lemma GroupAddNew(p: seq<Record>, g: Groups, x: Record)
    requires GroupedFrom(p, g)
    requires LocationOf(x) !in g.members
    requires LocationsIn(p + [x]) == LocationsIn(p) + {LocationOf(x)}
    requires forall loc :: NamesAtIn(p + [x], loc) ==
               NamesAtIn(p, loc) + (if LocationOf(x) == loc then {x.name} else {})
    ensures GroupedFrom(p + [x], AddToGroups(g, x))
  {
    var loc := LocationOf(x);
    assert loc !in Elements(g.order);
    assert Elements(g.order + [loc]) == Elements(g.order) + {loc};
    assert NamesAtIn(p, loc) == {} by {
      assert loc !in LocationsIn(p);
    }
    assert Elements([x.name]) == {x.name};
    var g' := AddToGroups(g, x);
    forall l | l in g'.members
      ensures Distinct(g'.members[l]) && Elements(g'.members[l]) == NamesAtIn(p + [x], l)
    {
      if l != loc {
        assert g'.members[l] == g.members[l];
      }
    }
  }

  function RecordName(r: Record): string { r.name }

  function AtLocation(loc: string): Record -> bool {
    r => LocationOf(r) == loc
  }

  /** The records of `rs` at location `loc`, in order. */
  function RecordsAt(rs: seq<Record>, loc: string): seq<Record> {
    Kept(rs, AtLocation(loc))
  }

  lemma RecordsAtSnoc(p: seq<Record>, x: Record, loc: string)
    ensures RecordsAt(p + [x], loc) == RecordsAt(p, loc) + (if LocationOf(x) == loc then [x] else [])
  {
    KeptSnoc(p, x, AtLocation(loc));
  }

  lemma RecordsAtNone(p: seq<Record>, loc: string)
    requires forall q :: 0 <= q < |p| ==> LocationOf(p[q]) != loc
    ensures RecordsAt(p, loc) == []
  {
    assert forall q :: 0 <= q < |p| ==> !AtLocation(loc)(p[q]);
  }

  /** The grouping keeps first-met order: the locations in the order their
      first records were visited, and at each location the names in the
      order their first records there were visited (the insertion order of
      a `Set`). */
  ghost predicate GroupOrder(rs: seq<Record>, g: Groups) {
    && FirstMetOrder(rs, LocationOf, g.order)
    && KeysOf(rs, LocationOf, g.order)
    && forall loc :: loc in g.members ==>
         && FirstMetOrder(RecordsAt(rs, loc), RecordName, g.members[loc])
         && KeysOf(RecordsAt(rs, loc), RecordName, g.members[loc])
  }

  lemma {:induction false} GroupOrderCorrect(rs: seq<Record>)
    ensures GroupOrder(rs, GroupAll(rs))
  {
    if rs != [] {
      var p := rs[..|rs| - 1];
      var x := rs[|rs| - 1];
      assert rs == p + [x];
      GroupOrderCorrect(p);
      GroupCorrect(p);
      GroupOrderAdd(p, GroupAll(p), x);
    }
  }

  /** Adding one record keeps the first-met order of locations and names. */
  lemma GroupOrderAdd(p: seq<Record>, g: Groups, x: Record)
    requires GroupedFrom(p, g) && GroupOrder(p, g)
    ensures GroupOrder(p + [x], AddToGroups(g, x))
  {
    var g' := AddToGroups(g, x);
    assert LocationOf(x) in g.order <==> LocationOf(x) in g.members by {
      assert LocationOf(x) in g.order <==> LocationOf(x) in Elements(g.order);
    }
    FirstMetSnoc(p, LocationOf, g.order, x);
    forall l | l in g'.members
      ensures FirstMetOrder(RecordsAt(p + [x], l), RecordName, g'.members[l])
      ensures KeysOf(RecordsAt(p + [x], l), RecordName, g'.members[l])
    {
      GroupOrderAddAt(p, g, x, l);
    }
  }

  /** The names at one location after adding a record. */
  lemma GroupOrderAddAt(p: seq<Record>, g: Groups, x: Record, l: string)
    requires GroupOrder(p, g) && Elements(g.order) == g.members.Keys
    requires l in AddToGroups(g, x).members
    ensures FirstMetOrder(RecordsAt(p + [x], l), RecordName, AddToGroups(g, x).members[l])
    ensures KeysOf(RecordsAt(p + [x], l), RecordName, AddToGroups(g, x).members[l])
  {
    var rs, names := RecordsAt(p + [x], l), AddToGroups(g, x).members[l];
    RecordsAtSnoc(p, x, l);
    if l != LocationOf(x) {
      assert rs == RecordsAt(p, l) && names == g.members[l];
    } else if l in g.members {
      var old_names := g.members[l];
      assert rs == RecordsAt(p, l) + [x];
      assert names == if RecordName(x) in old_names then old_names else old_names + [RecordName(x)];
      FirstMetSnoc(RecordsAt(p, l), RecordName, old_names, x);
    } else {
      assert l !in g.order by {
        assert l !in Elements(g.order);
      }
      RecordsAtNone(p, l);
      assert rs == [x] && names == [x.name];
      FirstMetOne(x, RecordName);
    }
  }

  lemma GroupStep(visited: seq<Record>, recs: seq<Record>, j: int)
    requires 0 <= j < |recs|
    ensures GroupAll(visited + recs[..j + 1]) == AddToGroups(GroupAll(visited + recs[..j]), recs[j])
  {
    var rs := visited + recs[..j + 1];
    assert rs[..|rs| - 1] == visited + recs[..j];
  }

  /** The inner `forEach` over one year's records: add each record's name
      to the set of its location, creating the set when the location is new. */
  method GroupYear(members: map<string, seq<string>>, order: seq<string>, recs: seq<Record>,
                   ghost visited: seq<Record>)
    returns (members': map<string, seq<string>>, order': seq<string>)
    requires Groups(members, order) == GroupAll(visited)
    ensures Groups(members', order') == GroupAll(visited + recs)
  {
    members', order' := members, order;
    assert visited + recs[..0] == visited;
    for j := 0 to |recs|
      invariant Groups(members', order') == GroupAll(visited + recs[..j])
    {
      var d := recs[j];
      ghost var before := Groups(members', order');
      var location := LocationOf(d);
      if location !in members' {
        members' := members'[location := []];
        order' := order' + [location];
      }
      if d.name !in members'[location] {
        members' := members'[location := members'[location] + [d.name]];
      }
      assert [] + [d.name] == [d.name];
      assert Groups(members', order') == AddToGroups(before, d);
      GroupStep(visited, recs, j);
    }
    assert recs[..|recs|] == recs;
  }

  /** The grouping over the years present, in order. */
  method GroupLocations(ds: Datasets) returns (g: Groups)
    ensures GroupedFrom(AllRecords(ds), g)
    ensures g == GroupAll(AllRecords(ds))
  {
    var members: map<string, seq<string>> := map[];
    var order: seq<string> := [];
    for yi := 0 to 3
      invariant Groups(members, order) == GroupAll(RecordsUpTo(ds, yi))
    {
      var y := Years[yi];
      if y in ds && ds[y].adatok.Some? {
        var recs := ds[y].adatok.value;
        members, order := GroupYear(members, order, recs, RecordsUpTo(ds, yi));
        assert RecordsUpTo(ds, yi + 1) == RecordsUpTo(ds, yi) + recs;
      } else {
        assert RecordsUpTo(ds, yi + 1) == RecordsUpTo(ds, yi) + [];
        assert RecordsUpTo(ds, yi + 1) == RecordsUpTo(ds, yi);
      }
    }
    g := Groups(members, order);
    assert RecordsUpTo(ds, 3) == AllRecords(ds) by {
      assert RecordsUpTo(ds, 1) == YearRecords(ds, 2023);
    }
    GroupCorrect(AllRecords(ds));
  }

  /** A row of the locations table: the location, how many distinct
      companies are there, and their names joined with ", ". */
  datatype LocationRow = LocationRow(location: string, count: nat, companies: string)

  function LocationName(row: LocationRow): string { row.location }

  /** The locations shared by at least two distinct company names. */
  ghost function SharedLocations(rs: seq<Record>): set<string> {
    set loc | loc in LocationsIn(rs) && |NamesAtIn(rs, loc)| >= 2
  }

  /** A row's count is the number of distinct names at its location, and
      its list names each of them once, in the order their first records
      there were visited. */
  ghost predicate LocationRowFor(rs: seq<Record>, row: LocationRow) {
    && row.count == |NamesAtIn(rs, row.location)|
    && exists names :: && Distinct(names) && Elements(names) == NamesAtIn(rs, row.location)
                       && FirstMetOrder(RecordsAt(rs, row.location), RecordName, names)
                       && row.companies == Join(names, ", ")
  }

  /** The rows the `Object.entries(locations)` loop pushes for the
      locations `locs`: one per location with at least two names, in the
      order of `locs`. */
  function SharedRows(g: Groups, locs: seq<string>): seq<LocationRow> {
    if locs == [] then []
    else
      var loc := locs[|locs| - 1];
      SharedRows(g, locs[..|locs| - 1]) +
        (if loc in g.members && |g.members[loc]| >= 2
         then [LocationRow(loc, |g.members[loc]|, Join(g.members[loc], ", "))] else [])
  }

  /** The locations table: one row per location with at least two
      companies, largest count first. */
  ghost predicate LocationsSpec(ds: Datasets, rows: seq<LocationRow>) {
    LocationsOf(AllRecords(ds), rows)
  }

  ghost predicate LocationsOf(rs: seq<Record>, rows: seq<LocationRow>) {
    && ListsExactly(rows, LocationName, SharedLocations(rs))
    && (forall i :: 0 <= i < |rows| ==> LocationRowFor(rs, rows[i]))
    && (forall i, j :: 0 <= i < j < |rows| ==> rows[i].count >= rows[j].count)
  }

  ghost predicate LocationsUpTo(rs: seq<Record>, order: seq<string>, i: nat, rows: seq<LocationRow>)
    requires i <= |order|
  {
    && ListsExactly(rows, LocationName, Elements(order[..i]) * SharedLocations(rs))
    && forall p :: 0 <= p < |rows| ==> LocationRowFor(rs, rows[p])
  }

  lemma LocationsStep(rs: seq<Record>, g: Groups, i: nat, rows: seq<LocationRow>)
    requires GroupedFrom(rs, g)
    requires i < |g.order|
    requires LocationsUpTo(rs, g.order, i, rows)
    requires var names := g.members[g.order[i]];
             LocationRowFor(rs, LocationRow(g.order[i], |names|, Join(names, ", ")))
    ensures var names := g.members[g.order[i]];
            var row := LocationRow(g.order[i], |names|, Join(names, ", "));
            LocationsUpTo(rs, g.order, i + 1, if |names| >= 2 then rows + [row] else rows)
  {
    var loc := g.order[i];
    assert loc in Elements(g.order);
    var names := g.members[loc];
    var row := LocationRow(loc, |names|, Join(names, ", "));
    DistinctCard(names);
    assert |names| >= 2 <==> loc in SharedLocations(rs);
    ListingStep(rows, LocationName, g.order, i, SharedLocations(rs), row, |names| >= 2);
    if |names| >= 2 {
      assert forall p :: 0 <= p < |rows| ==> (rows + [row])[p] == rows[p];
    }
  }

  /** The row built from the grouping for a location meets the row spec. */
  lemma LocationRowOfGroup(rs: seq<Record>, g: Groups, loc: string)
    requires GroupedFrom(rs, g) && GroupOrder(rs, g)
    requires loc in g.members
    ensures var names := g.members[loc];
            LocationRowFor(rs, LocationRow(loc, |names|, Join(names, ", ")))
  {
    var names := g.members[loc];
    DistinctCard(names);
    assert FirstMetOrder(RecordsAt(rs, loc), RecordName, names);
  }

  lemma SharedRowsStep(g: Groups, i: nat)
    requires i < |g.order| && g.order[i] in g.members
    ensures var names := g.members[g.order[i]];
            SharedRows(g, g.order[..i + 1]) ==
              SharedRows(g, g.order[..i]) +
              (if |names| >= 2 then [LocationRow(g.order[i], |names|, Join(names, ", "))] else [])
  {
    assert g.order[..i + 1][..i] == g.order[..i];
  }

  /** The comparator `(a, b) => b[1] - a[1]`: larger count first. */
  function ByCountDesc(a: LocationRow, b: LocationRow): bool { a.count >= b.count }

  lemma LocationsSorted(rs: seq<Record>, result: seq<LocationRow>, rows: seq<LocationRow>)
    requires ListsExactly(result, LocationName, SharedLocations(rs))
    requires forall p :: 0 <= p < |result| ==> LocationRowFor(rs, result[p])
    requires multiset(rows) == multiset(result) && SortedBy(rows, ByCountDesc)
    ensures LocationsOf(rs, rows)
  {
    PermutedListing(rows, result, LocationName, SharedLocations(rs));
    forall p | 0 <= p < |rows| ensures LocationRowFor(rs, rows[p]) {
      assert rows[p] in multiset(result);
    }
  }

  /** Builds the locations rows (without storing them). */
  method LocationsView(ds: Datasets) returns (rows: seq<LocationRow>)
    ensures LocationsSpec(ds, rows)
    ensures var g := GroupAll(AllRecords(ds)); StablySorted(rows, SharedRows(g, g.order), ByCountDesc)
  {
    var g := GroupLocations(ds);
    GroupOrderCorrect(AllRecords(ds));
    var result := LocationsFilter(AllRecords(ds), g);
    rows := SortSeq(result, ByCountDesc);
    LocationsSorted(AllRecords(ds), result, rows);
  }

  /** The `Object.entries(locations)` loop: the row of each location with
      at least two names, in the order the locations were first met. */
  method LocationsFilter(ghost rs: seq<Record>, g: Groups) returns (result: seq<LocationRow>)
    requires GroupedFrom(rs, g) && GroupOrder(rs, g)
    ensures ListsExactly(result, LocationName, SharedLocations(rs))
    ensures forall p :: 0 <= p < |result| ==> LocationRowFor(rs, result[p])
    ensures result == SharedRows(g, g.order)
  {
    result := [];
    for i := 0 to |g.order|
      invariant LocationsUpTo(rs, g.order, i, result)
      invariant result == SharedRows(g, g.order[..i])
    {
      LocationsFilterStep(rs, g, i, result);
      var names := g.members[g.order[i]];
      if |names| >= 2 {
        result := result + [LocationRow(g.order[i], |names|, Join(names, ", "))];
      }
    }
    LocationsFilterDone(rs, g, result);
  }

  lemma LocationsFilterStep(rs: seq<Record>, g: Groups, i: nat, rows: seq<LocationRow>)
    requires GroupedFrom(rs, g) && GroupOrder(rs, g)
    requires i < |g.order|
    requires LocationsUpTo(rs, g.order, i, rows)
    requires rows == SharedRows(g, g.order[..i])
    ensures g.order[i] in g.members
    ensures var names := g.members[g.order[i]];
            var rows' := if |names| >= 2 then rows + [LocationRow(g.order[i], |names|, Join(names, ", "))] else rows;
            LocationsUpTo(rs, g.order, i + 1, rows') && rows' == SharedRows(g, g.order[..i + 1])
  {
    assert g.order[i] in Elements(g.order);
    LocationRowOfGroup(rs, g, g.order[i]);
    LocationsStep(rs, g, i, rows);
    SharedRowsStep(g, i);
  }

  lemma {:induction false} LocationsFilterDone(rs: seq<Record>, g: Groups, rows: seq<LocationRow>)
    requires GroupedFrom(rs, g)
    requires LocationsUpTo(rs, g.order, |g.order|, rows)
    requires rows == SharedRows(g, g.order[..|g.order|])
    ensures ListsExactly(rows, LocationName, SharedLocations(rs))
    ensures rows == SharedRows(g, g.order)
  {
    ListingDone(rows, LocationName, g.order, SharedLocations(rs));
    assert Elements(g.order) * SharedLocations(rs) == SharedLocations(rs);
    assert g.order[..|g.order|] == g.order;
  }

  // ---------------------------------------------------------------------
  // The order each view keeps
  // ---------------------------------------------------------------------

  /** Top revenue lists its companies in the order they were first met. */
  ghost predicate TopRevenueOrdered(ds: Datasets, rows: seq<TopRevenueRow>) {
    Map(TopRevenueName, rows) == Map(CompanyName, Kept(NameCompanies(ds), HighIncomeCompany))
  }

  /** Top 100 is the first hundred of a stable sort of the merged companies. */
  ghost predicate Top100Ordered(ds: Datasets, rows: seq<Top100Row>) {
    exists sorted :: StablySorted(sorted, NameCompanies(ds), ByAmount2025Desc)
                     && rows == Map(Top100RowOf, sorted[..Min(100, |sorted|)])
  }

  /** The locations table is a stable sort of the rows in first-met order. */
  ghost predicate LocationsOrdered(ds: Datasets, rows: seq<LocationRow>) {
    var g := GroupAll(AllRecords(ds)); StablySorted(rows, SharedRows(g, g.order), ByCountDesc)
  }

  /** The special table is a stable sort of the rows in first-met order. */
  ghost predicate SpecialOrdered(ds: Datasets, rows: seq<SpecialRow>) {
    StablySorted(rows, Map(SpecialRowOf, Kept(NameCompanies(ds), FewDonorsCompany)), ByTotalDesc)
  }

  /** The single-donor table is a stable sort of the rows in first-met order. */
  ghost predicate SingleDonorOrdered(ds: Datasets, rows: seq<SingleDonorRow>) {
    StablySorted(rows, Map(SingleDonorRowOf, Kept(NameCompanies(ds), SingleDonorCompany)), By2025Desc)
  }

  // ---------------------------------------------------------------------
  // The manager object
  // ---------------------------------------------------------------------

  /** `window.analyticsManager`: the rows each view produced last. */
  class AnalyticsManager {
    var topRevenueData: seq<TopRevenueRow>
    var top100Data: seq<Top100Row>
    var locationsData: seq<LocationRow>
    var specialData: seq<SpecialRow>
    var singleDonorData: seq<SingleDonorRow>

    /** Every view starts empty. */
    constructor ()
      ensures topRevenueData == [] && top100Data == [] && locationsData == []
      ensures specialData == [] && singleDonorData == []
    {
      topRevenueData := [];
      top100Data := [];
      locationsData := [];
      specialData := [];
      singleDonorData := [];
    }

    /** Needs all three years; without them it returns no rows and keeps
        the stored ones. */
    method ProcessTopRevenue(ds: Datasets) returns (result: seq<TopRevenueRow>)
      modifies this
      ensures if 2023 in ds && 2024 in ds && 2025 in ds
              then TopRevenueSpec(ds, result) && TopRevenueOrdered(ds, result) && topRevenueData == result
              else result == [] && topRevenueData == old(topRevenueData)
      ensures top100Data == old(top100Data) && locationsData == old(locationsData)
      ensures specialData == old(specialData) && singleDonorData == old(singleDonorData)
    {
      if 2023 !in ds || 2024 !in ds || 2025 !in ds {
        return [];
      }
      result := TopRevenue(ds);
      topRevenueData := result;
    }

    /** Needs 2025; without it it returns no rows and keeps the stored ones. */
    method ProcessTop100(ds: Datasets) returns (result: seq<Top100Row>)
      modifies this
      ensures if 2025 in ds
              then Top100Spec(ds, result) && Top100Ordered(ds, result) && top100Data == result
              else result == [] && top100Data == old(top100Data)
      ensures topRevenueData == old(topRevenueData) && locationsData == old(locationsData)
      ensures specialData == old(specialData) && singleDonorData == old(singleDonorData)
    {
      if 2025 !in ds {
        return [];
      }
      result := Top100(ds);
      top100Data := result;
    }

    method ProcessLocations(ds: Datasets) returns (result: seq<LocationRow>)
      modifies this
      ensures LocationsSpec(ds, result) && LocationsOrdered(ds, result) && locationsData == result
      ensures topRevenueData == old(topRevenueData) && top100Data == old(top100Data)
      ensures specialData == old(specialData) && singleDonorData == old(singleDonorData)
    {
      result := LocationsView(ds);
      locationsData := result;
    }

    method ProcessSpecial(ds: Datasets) returns (result: seq<SpecialRow>)
      modifies this
      ensures SpecialSpec(ds, result) && SpecialOrdered(ds, result) && specialData == result
      ensures topRevenueData == old(topRevenueData) && top100Data == old(top100Data)
      ensures locationsData == old(locationsData) && singleDonorData == old(singleDonorData)
    {
      result := Special(ds);
      specialData := result;
    }

    /** Needs 2025; without it it returns no rows and keeps the stored ones. */
    method ProcessSingleDonor(ds: Datasets) returns (result: seq<SingleDonorRow>)
      modifies this
      ensures if 2025 in ds
              then SingleDonorSpec(ds, result) && SingleDonorOrdered(ds, result) && singleDonorData == result
              else result == [] && singleDonorData == old(singleDonorData)
      ensures topRevenueData == old(topRevenueData) && top100Data == old(top100Data)
      ensures locationsData == old(locationsData) && specialData == old(specialData)
    {
      if 2025 !in ds {
        return [];
      }
      result := SingleDonor(ds);
      singleDonorData := result;
    }

    /** Recomputes every view; a view whose years are missing keeps its rows. */
    method UpdateAnalyticsView(ds: Datasets)
      modifies this
      ensures if 2023 in ds && 2024 in ds && 2025 in ds
              then TopRevenueSpec(ds, topRevenueData) && TopRevenueOrdered(ds, topRevenueData) else topRevenueData == old(topRevenueData)
      ensures if 2025 in ds then Top100Spec(ds, top100Data) && Top100Ordered(ds, top100Data) else top100Data == old(top100Data)
      ensures LocationsSpec(ds, locationsData) && LocationsOrdered(ds, locationsData)
      ensures SpecialSpec(ds, specialData) && SpecialOrdered(ds, specialData)
      ensures if 2025 in ds then SingleDonorSpec(ds, singleDonorData) && SingleDonorOrdered(ds, singleDonorData) else singleDonorData == old(singleDonorData)
    {
      var _ := ProcessTopRevenue(ds);
      var _ := ProcessTop100(ds);
      var _ := ProcessLocations(ds);
      var _ := ProcessSpecial(ds);
      var _ := ProcessSingleDonor(ds);
    }
  }
}
