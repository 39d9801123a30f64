/** The merge every view starts from: walk the years 2023, 2024, 2025 in
    order and each loaded year's records in order, open an entry for a key
    the first time it is met (taking name, tax id and address from that
    record), and add each record's amount and donor count to its key's slot
    for that year. The analytical views key by company name, the combined
    table by tax id, so the key is a parameter. */
module Aggregation {
  import opened Common
  import opened Records

  /** A record together with the position of its year. */
  datatype Entry = Entry(yi: YearIndex, rec: Record)

  function Tag(yi: YearIndex, rs: seq<Record>): (es: seq<Entry>)
    ensures |es| == |rs|
    ensures forall i :: 0 <= i < |rs| ==> es[i] == Entry(yi, rs[i])
  {
    seq(|rs|, i requires 0 <= i < |rs| => Entry(yi, rs[i]))
  }

  /** The records of the first `n` years, in the order the loops visit them. */
  function EntriesUpTo(ds: Datasets, n: nat): seq<Entry>
    requires n <= 3
  {
    if n == 0 then [] else EntriesUpTo(ds, n - 1) + Tag(n - 1, YearRecords(ds, Years[n - 1]))
  }

  function Entries(ds: Datasets): seq<Entry> {
    EntriesUpTo(ds, 3)
  }

  /** The `companies` dictionary and the order in which its keys were
      inserted (the order `Object.values` lists them in). */
  datatype Merged<K> = Merged(companies: map<K, Company>, order: seq<K>)

  /** One step of the inner loop: record `e.rec` of year `e.yi` is added. */
  function AddEntry<K>(m: Merged<K>, e: Entry, key: Record -> K): Merged<K> {
    var k := key(e.rec);
    var c := if k in m.companies then m.companies[k] else Fresh(e.rec);
    Merged(m.companies[k := c.Add(e.yi, e.rec)],
           if k in m.companies then m.order else m.order + [k])
  }

  /** The dictionary after the loops have visited `es`. */
  function Merge<K>(es: seq<Entry>, key: Record -> K): Merged<K> {
    if es == [] then Merged(map[], [])
    else AddEntry(Merge(es[..|es| - 1], key), es[|es| - 1], key)
  }

  /** The records of year position `yi` among `es`, in order. */
  function OfYear(es: seq<Entry>, yi: YearIndex): seq<Record> {
    if es == [] then []
    else
      var e := es[|es| - 1];
      OfYear(es[..|es| - 1], yi) + (if e.yi == yi then [e.rec] else [])
  }

  /** `i` is the position of the first entry whose key is `k`. */
  ghost predicate FirstWith<K>(es: seq<Entry>, key: Record -> K, k: K, i: int) {
    && 0 <= i < |es|
    && key(es[i].rec) == k
    && forall j :: 0 <= j < i ==> key(es[j].rec) != k
  }

  /** The keys are inserted once each, and `order` lists exactly the keys. */
  lemma {:induction false} MergeOrder<K>(es: seq<Entry>, key: Record -> K)
    ensures Distinct(Merge(es, key).order)
    ensures Elements(Merge(es, key).order) == Merge(es, key).companies.Keys
  {
    if es != [] {
      MergeOrder(es[..|es| - 1], key);
    }
  }

  function EntryRecord(e: Entry): Record { e.rec }

  /** The keys are listed in the order their first records were visited,
      which is the order `Object.values` lists the entries in. */
  lemma {:induction false} MergeFirstMet<K(!new)>(es: seq<Entry>, key: Record -> K)
    ensures FirstMetOrder(Map(EntryRecord, es), key, Merge(es, key).order)
    ensures KeysOf(Map(EntryRecord, es), key, Merge(es, key).order)
  {
    if es != [] {
      var p := es[..|es| - 1];
      var e := es[|es| - 1];
      MergeFirstMet(p, key);
      MergeOrder(p, key);
      assert es == p + [e];
      MapSnoc(EntryRecord, p, e);
      assert key(e.rec) in Merge(p, key).order <==> key(e.rec) in Merge(p, key).companies;
      FirstMetSnoc(Map(EntryRecord, p), key, Merge(p, key).order, e.rec);
    }
  }

  /** The entries of the first `n` years carry their records in the order
      the loops visit them. */
  lemma {:induction false} EntriesRecords(ds: Datasets, n: nat)
    requires n <= 3
    ensures Map(EntryRecord, EntriesUpTo(ds, n)) == RecordsUpTo(ds, n)
  {
    if n > 0 {
      EntriesRecords(ds, n - 1);
      var a := EntriesUpTo(ds, n - 1);
      var b := Tag(n - 1, YearRecords(ds, Years[n - 1]));
      assert Map(EntryRecord, a + b) == Map(EntryRecord, a) + Map(EntryRecord, b);
      assert Map(EntryRecord, b) == YearRecords(ds, Years[n - 1]);
    }
  }

  /** A key has an entry exactly when some visited record carries it. */
  lemma {:induction false} MergeKeys<K>(es: seq<Entry>, key: Record -> K, k: K)
    ensures k in Merge(es, key).companies <==> exists i :: 0 <= i < |es| && key(es[i].rec) == k
  {
    if es != [] {
      var p := es[..|es| - 1];
      MergeKeys(p, key, k);
      if exists i :: 0 <= i < |p| && key(p[i].rec) == k {
        var i :| 0 <= i < |p| && key(p[i].rec) == k;
        assert es[i] == p[i];
      }
      if exists i :: 0 <= i < |es| && key(es[i].rec) == k {
        var i :| 0 <= i < |es| && key(es[i].rec) == k;
        if i < |p| {
          assert p[i] == es[i];
        }
      }
    }
  }

  /** Name, tax id and address of a key's entry are those of the first
      record that carries the key. */
  lemma {:induction false} MergeFirst<K>(es: seq<Entry>, key: Record -> K, k: K)
    requires k in Merge(es, key).companies
    ensures exists i :: FirstFields(es, key, k, Merge(es, key).companies[k], i)
  {
    var p := es[..|es| - 1];
    var e := es[|es| - 1];
    var mp := Merge(p, key);
    assert Merge(es, key) == AddEntry(mp, e, key);
    var c := Merge(es, key).companies[k];
    if k in mp.companies {
      AddEntryFields(mp, e, key, k);
      MergeFirst(p, key, k);
      var i :| FirstFields(p, key, k, mp.companies[k], i);
      assert es[i] == p[i];
      assert FirstFields(es, key, k, c, i);
    } else {
      MergeKeys(p, key, k);
      assert key(e.rec) == k;
      AddEntryFields(mp, e, key, k);
      assert FirstFields(es, key, k, c, |p|);
    }
  }

  /** Adding a record keeps the name, tax number and address of an existing
      entry, and takes them from the record for a new one. */
  lemma AddEntryFields<K>(m: Merged<K>, e: Entry, key: Record -> K, k: K)
    requires k in m.companies || key(e.rec) == k
    ensures k in AddEntry(m, e, key).companies
    ensures var c := AddEntry(m, e, key).companies[k];
            var d := if k in m.companies then m.companies[k] else Fresh(e.rec);
            c.name == d.name && c.taxId == d.taxId && c.address == d.address
  {
  }

  /** `i` is the first entry with key `k`, and `c` carries its name, tax
      number and address. */
  ghost predicate FirstFields<K>(es: seq<Entry>, key: Record -> K, k: K, c: Company, i: int) {
    && FirstWith(es, key, k, i)
    && c.name == es[i].rec.name
    && c.taxId == es[i].rec.taxId
    && c.address == es[i].rec.address
  }

  /** A key's slot for a year is the sum over that year's records with the key. */
  lemma {:induction false} MergeSlot<K>(es: seq<Entry>, key: Record -> K, k: K, yi: YearIndex)
    requires k in Merge(es, key).companies
    ensures Merge(es, key).companies[k].At(yi) == RecordSum(OfYear(es, yi), key, k)
  {
    var p := es[..|es| - 1];
    var e := es[|es| - 1];
    var rs := OfYear(p, yi);
    if k in Merge(p, key).companies {
      MergeSlot(p, key, k, yi);
    } else {
      MergeKeys(p, key, k);
      forall r | r in rs ensures key(r) != k {
        OfYearFrom(p, yi, r);
      }
      RecordSumAbsent(rs, key, k);
    }
    if e.yi == yi {
      assert (rs + [e.rec])[..|rs|] == rs;
    } else {
      assert rs + [] == rs;
    }
  }

  /** Every record of `OfYear(es, yi)` comes from some entry of `es`. */
  lemma {:induction false} OfYearFrom(es: seq<Entry>, yi: YearIndex, r: Record)
    requires r in OfYear(es, yi)
    ensures exists i :: 0 <= i < |es| && es[i].rec == r
  {
    var p := es[..|es| - 1];
    if r in OfYear(p, yi) {
      OfYearFrom(p, yi, r);
      var i :| 0 <= i < |p| && p[i].rec == r;
      assert es[i] == p[i];
    } else {
      assert es[|es| - 1].rec == r;
    }
  }

  lemma {:induction false} OfYearAppend(a: seq<Entry>, b: seq<Entry>, yi: YearIndex)
    ensures OfYear(a + b, yi) == OfYear(a, yi) + OfYear(b, yi)
  {
    if b != [] {
      var b' := b[..|b| - 1];
      assert (a + b)[..|a + b| - 1] == a + b';
      OfYearAppend(a, b', yi);
    } else {
      assert a + b == a;
    }
  }

  lemma {:induction false} OfYearTag(t: YearIndex, rs: seq<Record>, yi: YearIndex)
    ensures OfYear(Tag(t, rs), yi) == if t == yi then rs else []
  {
    if rs != [] {
      var rs' := rs[..|rs| - 1];
      assert Tag(t, rs)[..|rs| - 1] == Tag(t, rs');
      OfYearTag(t, rs', yi);
    }
  }

  /** The records of year position `yi` among the first `n` years are the
      year's records when the year is among them, and none otherwise. */
  lemma {:induction false} OfYearUpTo(ds: Datasets, n: nat, yi: YearIndex)
    requires n <= 3
    ensures OfYear(EntriesUpTo(ds, n), yi) == if yi < n then YearRecords(ds, Years[yi]) else []
  {
    if n > 0 {
      OfYearUpTo(ds, n - 1, yi);
      OfYearAppend(EntriesUpTo(ds, n - 1), Tag(n - 1, YearRecords(ds, Years[n - 1])), yi);
      OfYearTag(n - 1, YearRecords(ds, Years[n - 1]), yi);
    }
  }

  /** Some loaded year has a record whose key is `k`. */
  ghost predicate Occurs<K>(ds: Datasets, key: Record -> K, k: K) {
    exists yi: YearIndex, r :: r in YearRecords(ds, Years[yi]) && key(r) == k
  }

  lemma OccursInEntries<K>(ds: Datasets, key: Record -> K, k: K)
    ensures Occurs(ds, key, k) <==> exists i :: 0 <= i < |Entries(ds)| && key(Entries(ds)[i].rec) == k
  {
    var es := Entries(ds);
    forall yi: YearIndex ensures OfYear(es, yi) == YearRecords(ds, Years[yi]) {
      OfYearUpTo(ds, 3, yi);
    }
    if Occurs(ds, key, k) {
      var yi: YearIndex, r :| r in YearRecords(ds, Years[yi]) && key(r) == k;
      OfYearFrom(es, yi, r);
    }
    if exists i :: 0 <= i < |es| && key(es[i].rec) == k {
      var i :| 0 <= i < |es| && key(es[i].rec) == k;
      EntryInOfYear(es, i);
      assert es[i].rec in YearRecords(ds, Years[es[i].yi]);
    }
  }

  lemma {:induction false} EntryInOfYear(es: seq<Entry>, i: int)
    requires 0 <= i < |es|
    ensures es[i].rec in OfYear(es, es[i].yi)
  {
    var p := es[..|es| - 1];
    if i < |p| {
      assert es[i] == p[i];
      EntryInOfYear(p, i);
    }
  }

  /** What the merge of all loaded years guarantees: each key once in
      `order`, a key exactly for each key some record carries, each year's
      slot the sum of that year's records with the key, and the descriptive
      fields taken from the first record with the key. */
  ghost predicate MergedFrom<K(!new)>(ds: Datasets, key: Record -> K, m: Merged<K>) {
    && Distinct(m.order)
    && Elements(m.order) == m.companies.Keys
    && (forall k :: k in m.companies <==> Occurs(ds, key, k))
    && (forall k, yi: YearIndex :: k in m.companies ==> m.companies[k].At(yi) == YearSlot(ds, yi, key, k))
    && (forall k :: k in m.companies ==>
          exists i :: FirstWith(Entries(ds), key, k, i)
            && m.companies[k].name == Entries(ds)[i].rec.name
            && m.companies[k].taxId == Entries(ds)[i].rec.taxId
            && m.companies[k].address == Entries(ds)[i].rec.address)
  }

  lemma MergeCorrect<K(!new)>(ds: Datasets, key: Record -> K)
    ensures MergedFrom(ds, key, Merge(Entries(ds), key))
  {
    var es := Entries(ds);
    var m := Merge(es, key);
    MergeOrder(es, key);
    forall k ensures k in m.companies <==> Occurs(ds, key, k) {
      MergeKeys(es, key, k);
      OccursInEntries(ds, key, k);
    }
    forall k, yi: YearIndex | k in m.companies
      ensures m.companies[k].At(yi) == YearSlot(ds, yi, key, k)
    {
      MergeSlot(es, key, k, yi);
      OfYearUpTo(ds, 3, yi);
    }
    forall k | k in m.companies
      ensures exists i :: FirstWith(es, key, k, i)
                && m.companies[k].name == es[i].rec.name
                && m.companies[k].taxId == es[i].rec.taxId
                && m.companies[k].address == es[i].rec.address
    {
      MergeFirst(es, key, k);
      var i :| FirstFields(es, key, k, m.companies[k], i);
    }
  }

  lemma {:induction false} MergeStep<K>(p: seq<Entry>, yi: YearIndex, recs: seq<Record>, j: int, key: Record -> K)
    requires 0 <= j < |recs|
    ensures Merge(p + Tag(yi, recs[..j + 1]), key) == AddEntry(Merge(p + Tag(yi, recs[..j]), key), Entry(yi, recs[j]), key)
  {
    var es := p + Tag(yi, recs[..j + 1]);
    assert es[..|es| - 1] == p + Tag(yi, recs[..j]);
    assert es[|es| - 1] == Entry(yi, recs[j]);
  }

  lemma {:induction false} AddYearStep<K>(p: seq<Entry>, yi: YearIndex, recs: seq<Record>, j: int, key: Record -> K,
                                         m: Merged<K>, m': Merged<K>)
    requires 0 <= j < |recs|
    requires m == Merge(p + Tag(yi, recs[..j]), key)
    requires m' == AddEntry(m, Entry(yi, recs[j]), key)
    ensures m' == Merge(p + Tag(yi, recs[..j + 1]), key)
  {
    MergeStep(p, yi, recs, j, key);
  }

  /** The inner `forEach` over one year's records: create the key's entry
      if it is new (from this record's name, tax id and address), then add
      `o` and `f` to the year's slot. */
  method AddYear<K>(companies: map<K, Company>, order: seq<K>, yi: YearIndex, recs: seq<Record>,
                    key: Record -> K, ghost visited: seq<Entry>)
    returns (companies': map<K, Company>, order': seq<K>)
    requires Merged(companies, order) == Merge(visited, key)
    ensures Merged(companies', order') == Merge(visited + Tag(yi, recs), key)
  {
    companies', order' := companies, order;
    assert visited + Tag(yi, recs[..0]) == visited;
    for j := 0 to |recs|
      invariant Merged(companies', order') == Merge(visited + Tag(yi, recs[..j]), key)
    {
      var d := recs[j];
      ghost var before := Merged(companies', order');
      var k := key(d);
      if k !in companies' {
        companies' := companies'[k := Fresh(d)];
        order' := order' + [k];
      }
      companies' := companies'[k := companies'[k].Add(yi, d)];
      assert Merged(companies', order') == Merge(visited + Tag(yi, recs[..j + 1]), key) by {
        assert Merged(companies', order') == AddEntry(before, Entry(yi, d), key);
        AddYearStep(visited, yi, recs, j, key, before, Merged(companies', order'));
      }
    }
    assert recs[..|recs|] == recs;
  }

  /** Builds the `companies` dictionary with the nested `forEach` loops
      over the years present and their records. */
  method Aggregate<K(!new)>(ds: Datasets, key: Record -> K) returns (m: Merged<K>)
    ensures m == Merge(Entries(ds), key)
    ensures MergedFrom(ds, key, m)
  {
    var companies: map<K, Company> := map[];
    var order: seq<K> := [];
    for yi := 0 to 3
      invariant Merged(companies, order) == Merge(EntriesUpTo(ds, yi), key)
    {
      var y := Years[yi];
      if y in ds && ds[y].adatok.Some? {
        var recs := ds[y].adatok.value;
        companies, order := AddYear(companies, order, yi, recs, key, EntriesUpTo(ds, yi));
        assert YearRecords(ds, Years[yi]) == recs;
        assert EntriesUpTo(ds, yi + 1) == EntriesUpTo(ds, yi) + Tag(yi, recs);
      } else {
        assert YearRecords(ds, Years[yi]) == [];
        assert EntriesUpTo(ds, yi + 1) == EntriesUpTo(ds, yi) + [];
        assert EntriesUpTo(ds, yi + 1) == EntriesUpTo(ds, yi);
      }
    }
    m := Merged(companies, order);
    MergeCorrect(ds, key);
  }

  // ---------------------------------------------------------------------
  // Object.values and the totals it keeps
  // ---------------------------------------------------------------------

  /** `Object.values(companies)`: the entries in the order their keys
      were inserted. */
  function Values<K>(m: Merged<K>): seq<Company>
    requires forall k :: k in m.order ==> k in m.companies
  {
    seq(|m.order|, i requires 0 <= i < |m.order| => m.companies[m.order[i]])
  }

  /** The `{o, f}` slots of year position `yi` summed over `cs`. */
  function YearTotal(cs: seq<Company>, yi: YearIndex): Slot {
    if cs == [] then Slot(0, 0) else YearTotal(cs[..|cs| - 1], yi).Add(cs[|cs| - 1].At(yi))
  }

  /** Replacing one entry changes the sum by the difference of the two. */
  lemma {:induction false} YearTotalUpdate(cs: seq<Company>, q: int, c: Company, yi: YearIndex)
    requires 0 <= q < |cs|
    ensures YearTotal(cs[q := c], yi).Add(cs[q].At(yi)) == YearTotal(cs, yi).Add(c.At(yi))
  {
    var n := |cs| - 1;
    assert cs[q := c][..n] == if q == n then cs[..n] else cs[..n][q := c];
    if q < n {
      YearTotalUpdate(cs[..n], q, c, yi);
    }
  }

  /** The shape every merged dictionary has: each key once in `order`,
      and `order` lists exactly the keys. */
  ghost predicate WellFormed<K(!new)>(m: Merged<K>) {
    && Distinct(m.order)
    && (forall k :: k in m.order <==> k in m.companies)
  }

  /** A record whose key is already known adds to that entry only. */
  lemma AddKnownTotal<K(!new)>(m: Merged<K>, e: Entry, key: Record -> K, yi: YearIndex)
    requires WellFormed(m) && key(e.rec) in m.companies
    ensures WellFormed(AddEntry(m, e, key))
    ensures YearTotal(Values(AddEntry(m, e, key)), yi)
              == if e.yi == yi then YearTotal(Values(m), yi).Plus(e.rec) else YearTotal(Values(m), yi)
  {
    var c := m.companies[key(e.rec)].Add(e.yi, e.rec);
    var q := KnownKeyValues(m, e, key);
    var cs := Values(m);
    YearTotalUpdate(cs, q, c, yi);
    var before, after := YearTotal(cs, yi), YearTotal(cs[q := c], yi);
    var s, s' := cs[q].At(yi), c.At(yi);
    assert after.o + s.o == before.o + s'.o && after.f + s.f == before.f + s'.f;
    assert s' == if e.yi == yi then s.Plus(e.rec) else s;
  }

  /** A record with a known key replaces the value of that key, at the
      key's position `q`. */
  lemma KnownKeyValues<K(!new)>(m: Merged<K>, e: Entry, key: Record -> K) returns (q: int)
    requires WellFormed(m) && key(e.rec) in m.companies
    ensures 0 <= q < |m.order| && m.order[q] == key(e.rec)
    ensures WellFormed(AddEntry(m, e, key))
    ensures Values(AddEntry(m, e, key)) == Values(m)[q := m.companies[key(e.rec)].Add(e.yi, e.rec)]
  {
    var k := key(e.rec);
    var c := m.companies[k].Add(e.yi, e.rec);
    assert AddEntry(m, e, key) == Merged(m.companies[k := c], m.order);
    q :| 0 <= q < |m.order| && m.order[q] == k;
    ValuesUpdate(m, q, c);
  }

  /** Replacing the entry of the `q`-th key replaces the `q`-th value. */
  lemma ValuesUpdate<K(!new)>(m: Merged<K>, q: int, c: Company)
    requires WellFormed(m) && 0 <= q < |m.order|
    ensures WellFormed(Merged(m.companies[m.order[q] := c], m.order))
    ensures Values(Merged(m.companies[m.order[q] := c], m.order)) == Values(m)[q := c]
  {
    var m' := Merged(m.companies[m.order[q] := c], m.order);
    forall i | 0 <= i < |m.order| ensures Values(m')[i] == Values(m)[q := c][i] {
      if i != q {
        assert m.order[i] != m.order[q];
      }
    }
  }

  /** A record with a new key appends an entry holding just that record. */
  lemma AddNewTotal<K(!new)>(m: Merged<K>, e: Entry, key: Record -> K, yi: YearIndex)
    requires WellFormed(m) && key(e.rec) !in m.companies
    ensures WellFormed(AddEntry(m, e, key))
    ensures YearTotal(Values(AddEntry(m, e, key)), yi)
              == if e.yi == yi then YearTotal(Values(m), yi).Plus(e.rec) else YearTotal(Values(m), yi)
  {
    var c := Fresh(e.rec).Add(e.yi, e.rec);
    NewKeyValues(m, e, key);
    YearTotalSnoc(Values(m), c, yi);
    assert c.At(yi) == if e.yi == yi then Slot(0, 0).Plus(e.rec) else Slot(0, 0);
  }

  /** A record with a new key appends its entry to the values. */
  lemma NewKeyValues<K(!new)>(m: Merged<K>, e: Entry, key: Record -> K)
    requires WellFormed(m) && key(e.rec) !in m.companies
    ensures WellFormed(AddEntry(m, e, key))
    ensures Values(AddEntry(m, e, key)) == Values(m) + [Fresh(e.rec).Add(e.yi, e.rec)]
  {
    var k := key(e.rec);
    var m' := AddEntry(m, e, key);
    assert Distinct(m'.order) by {
      assert k !in m.order;
    }
    forall i | 0 <= i < |m.order| ensures m.order[i] != k {
      assert m.order[i] in m.order;
    }
  }

  lemma YearTotalSnoc(cs: seq<Company>, c: Company, yi: YearIndex)
    ensures YearTotal(cs + [c], yi) == YearTotal(cs, yi).Add(c.At(yi))
  {
    assert (cs + [c])[..|cs|] == cs;
  }

  /** Merging moves every record into exactly one entry: per year, the
      entries' slots add up to the totals of that year's records. */
  lemma {:induction false} MergeTotals<K(!new)>(es: seq<Entry>, key: Record -> K, yi: YearIndex)
    ensures WellFormed(Merge(es, key))
    ensures YearTotal(Values(Merge(es, key)), yi) == RecordsTotal(OfYear(es, yi))
  {
    if es != [] {
      var p := es[..|es| - 1];
      var e := es[|es| - 1];
      MergeTotals(p, key, yi);
      if key(e.rec) in Merge(p, key).companies {
        AddKnownTotal(Merge(p, key), e, key, yi);
      } else {
        AddNewTotal(Merge(p, key), e, key, yi);
      }
      var rs := OfYear(p, yi);
      if e.yi == yi {
        assert (rs + [e.rec])[..|rs|] == rs;
      } else {
        assert rs + [] == rs;
      }
    }
  }

  /** Whatever the key, the merged entries of a loaded year hold exactly
      that year's amounts and donors. */
  lemma AggregateTotals<K(!new)>(ds: Datasets, key: Record -> K, yi: YearIndex)
    ensures WellFormed(Merge(Entries(ds), key))
    ensures YearTotal(Values(Merge(Entries(ds), key)), yi) == RecordsTotal(YearRecords(ds, Years[yi]))
  {
    MergeTotals(Entries(ds), key, yi);
    OfYearUpTo(ds, 3, yi);
  }
}
