/** The input data of the dashboard: one JSON file per year holding the
    disclosed donation records (`adatok`), and the per-company yearly
    totals that every view accumulates from them. */
module Records {
  import opened Common

  /** One disclosed record: name `n`, tax id `a`, address `c`, offered
      amount `o` and donor count `f`. The tax id and the address may be
      missing from the JSON. */
  datatype Record = Record(
    name: string,
    taxId: Option<string>,
    address: Option<string>,
    amount: nat,
    donors: nat)

  /** The content of one year's file; its `adatok` list may be missing. */
  datatype YearData = YearData(adatok: Option<seq<Record>>)

  /** The loaded files, keyed by year (`datasets[2023]` and so on). */
  type Datasets = map<int, YearData>

  /** The fixed years every aggregation walks, in this order. */
  const Years: seq<int> := [2023, 2024, 2025]

  /** Position of a year in `Years`. */
  type YearIndex = i: int | 0 <= i < 3

  /** The records an aggregation loop visits for year `y`: none when the
      file is not loaded or has no `adatok`. */
  function YearRecords(ds: Datasets, y: int): seq<Record> {
    if y in ds && ds[y].adatok.Some? then ds[y].adatok.value else []
  }

  /** Every record the loops visit, year after year. */
  function AllRecords(ds: Datasets): seq<Record> {
    YearRecords(ds, 2023) + YearRecords(ds, 2024) + YearRecords(ds, 2025)
  }

  /** The records of the first `n` years. */
  function RecordsUpTo(ds: Datasets, n: nat): seq<Record>
    requires n <= 3
  {
    if n == 0 then [] else RecordsUpTo(ds, n - 1) + YearRecords(ds, Years[n - 1])
  }

  lemma AllRecordsYear(ds: Datasets, r: Record)
    ensures r in AllRecords(ds) <==> exists yi: YearIndex :: r in YearRecords(ds, Years[yi])
  {
    if r in YearRecords(ds, Years[0]) || r in YearRecords(ds, Years[1]) || r in YearRecords(ds, Years[2]) {
    }
  }

  /** One year's `{o, f}` counters of a company. */
  datatype Slot = Slot(o: nat, f: nat) {
    /** The counters after `o += d.o; f += d.f` for record `d`. */
    function Plus(r: Record): Slot {
      Slot(o + r.amount, f + r.donors)
    }

    /** Counter-wise sum of two slots. */
    function Add(s: Slot): Slot {
      Slot(o + s.o, f + s.f)
    }
  }

  /** `_.sumBy(rs, 'o')` and `_.sumBy(rs, 'f')`, as one slot. */
  function RecordsTotal(rs: seq<Record>): Slot {
    if rs == [] then Slot(0, 0) else RecordsTotal(rs[..|rs| - 1]).Plus(rs[|rs| - 1])
  }

  /** The total of a concatenation is the sum of the totals. */
  lemma {:induction false} RecordsTotalAppend(a: seq<Record>, b: seq<Record>)
    ensures RecordsTotal(a + b) == RecordsTotal(a).Add(RecordsTotal(b))
  {
    if b == [] {
      assert a + b == a;
    } else {
      var b' := b[..|b| - 1];
      assert (a + b)[..|a + b| - 1] == a + b';
      RecordsTotalAppend(a, b');
    }
  }

  /** The totals do not depend on the order of the records. */
  lemma {:induction false} RecordsTotalPermutation(a: seq<Record>, b: seq<Record>)
    requires multiset(a) == multiset(b)
    ensures RecordsTotal(a) == RecordsTotal(b)
  {
    if a == [] {
      assert |b| == |multiset(b)| == 0;
    } else {
      var x := a[|a| - 1];
      var a' := a[..|a| - 1];
      assert a == a' + [x];
      assert multiset(a') == multiset(a) - multiset{x};
      assert x in multiset(b);
      var j :| 0 <= j < |b| && b[j] == x;
      MultisetRemove(b, j);
      RecordsTotalPermutation(a', b[..j] + b[j + 1..]);
      RecordsTotalRemove(b, j);
    }
  }

  /** Taking one record out of a sequence takes its share out of the totals. */
  lemma RecordsTotalRemove(b: seq<Record>, j: int)
    requires 0 <= j < |b|
    ensures RecordsTotal(b) == RecordsTotal(b[..j] + b[j + 1..]).Plus(b[j])
  {
    var p, x, q := b[..j], b[j], b[j + 1..];
    assert b == (p + [x]) + q;
    RecordsTotalAppend(p + [x], q);
    assert (p + [x])[..|p|] == p;
    RecordsTotalAppend(p, q);
  }

  /** Amount and donor count summed over the records of `rs` whose key is `k`. */
  function RecordSum<K(==)>(rs: seq<Record>, key: Record -> K, k: K): Slot {
    if rs == [] then Slot(0, 0)
    else
      var s := RecordSum(rs[..|rs| - 1], key, k);
      if key(rs[|rs| - 1]) == k then s.Plus(rs[|rs| - 1]) else s
  }

  /** Key `k`'s share of year `Years[yi]`: its records' amounts and donors summed. */
  function YearSlot<K(==)>(ds: Datasets, yi: YearIndex, key: Record -> K, k: K): Slot {
    RecordSum(YearRecords(ds, Years[yi]), key, k)
  }

  /** A key that no record carries sums to zero. */
  lemma {:induction false} RecordSumAbsent<K>(rs: seq<Record>, key: Record -> K, k: K)
    requires forall r :: r in rs ==> key(r) != k
    ensures RecordSum(rs, key, k) == Slot(0, 0)
  {
    if rs != [] {
      RecordSumAbsent(rs[..|rs| - 1], key, k);
    }
  }

  /** The aggregated view of one company: the descriptive fields of the
      first record seen for it, and one `{o, f}` slot per year. */
  datatype Company = Company(
    name: string,
    taxId: Option<string>,
    address: Option<string>,
    y2023: Slot,
    y2024: Slot,
    y2025: Slot)
  {
    function At(yi: YearIndex): Slot {
      if yi == 0 then y2023 else if yi == 1 then y2024 else y2025
    }

    /** Adds record `r` to the slot of year `Years[yi]`. */
    function Add(yi: YearIndex, r: Record): (c: Company)
      ensures c.name == name && c.taxId == taxId && c.address == address
      ensures c.At(yi) == At(yi).Plus(r)
      ensures forall j: YearIndex :: j != yi ==> c.At(j) == At(j)
    {
      if yi == 0 then this.(y2023 := y2023.Plus(r))
      else if yi == 1 then this.(y2024 := y2024.Plus(r))
      else this.(y2025 := y2025.Plus(r))
    }

    /** `c[2023].o + c[2024].o + c[2025].o` */
    function TotalO(): nat { y2023.o + y2024.o + y2025.o }

    /** `c[2023].f + c[2024].f + c[2025].f` */
    function TotalF(): nat { y2023.f + y2024.f + y2025.f }
  }

  /** The entry created when a key is first met: name, tax id and address
      of that record, and all three years at zero. */
  function Fresh(r: Record): Company {
    Company(r.name, r.taxId, r.address, Slot(0, 0), Slot(0, 0), Slot(0, 0))
  }
}
