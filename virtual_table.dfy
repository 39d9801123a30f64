/** The virtual table for very large datasets (`VirtualTable`): the rows
    and their filtered copy, the search filter, the sort toggled by clicks
    on a header, and the window of rows a scroll position renders. */
module VirtualTables {
  import opened Common

  // ---------------------------------------------------------------------
  // Cells
  // ---------------------------------------------------------------------

  /** A table cell: a string, an integer, or missing (`null`/`undefined`). */
  datatype Cell = Text(s: string) | Num(n: int) | Missing

  type Row = seq<Cell>

  /** `row[index]`, missing beyond the end of the row. */
  function CellAt(row: Row, index: nat): Cell {
    if index < |row| then row[index] else Missing
  }

  /** JavaScript truthiness: the empty string, zero and a missing value
      are falsy. */
  predicate Truthy(c: Cell) {
    match c
    case Text(s) => s != ""
    case Num(n) => n != 0
    case Missing => false
  }

  function DigitChar(d: nat): char
    requires d < 10
  {
    "0123456789"[d]
  }

  /** Decimal digits of a natural number, most significant first. */
  function NatString(n: nat): (r: string)
    ensures |r| > 0
    decreases n
  {
    if n < 10 then [DigitChar(n)] else NatString(n / 10) + [DigitChar(n % 10)]
  }

  /** `value.toString()`. */
  function CellString(c: Cell): string {
    match c
    case Text(s) => s
    case Num(n) => if n < 0 then "-" + NatString(-n) else NatString(n)
    case Missing => ""
  }

  /** `toLowerCase()` on the letters A to Z; other characters are kept. */
  function Lower(s: string): string {
    seq(|s|, i requires 0 <= i < |s| => LowerChar(s[i]))
  }

  function LowerChar(c: char): char {
    if 'A' <= c <= 'Z' then (c as int + 32) as char else c
  }

  /** Lower-casing twice is lower-casing once. */
  lemma LowerIdempotent(s: string)
    ensures Lower(Lower(s)) == Lower(s)
  {
  }

  /** `s.includes(t)`: `t` occurs in `s` at some position. */
  function Contains(s: string, t: string): (r: bool)
    ensures r ==> |t| <= |s|
  {
    if |t| > |s| then false
    else if s[..|t|] == t then true
    else Contains(s[1..], t)
  }

  /** `t` occurs in `s` at position `i`. */
  ghost predicate OccursAt(s: string, t: string, i: int) {
    0 <= i && i + |t| <= |s| && s[i..i + |t|] == t
  }

  /** `Contains` holds exactly when `t` occurs somewhere in `s`. */
  lemma {:induction false} ContainsMeans(s: string, t: string)
    ensures Contains(s, t) <==> exists i :: OccursAt(s, t, i)
    decreases |s|
  {
    if |t| <= |s| && s[..|t|] == t {
      assert OccursAt(s, t, 0);
    } else if |t| <= |s| {
      ContainsMeans(s[1..], t);
      if Contains(s, t) {
        var i :| OccursAt(s[1..], t, i);
        OccursShift(s, t, i);
      }
      if exists i :: OccursAt(s, t, i) {
        var i :| OccursAt(s, t, i);
        assert i != 0;
        OccursShift(s, t, i - 1);
      }
    }
  }

  lemma OccursShift(s: string, t: string, i: int)
    requires s != [] && 0 <= i
    ensures OccursAt(s[1..], t, i) <==> OccursAt(s, t, i + 1)
  {
    if i + 1 + |t| <= |s| {
      assert s[1..][i..i + |t|] == s[i + 1..i + 1 + |t|];
    }
  }

  /** A cell matches a lower-cased term when it is truthy and its
      lower-cased string contains the term. */
  predicate CellMatches(c: Cell, term: string) {
    Truthy(c) && Contains(Lower(CellString(c)), term)
  }

  /** Some of the first `columns` cells of `row` matches. */
  predicate RowMatches(row: Row, columns: nat, term: string) {
    exists i :: 0 <= i < columns && CellMatches(CellAt(row, i), term)
  }

  // ---------------------------------------------------------------------
  // Search
  // ---------------------------------------------------------------------

  /** `data.filter(row => columns.some(...))`: the matching rows, in order. */
  function Filter(rows: seq<Row>, columns: nat, term: string): (r: seq<Row>)
    ensures |r| <= |rows|
    ensures forall x :: x in r <==> x in rows && RowMatches(x, columns, term)
  {
    if rows == [] then []
    else
      var last := rows[|rows| - 1];
      Filter(rows[..|rows| - 1], columns, term) + (if RowMatches(last, columns, term) then [last] else [])
  }

  /** `r` is `s` with some elements left out, the rest in their order. */
  ghost predicate SubsequenceOf<T>(r: seq<T>, s: seq<T>)
    decreases |s|
  {
    if r == [] then true
    else if s == [] then false
    else if r[|r| - 1] == s[|s| - 1] then SubsequenceOf(r[..|r| - 1], s[..|s| - 1])
    else SubsequenceOf(r, s[..|s| - 1])
  }

  /** The search keeps the order of the rows it keeps. */
  lemma {:induction false} FilterSubsequence(rows: seq<Row>, columns: nat, term: string)
    ensures SubsequenceOf(Filter(rows, columns, term), rows)
  {
    if rows != [] {
      var p := rows[..|rows| - 1];
      var last := rows[|rows| - 1];
      FilterSubsequence(p, columns, term);
      var f := Filter(p, columns, term);
      if RowMatches(last, columns, term) {
        assert (f + [last])[..|f|] == f;
      } else {
        assert f + [] == f;
        SubsequenceOfSnoc(f, p, last);
      }
    }
  }

  /** Appending to the longer sequence keeps a subsequence a subsequence. */
  lemma {:induction false} SubsequenceOfSnoc<T>(r: seq<T>, s: seq<T>, x: T)
    requires SubsequenceOf(r, s)
    ensures SubsequenceOf(r, s + [x])
    decreases |s|, 1
  {
    assert (s + [x])[..|s|] == s;
    if r != [] && r[|r| - 1] == x {
      SubsequenceOfDropLast(r, s);
    }
  }

  lemma {:induction false} SubsequenceOfDropLast<T>(r: seq<T>, s: seq<T>)
    requires r != [] && SubsequenceOf(r, s)
    ensures SubsequenceOf(r[..|r| - 1], s)
    decreases |s|, 0
  {
    var p := s[..|s| - 1];
    if r[|r| - 1] == s[|s| - 1] {
      if |r| > 1 {
        SubsequenceOfDropLast(r[..|r| - 1], p);
        assert r[..|r| - 1][..|r| - 2] == r[..|r| - 2];
        SubsequenceOfSnoc(r[..|r| - 2], p, s[|s| - 1]);
        assert p + [s[|s| - 1]] == s;
      }
    } else {
      SubsequenceOfDropLast(r, p);
      SubsequenceOfSnoc(r[..|r| - 1], p, s[|s| - 1]);
      assert p + [s[|s| - 1]] == s;
    }
  }

  /** Searching the found rows again for the same term finds them all. */
  lemma {:induction false} FilterIdempotent(rows: seq<Row>, columns: nat, term: string)
    ensures Filter(Filter(rows, columns, term), columns, term) == Filter(rows, columns, term)
  {
    if rows != [] {
      var p := rows[..|rows| - 1];
      var last := rows[|rows| - 1];
      var f := Filter(p, columns, term);
      FilterIdempotent(p, columns, term);
      FilterAppend(f, if RowMatches(last, columns, term) then [last] else [], columns, term);
    }
  }

  lemma {:induction false} FilterAppend(a: seq<Row>, b: seq<Row>, columns: nat, term: string)
    ensures Filter(a + b, columns, term) == Filter(a, columns, term) + Filter(b, columns, term)
  {
    if b == [] {
      assert a + b == a;
    } else {
      var b' := b[..|b| - 1];
      assert (a + b)[..|a + b| - 1] == a + b';
      FilterAppend(a, b', columns, term);
    }
  }

  /** A row whose cells are all falsy (`0`, `''`, missing) is never found. */
  lemma FalsyRowNeverMatches(row: Row, columns: nat, term: string)
    requires forall i :: 0 <= i < |row| ==> !Truthy(row[i])
    ensures !RowMatches(row, columns, term)
  {
  }

  // ---------------------------------------------------------------------
  // Sort
  // ---------------------------------------------------------------------

  datatype Direction = Asc | Desc

  /** JavaScript's `a < b` on strings: character by character, a proper
      prefix first. Characters are compared by their code points. */
  function StrLess(a: string, b: string): bool {
    if a == [] then b != []
    else if b == [] then false
    else if a[0] != b[0] then a[0] < b[0]
    else StrLess(a[1..], b[1..])
  }

  lemma {:induction false} StrLessIrreflexive(a: string)
    ensures !StrLess(a, a)
  {
    if a != [] {
      StrLessIrreflexive(a[1..]);
    }
  }

  lemma {:induction false} StrLessTransitive(a: string, b: string, c: string)
    requires StrLess(a, b) && StrLess(b, c)
    ensures StrLess(a, c)
  {
    if a != [] && b != [] && c != [] && a[0] == b[0] && b[0] == c[0] {
      StrLessTransitive(a[1..], b[1..], c[1..]);
    }
  }

  /** Of two different strings, one is less than the other. */
  lemma {:induction false} StrLessTotal(a: string, b: string)
    requires a != b
    ensures StrLess(a, b) || StrLess(b, a)
  {
    if a != [] && b != [] && a[0] == b[0] {
      assert a == [a[0]] + a[1..] && b == [b[0]] + b[1..];
      StrLessTotal(a[1..], b[1..]);
    }
  }

  /** The position of a cell's kind in the order between kinds. */
  function Rank(c: Cell): nat {
    match c
    case Missing => 0
    case Num(_) => 1
    case Text(_) => 2
  }

  /** `a < b` on cells: numbers by value, strings as JavaScript compares
      them; cells of different kinds by kind (missing, number, string). */
  function CellLess(a: Cell, b: Cell): bool {
    if Rank(a) != Rank(b) then Rank(a) < Rank(b)
    else match (a, b)
      case (Num(x), Num(y)) => x < y
      case (Text(x), Text(y)) => StrLess(x, y)
      case _ => false
  }

  /** `CellLess` is a strict total order: irreflexive, transitive, and it
      relates any two different cells. */
  lemma CellLessOrder(a: Cell, b: Cell, c: Cell)
    ensures !CellLess(a, a)
    ensures CellLess(a, b) && CellLess(b, c) ==> CellLess(a, c)
    ensures a != b ==> CellLess(a, b) || CellLess(b, a)
  {
    if a.Text? {
      StrLessIrreflexive(a.s);
    }
    if a.Text? && b.Text? && c.Text? && CellLess(a, b) && CellLess(b, c) {
      StrLessTransitive(a.s, b.s, c.s);
    }
    if a.Text? && b.Text? && a != b {
      StrLessTotal(a.s, b.s);
    }
  }

  /** The comparator `sort` passes to `Array.prototype.sort`, as the order
      "`a` may precede `b`": on column `column`, ascending or descending. */
  function RowLe(column: nat, direction: Direction, a: Row, b: Row): bool {
    var x, y := CellAt(a, column), CellAt(b, column);
    if direction == Asc then !CellLess(y, x) else !CellLess(x, y)
  }

  function RowOrder(column: nat, direction: Direction): (Row, Row) -> bool {
    (a, b) => RowLe(column, direction, a, b)
  }

  /** Every column and direction gives a total preorder on rows. */
  lemma RowOrderTotal(column: nat, direction: Direction)
    ensures TotalPreorder(RowOrder(column, direction))
  {
    var le := RowOrder(column, direction);
    forall x, y ensures le(x, y) || le(y, x) {
      CellLessOrder(CellAt(x, column), CellAt(y, column), CellAt(x, column));
    }
    forall x, y, z | le(x, y) && le(y, z) ensures le(x, z) {
      var a, b, c := CellAt(x, column), CellAt(y, column), CellAt(z, column);
      CellLessOrder(a, b, c);
      CellLessOrder(c, b, a);
      CellLessOrder(a, c, b);
      CellLessOrder(c, a, b);
      CellLessOrder(b, a, c);
      CellLessOrder(b, c, a);
    }
  }

  /** The header state after a click on column `column`: the same column
      flips the direction, another column is selected ascending. */
  function NextSortState(sortColumn: Option<nat>, sortDirection: Direction, column: nat): (Option<nat>, Direction) {
    if sortColumn == Some(column) then (sortColumn, if sortDirection == Asc then Desc else Asc)
    else (Some(column), Asc)
  }

  /** Two clicks on the column already sorted restore the state; a click
      on any column leaves it selected, and a click on a new column sorts
      ascending. */
  lemma SortToggle(sortColumn: Option<nat>, sortDirection: Direction, column: nat)
    ensures NextSortState(sortColumn, sortDirection, column).0 == Some(column)
    ensures sortColumn != Some(column) ==> NextSortState(sortColumn, sortDirection, column).1 == Asc
    ensures sortColumn == Some(column) ==>
              NextSortState(sortColumn, sortDirection, column).1 != sortDirection
    ensures var (c, d) := NextSortState(sortColumn, sortDirection, column);
            NextSortState(c, d, column).0 == Some(column)
            && (sortColumn == Some(column) ==> NextSortState(c, d, column) == (sortColumn, sortDirection))
  {
  }

  // ---------------------------------------------------------------------
  // The rendered window
  // ---------------------------------------------------------------------

  /** The first row under the top edge: `Math.floor(scrollTop / rowHeight)`. */
  function FirstVisible(scrollTop: real, rowHeight: nat): (r: nat)
    requires scrollTop >= 0.0 && rowHeight > 0
    ensures r as real <= scrollTop / rowHeight as real < r as real + 1.0
  {
    (scrollTop / rowHeight as real).Floor
  }

  /** The first rendered row: `bufferRows` above the first visible one. */
  function WindowStart(first: nat, bufferRows: nat): nat {
    Max(0, first - bufferRows)
  }

  /** One past the last rendered row: a screen and two buffers below the
      first visible row, at most the number of rows. */
  function WindowEnd(first: nat, visibleRows: nat, bufferRows: nat, count: nat): nat {
    Min(first + visibleRows + bufferRows * 2, count)
  }

  /** `rows.slice(start, end)` for `0 <= start` and `end <= |rows|`. */
  function Slice(rows: seq<Row>, start: nat, end: nat): seq<Row>
    requires end <= |rows|
  {
    if start < end then rows[start..end] else []
  }

  /** The window contains every row of the screen, and never more than a
      screen and three buffers. */
  lemma WindowCovers(first: nat, visibleRows: nat, bufferRows: nat, count: nat, i: nat)
    requires first <= i < Min(first + visibleRows, count)
    ensures WindowStart(first, bufferRows) <= i < WindowEnd(first, visibleRows, bufferRows, count)
    ensures WindowEnd(first, visibleRows, bufferRows, count) - WindowStart(first, bufferRows)
              <= visibleRows + bufferRows * 3
  {
  }

  // ---------------------------------------------------------------------
  // The table
  // ---------------------------------------------------------------------

  /** `VirtualTable` without its DOM: the rows, the column titles, the
      options, the filtered rows in display order, the scroll position,
      the rendered window, and the search and sort state. */
  class VirtualTable {
    var data: seq<Row>
    var columns: seq<string>
    const rowHeight: nat
    const visibleRows: nat
    const bufferRows: nat
    const searchDelay: nat
    var filteredData: seq<Row>
    var scrollTop: real
    var startIndex: nat
    var endIndex: nat
    var searchTerm: string
    var sortColumn: Option<nat>
    var sortDirection: Direction

    ghost predicate Valid()
      reads this
    {
      rowHeight > 0 && scrollTop >= 0.0
    }

    /** The window `render` last computed is the one for the current scroll
        position and rows. */
    ghost predicate Rendered()
      reads this
      requires Valid()
    {
      var first := FirstVisible(scrollTop, rowHeight);
      && startIndex == WindowStart(first, bufferRows)
      && endIndex == WindowEnd(first, visibleRows, bufferRows, |filteredData|)
    }

    /** The options default to 35, 20, 5 and 300 when not given; the table
        starts unfiltered, unsorted, at the top, and rendered. `None` always
        means the default: an option given explicitly as `undefined`, which
        the object spread lets replace the default, is not modelled. */
    constructor (data: seq<Row>, columns: seq<string>,
                 rowHeight: Option<nat>, visibleRows: Option<nat>,
                 bufferRows: Option<nat>, searchDelay: Option<nat>)
      requires rowHeight != Some(0)
      ensures this.data == data && this.columns == columns
      ensures this.rowHeight == (if rowHeight.Some? then rowHeight.value else 35)
      ensures this.visibleRows == (if visibleRows.Some? then visibleRows.value else 20)
      ensures this.bufferRows == (if bufferRows.Some? then bufferRows.value else 5)
      ensures this.searchDelay == (if searchDelay.Some? then searchDelay.value else 300)
      ensures filteredData == data && scrollTop == 0.0 && searchTerm == ""
      ensures sortColumn == None && sortDirection == Asc
      ensures Valid() && Rendered()
      ensures startIndex == 0 && endIndex == Min(this.visibleRows + this.bufferRows * 2, |data|)
    {
      this.data := data;
      this.columns := columns;
      this.rowHeight := if rowHeight.Some? then rowHeight.value else 35;
      this.visibleRows := if visibleRows.Some? then visibleRows.value else 20;
      this.bufferRows := if bufferRows.Some? then bufferRows.value else 5;
      this.searchDelay := if searchDelay.Some? then searchDelay.value else 300;
      filteredData := data;
      scrollTop := 0.0;
      startIndex := 0;
      endIndex := 0;
      searchTerm := "";
      sortColumn := None;
      sortDirection := Asc;
      new;
      var _ := Render();
    }

    /** `render`: the window for the current scroll position and the rows
        in it, each at its index in `filteredData`. */
    method Render() returns (visible: seq<Row>)
      requires Valid()
      modifies this`startIndex, this`endIndex
      ensures Valid() && Rendered()
      ensures endIndex <= |filteredData|
      ensures visible == Slice(filteredData, startIndex, endIndex)
    {
      var first := (scrollTop / rowHeight as real).Floor;
      startIndex := Max(0, first - bufferRows);
      endIndex := Min(first + visibleRows + bufferRows * 2, |filteredData|);
      visible := Slice(filteredData, startIndex, endIndex);
    }

    /** `updateVisibleRange`: the 1-based first row and the last row shown;
        after `render` they count exactly the rendered rows. */
    function VisibleRange(): (range: (int, int))
      reads this
      requires Valid() && Rendered()
      ensures range.0 >= 1 && range.1 <= |filteredData|
      ensures range.0 <= range.1 <==> Slice(filteredData, startIndex, endIndex) != []
      ensures range.0 <= range.1 ==> range.1 - range.0 + 1 == |Slice(filteredData, startIndex, endIndex)|
    {
      (startIndex + 1, Min(endIndex, |filteredData|))
    }

    /** `handleScroll`: the new scroll position, then `render`. */
    method HandleScroll(position: real)
      requires Valid() && position >= 0.0
      modifies this`scrollTop, this`startIndex, this`endIndex
      ensures scrollTop == position
      ensures Valid() && Rendered()
    {
      scrollTop := position;
      var _ := Render();
    }

    /** `search`: the term is stored lower-cased; an empty term shows all
        rows in their original order, any other the rows some of whose
        cells match it; then `render`. */
    method Search(term: string)
      requires Valid()
      modifies this`searchTerm, this`filteredData, this`startIndex, this`endIndex
      ensures searchTerm == Lower(term)
      ensures term == "" ==> filteredData == data
      ensures term != "" ==> filteredData == Filter(data, |columns|, Lower(term))
      ensures SubsequenceOf(filteredData, data)
      ensures Valid() && Rendered()
    {
      searchTerm := Lower(term);
      if term == "" {
        filteredData := data;
        SubsequenceOfSelf(data);
      } else {
        filteredData := Filter(data, |columns|, searchTerm);
        FilterSubsequence(data, |columns|, searchTerm);
      }
      var _ := Render();
    }

    /** `sort`: update the header state, then sort the filtered rows in
        place by the chosen column and direction; then `render`. */
    method Sort(column: nat)
      requires Valid()
      modifies this`sortColumn, this`sortDirection, this`filteredData, this`startIndex, this`endIndex
      ensures (sortColumn, sortDirection) == NextSortState(old(sortColumn), old(sortDirection), column)
      ensures multiset(filteredData) == multiset(old(filteredData))
      ensures SortedBy(filteredData, RowOrder(column, sortDirection))
      ensures StablySorted(filteredData, old(filteredData), RowOrder(column, sortDirection))
      ensures Valid() && Rendered()
    {
      if sortColumn == Some(column) {
        sortDirection := if sortDirection == Asc then Desc else Asc;
      } else {
        sortColumn := Some(column);
        sortDirection := Asc;
      }
      RowOrderTotal(column, sortDirection);
      filteredData := SortSeq(filteredData, RowOrder(column, sortDirection));
      PermutationLength(filteredData, old(filteredData));
      var _ := Render();
    }

    /** `setData`: new rows, shown unfiltered; the search term and the
        sort state are kept as they were. */
    method SetData(newData: seq<Row>)
      requires Valid()
      modifies this`data, this`filteredData, this`startIndex, this`endIndex
      ensures data == newData && filteredData == newData
      ensures Valid() && Rendered()
    {
      data := newData;
      filteredData := newData;
      var _ := Render();
    }

    /** `refresh`: render again. */
    method Refresh()
      requires Valid()
      modifies this`startIndex, this`endIndex
      ensures Valid() && Rendered()
    {
      var _ := Render();
    }
  }

  lemma {:induction false} SubsequenceOfSelf<T>(s: seq<T>)
    ensures SubsequenceOf(s, s)
  {
    if s != [] {
      SubsequenceOfSelf(s[..|s| - 1]);
    }
  }
}
