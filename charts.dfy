/** `window.chartUtils`: the colour palette of the top-25 trend chart and
    the colour picked for the `index`-th series. */
module Charts {
  import opened Common

  /** `defaultColors`: 25 colours, one per series of the top-25 chart. */
  const Palette: seq<string> := [
    "#6366f1", "#8b5cf6", "#06b6d4", "#10b981", "#f59e0b",
    "#ef4444", "#8b5a2b", "#6b7280", "#ec4899", "#14b8a6",
    "#f97316", "#84cc16", "#a855f7", "#3b82f6", "#22c55e",
    "#eab308", "#dc2626", "#9333ea", "#0ea5e9", "#059669",
    "#d97706", "#65a30d", "#7c3aed", "#2563eb", "#16a34a"
  ]

  /** JavaScript's `a % 25`: the remainder takes the sign of `a` (the
      quotient truncates toward zero), unlike Dafny's Euclidean `%`. */
  function TruncRem(a: int): (r: int)
    ensures -25 < r < 25
    ensures a >= 0 ==> r >= 0
    ensures a <= 0 ==> r <= 0
    ensures (a - r) % 25 == 0
  {
    if a >= 0 then a % 25 else -((-a) % 25)
  }

  /** `getColor`: the palette entry at `index % 25`; an index whose remainder
      is negative reads past the start of the array and gives `undefined`,
      here `None`. */
  function GetColor(index: int): (color: Option<string>)
    ensures color.Some? ==> color.value in Palette
    ensures color.Some? <==> index >= 0 || index % |Palette| == 0
  {
    var k := TruncRem(index);
    if k < 0 then None else Some(Palette[k])
  }

  /** The first 25 series each get their own palette entry, in order. */
  lemma GetColorFirst(i: int)
    requires 0 <= i < |Palette|
    ensures GetColor(i) == Some(Palette[i])
  {
    assert TruncRem(i) == i;
  }

  /** No two of the first 25 series share a colour. */
  lemma GetColorDistinct(i: int, j: int)
    requires 0 <= i < j < |Palette|
    ensures GetColor(i) != GetColor(j)
  {
    GetColorFirst(i);
    GetColorFirst(j);
    PaletteDistinct();
  }

  /** The palette holds 25 different colours. */
  lemma PaletteDistinct()
    ensures |Palette| == 25
    ensures Distinct(Palette)
  {
  }

  /** The colours repeat with period 25 over non-negative indices. */
  lemma GetColorPeriodic(i: int)
    requires i >= 0
    ensures GetColor(i + |Palette|) == GetColor(i)
  {
    assert |Palette| == 25;
    assert TruncRem(i + 25) == i % 25 == TruncRem(i);
  }
}
