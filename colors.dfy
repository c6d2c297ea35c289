/** The palette resolver (consts/colors.ts): a slice's own colour, or the default palette cycled by index. */
module Colors {
  import opened PieChartTypes

  /** The default palette: ten design-token colours, in order. */
  const DefaultColors: seq<string> := [
    "var(--primary-color)",
    "var(--positive-color)",
    "var(--warning-color)",
    "var(--negative-color)",
    "var(--brand-color)",
    "var(--info-color)",
    "var(--success-color)",
    "var(--dark-color)",
    "var(--inverted-color-background)",
    "var(--secondary-text-color)"
  ]

  /** JavaScript truthiness of an optional string: absent and the empty string are falsy. */
  predicate Truthy(customColor: Option<string>)
  {
    customColor.Some? && customColor.value != ""
  }

  /** The slice's own colour when it is truthy, otherwise the palette entry at `index` modulo the palette size. */
  function GetSliceColor(index: nat, customColor: Option<string>): (color: string)
    ensures (customColor.Some? && color == customColor.value) || color in DefaultColors
    ensures Truthy(customColor) ==> color == customColor.value
    ensures !Truthy(customColor) ==> color == DefaultColors[index % |DefaultColors|]
  {
    if Truthy(customColor) then customColor.value
    else DefaultColors[index % |DefaultColors|]
  }

  lemma PaletteHasTenEntries()
    ensures |DefaultColors| == 10
  {
  }

  /**
   * A proof aid with no counterpart in the palette code: the position of a
   * palette token, read off the letters after "var(--", or -1 for anything
   * else. It lets the verifier tell the ten tokens apart cheaply.
   */
  function PalettePosition(token: string): int
  {
    if |token| < 9 then -1
    else
      var a, b, c := token[6], token[7], token[8];
      if a == 'p' && b == 'r' then 0 else if a == 'p' && b == 'o' then 1
      else if a == 'w' then 2 else if a == 'n' then 3 else if a == 'b' then 4
      else if a == 'i' && c == 'f' then 5 else if a == 's' && b == 'u' then 6
      else if a == 'd' then 7 else if a == 'i' && c == 'v' then 8
      else if a == 's' && b == 'e' then 9 else -1
  }

  /** The ten palette entries are pairwise distinct. */
  lemma PaletteEntriesDistinct()
    ensures forall i, j :: 0 <= i < j < |DefaultColors| ==> DefaultColors[i] != DefaultColors[j]
  {
    var d := DefaultColors;
    assert PalettePosition(d[0]) == 0 && PalettePosition(d[1]) == 1 && PalettePosition(d[2]) == 2;
    assert PalettePosition(d[3]) == 3 && PalettePosition(d[4]) == 4 && PalettePosition(d[5]) == 5;
    assert PalettePosition(d[6]) == 6 && PalettePosition(d[7]) == 7 && PalettePosition(d[8]) == 8;
    assert PalettePosition(d[9]) == 9;
    assert forall i :: 0 <= i < |d| ==> PalettePosition(d[i]) == i;
  }

  /** Without a truthy custom colour the result is the palette entry at `index mod 10`; an empty string counts as no colour. */
  lemma FallsBackToPalette(index: nat, customColor: Option<string>)
    requires !Truthy(customColor)
    ensures GetSliceColor(index, customColor) == DefaultColors[index % 10]
  {
  }

  lemma EmptyCustomColorFallsBack(index: nat)
    ensures GetSliceColor(index, Some("")) == GetSliceColor(index, None)
  {
  }

  /** Without a custom colour, slices k palette lengths apart get the same colour. */
  lemma {:induction false} PaletteCycles(index: nat, k: nat)
    ensures GetSliceColor(index + 10 * k, None) == GetSliceColor(index, None)
  {
    if k > 0 {
      var m := index + 10 * (k - 1);
      PaletteCycles(index, k - 1);
      assert index + 10 * k == m + 10;
      OnePeriod(m);
    }
  }

  lemma OnePeriod(n: nat)
    ensures (n + 10) % 10 == n % 10
  {
  }

  /** Without custom colours, any ten consecutive slices get ten different colours. */
  lemma ConsecutiveSlicesDiffer(i: nat, j: nat)
    requires i < j < i + 10
    ensures GetSliceColor(i, None) != GetSliceColor(j, None)
  {
    PaletteEntriesDistinct();
    var a, b := i % 10, j % 10;
    assert a != b;
    if a < b {
      assert DefaultColors[a] != DefaultColors[b];
    } else {
      assert DefaultColors[b] != DefaultColors[a];
    }
  }
}
