/**
 * Output names of tiles: the fixed officer preset table keyed by 1-based
 * (row, column), the preset lookup that excludes cells, and the sequential
 * fallback name `{prefix}_{index:02d}`.
 */
module Naming {

  datatype Option<T> = None | Some(value: T)

  /** A preset: 1-based (row, column) to a name, or to None for a slot left out on purpose. */
  type PresetTable = map<(int, int), Option<string>>

  /** The `--preset` choices. */
  datatype Preset = NoPreset | Officers4x6

  /** `OFFICER_PRESET_4X6`. */
  const OfficerPreset: PresetTable := map[
    (1, 1) := Some("dong_zhuo"),
    (1, 2) := Some("lu_bu"),
    (1, 3) := Some("li_ru"),
    (1, 4) := Some("hua_xiong"),
    (1, 5) := Some("cao_cao"),
    (1, 6) := Some("xun_yu"),
    (2, 1) := Some("xiahou_dun"),
    (2, 2) := Some("xiahou_yuan"),
    (2, 3) := Some("zhao_yun"),
    (2, 4) := Some("liu_bei"),
    (2, 5) := Some("guan_yu"),
    (2, 6) := None,  // a second Guan Yu
    (3, 1) := Some("zhang_fei"),
    (3, 2) := Some("sun_jian"),
    (3, 3) := Some("huang_gai"),
    (3, 4) := Some("cheng_pu"),
    (3, 5) := Some("yuan_shao"),
    (3, 6) := None,  // an extra scholar
    (4, 1) := Some("yan_liang"),
    (4, 2) := Some("wen_chou"),
    (4, 3) := Some("yuan_shu"),
    (4, 4) := Some("ji_ling"),
    (4, 5) := Some("diaochan"),
    (4, 6) := Some("player_default")
  ]

  /** The table `--preset` selects: none for `none`, the officer table for `officers_4x6`. */
  function PresetTableOf(p: Preset): (t: Option<PresetTable>)
    ensures t.None? <==> p == NoPreset
    ensures p == Officers4x6 ==> t == Some(OfficerPreset)
  {
    match p
    case NoPreset => None
    case Officers4x6 => Some(OfficerPreset)
  }

  /** The active preset skips 0-based cell (r, c): its 1-based position is missing or mapped to None. */
  predicate PresetExcludes(table: Option<PresetTable>, r: int, c: int)
  {
    table.Some? && ((r + 1, c + 1) !in table.value || table.value[(r + 1, c + 1)].None?)
  }

  /** The ASCII digit for d. */
  function DigitChar(d: nat): char
    requires d < 10
  {
    (48 + d) as char
  }

  /** The decimal digits of n, as `str(n)` writes them. */
  function Decimal(n: nat): (s: string)
    ensures |s| >= 1
  {
    if n < 10 then [DigitChar(n)] else Decimal(n / 10) + [DigitChar(n % 10)]
  }

  /** `f"{n:02d}"`: at least two digits, padded with a leading zero. */
  function Pad2(n: nat): string
  {
    if n < 10 then "0" + Decimal(n) else Decimal(n)
  }

  /** The sequential name `f"{prefix}_{index:02d}"`. */
  function FallbackName(prefix: string, index: nat): string
  {
    prefix + "_" + Pad2(index)
  }

  /**
   * The name the driver gives 0-based cell (r, c) when it is not excluded: the
   * preset's name when there is a non-empty one, else the sequential name for
   * index r * cols + c + 1.
   */
  function CellName(table: Option<PresetTable>, prefix: string, cols: nat, r: nat, c: nat): string
  {
    var mapped := if table.Some? && (r + 1, c + 1) in table.value then table.value[(r + 1, c + 1)] else None;
    if mapped.Some? && mapped.value != "" then mapped.value else FallbackName(prefix, r * cols + c + 1)
  }

  /** A decimal numeral starts with '0' only when it is "0". */
  lemma {:induction false} DecimalLeadingDigit(n: nat)
    ensures Decimal(n)[0] == '0' ==> n == 0
  {
    if n >= 10 {
      DecimalLeadingDigit(n / 10);
    }
  }

  /** Different numbers have different numerals. */
  lemma {:induction false} DecimalInjective(a: nat, b: nat)
    requires Decimal(a) == Decimal(b)
    ensures a == b
  {
    if a >= 10 && b >= 10 {
      var sa, sb := Decimal(a), Decimal(b);
      assert sa[..|sa| - 1] == Decimal(a / 10) && sb[..|sb| - 1] == Decimal(b / 10);
      assert DigitChar(a % 10) == sa[|sa| - 1] == sb[|sb| - 1] == DigitChar(b % 10);
      DecimalInjective(a / 10, b / 10);
    } else if a < 10 && b < 10 {
      assert DigitChar(a) == Decimal(a)[0];
    }
  }

  /** Distinct indices give distinct two-digit padded numerals. */
  lemma Pad2Injective(a: nat, b: nat)
    requires Pad2(a) == Pad2(b)
    ensures a == b
  {
    if a < 10 && b < 10 {
      assert DigitChar(a) == Pad2(a)[1];
    } else if a < 10 {
      DecimalLeadingDigit(b);
    } else if b < 10 {
      DecimalLeadingDigit(a);
    } else {
      DecimalInjective(a, b);
    }
  }

  /** With one prefix, distinct indices give distinct sequential names. */
  lemma FallbackNameInjective(prefix: string, a: nat, b: nat)
    requires FallbackName(prefix, a) == FallbackName(prefix, b)
    ensures a == b
  {
    var n := |prefix| + 1;
    assert FallbackName(prefix, a)[n..] == Pad2(a);
    assert FallbackName(prefix, b)[n..] == Pad2(b);
    Pad2Injective(a, b);
  }

  /** With 7 columns, cell (0, 0) is `{prefix}_01` and cell (1, 0) is `{prefix}_08`. */
  lemma FallbackNameExamples(prefix: string)
    ensures CellName(None, prefix, 7, 0, 0) == prefix + "_01"
    ensures CellName(None, prefix, 7, 1, 0) == prefix + "_08"
  {
    assert Decimal(1) == "1" && Decimal(8) == "8";
  }

  /**
   * The sequential index r * cols + c + 1 of a cell lies in 1 .. rows * cols
   * and determines the cell.
   */
  lemma CellIndexRange(rows: nat, cols: nat, r: nat, c: nat)
    requires r < rows && c < cols
    ensures 1 <= r * cols + c + 1 <= rows * cols
  {
    assert r * cols + c + 1 <= (r + 1) * cols;
    assert (r + 1) * cols <= rows * cols;
  }

  lemma CellIndexInjective(cols: nat, r1: nat, c1: nat, r2: nat, c2: nat)
    requires c1 < cols && c2 < cols
    requires r1 * cols + c1 == r2 * cols + c2
    ensures r1 == r2 && c1 == c2
  {
    assert r1 * cols + c1 < (r1 + 1) * cols && r2 * cols + c2 < (r2 + 1) * cols;
    MulLessCancel(r1, r2 + 1, cols);
    MulLessCancel(r2, r1 + 1, cols);
  }

  lemma MulLessCancel(a: nat, b: nat, k: nat)
    requires a * k < b * k
    ensures a < b
  {
  }

  /** The table covers exactly rows 1..4 and columns 1..6. */
  lemma OfficerPresetPositions(row: int, col: int)
    ensures (row, col) in OfficerPreset <==> 1 <= row <= 4 && 1 <= col <= 6
  {
  }

  /** Exactly (2, 6) and (3, 6) are excluded; (1, 1) is Dong Zhuo. */
  lemma OfficerPresetEntries(row: int, col: int)
    requires (row, col) in OfficerPreset
    ensures OfficerPreset[(row, col)].None? <==> (row, col) == (2, 6) || (row, col) == (3, 6)
    ensures OfficerPreset[(1, 1)] == Some("dong_zhuo")
  {
  }

  /** Every name in the officer table is non-empty, and no two positions share one. */
  lemma OfficerPresetNamesDistinct(k1: (int, int), k2: (int, int))
    requires k1 in OfficerPreset && k2 in OfficerPreset
    requires OfficerPreset[k1].Some?
    ensures OfficerPreset[k1].value != ""
    ensures OfficerPreset[k1] == OfficerPreset[k2] ==> k1 == k2
  {
  }
}
