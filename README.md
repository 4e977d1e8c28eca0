# Portrait sheet splitter, modelled in Dafny

`scripts/split_portrait_sheet.py` cuts a portrait sheet into its tiles. The
sheet is laid out as a grid of `rows` x `cols` cells, with an outer margin and
a gap between cells. The script visits the cells in row-major order and, for
each cell:

1. It can skip the cell because of the optional `officers_4x6` preset: the
   cell's 1-based position is missing from the table or maps to no name.
2. It skips the cell as empty when the tile is nearly flat and dark.
3. It skips the cell as a duplicate when the tile's difference hash (`dhash`)
   is within `--dedupe-hamming` bits of a hash it already kept.
4. It skips the cell when the name it would get is already used.
5. Otherwise it writes the tile under the preset name or under
   `{prefix}_{index:02d}`.

It counts each kind of skip and the tiles it writes.

The model is split into modules that follow the script's parts:

- `Bits` (`bits.dfy`): `1 << n`, bit extraction, `^`, `|` and `bit_count()` on
  non-negative integers, with their bitwise laws.
- `Fingerprint` (`fingerprint.dfy`):
  - `dhash` as a method with the source's nested loop. It is proved against a
    reference value whose bit `y * size + x` compares two neighbouring pixels.
  - `hamming_distance`.
  - The `any(...)` duplicate test over the kept hashes.
- `Classifier` (`classifier.dfy`): the `is_empty_tile` rule.
- `Geometry` (`geometry.dfy`): cell size, cell origin and crop box, plus counting
  over the cells in row-major order.
- `Naming` (`naming.dfy`):
  - the `OFFICER_PRESET_4X6` table;
  - the preset lookup;
  - the decimal, zero-padded sequential name.
- `Splitter` (`splitter.dfy`): the loop of `main`.
  - `VisitCell` is one pass of the loop body; each `continue` becomes a
    `return`. It is proved equal to the reference step `Step`.
  - `VisitRow` and `VisitRows` are the inner and outer `for` loops.
  - `SplitSheet` runs both loops from the cell size on.
  - `Run` adds the cases where `rows` or `cols` is not positive.

  The loops keep the invariant `Inv`. It has three parts:
  - `Tally`:
    - all four counters add up to the number of cells visited;
    - `skippedEmpty` is the number of visited cells the preset keeps whose tile is empty;
    - `skippedByPreset` is the number of visited cells the preset excludes, but only under
      `CollisionFree`, because otherwise name collisions also count in it;
    - `skippedDuplicate` is matched to no count of its own; it is 0 when deduplication is off;
  - `Records`: kept hashes, used names and written tiles match one to one, as
    described below;
  - `Covered`: every visited cell is accounted for.

  `Records` says:
  - each written tile passed the checks and carries its cell's box, hash and name;
  - tiles are written in row-major order under distinct names;
  - with deduplication on, the kept hashes are pairwise more than
    `dedupeHamming` apart.

  `Covered` says that every visited cell that passed the preset and emptiness
  checks was either written, or was dropped because of an earlier written
  tile: one whose hash is close enough, or one that already has its name.

The image is abstract. The driver takes two functions of the crop box:

- `stats` gives the grayscale mean and standard deviation of the cropped tile;
- `thumb` gives the cropped tile converted to grayscale and resized to the 9 x 8
  grid that `dhash` hashes.

Writing a tile appends a `Saved` record: the name, the cell, the box and the
hash.

The driver takes the active preset table as a parameter. `PresetTableOf` maps
the `--preset` choices to that parameter: `none` to no table, `officers_4x6` to
the officer table. The name-collision branch can fire only for a table under
which two kept cells get the same name (`CollisionFree` fails). That happens
when a name is reused, or when an entry maps to the empty string: the empty
name is falsy, so that cell gets a sequential name, which may equal another
entry's name. `PresetsCollisionFree` and `PresetChoiceCollisionFree` prove that
no `--preset` choice allows a collision. So for every choice `skippedByPreset`
counts exactly the excluded cells.

## Model

| member | source | states |
|---|---|---|
| `Bits.XorBit` | scripts/split_portrait_sheet.py:62 | bit i of `a ^ b` is set exactly when bits i of a and b differ |
| `Bits.OrBit` | scripts/split_portrait_sheet.py:56 | bit i of the bitwise or of a and b is set exactly when bit i of a or of b is set |
| `Bits.XorZeroIff` | scripts/split_portrait_sheet.py:62 | `a ^ b` is 0 exactly when a == b |
| `Bits.XorBelow` | scripts/split_portrait_sheet.py:62 | the xor of two n-bit numbers is an n-bit number |
| `Bits.PopCountZeroIff` | scripts/split_portrait_sheet.py:62 | `bit_count()` is 0 only for 0 |
| `Bits.PopCountAtMost` | scripts/split_portrait_sheet.py:62 | an n-bit number has at most n one bits |
| `Bits.OrHighBit` | scripts/split_portrait_sheet.py:56 | setting bit k of a number below 2^k adds 2^k |
| `Fingerprint.DHash` | scripts/split_portrait_sheet.py:44-58 | the nested loop returns the reference hash value; the result is below 2^(size*size); bit y*size+x is set exactly when pixel (x, y) is strictly brighter than pixel (x+1, y), and `bit_idx` is y*size+x at every step (loop invariant) |
| `Fingerprint.DHashStep` | scripts/split_portrait_sheet.py:51-57 | one inner step reads two pixels inside the grid, and or-ing in `1 << bit_idx` appends the comparison as the next bit |
| `Fingerprint.DHashBelow` | scripts/split_portrait_sheet.py:44-58 | the hash of a (size+1) x size grid is below 2^(size*size) |
| `Fingerprint.DHashBit` | scripts/split_portrait_sheet.py:53-56 | bit y*size+x of the hash is set iff pixel (x, y) > pixel (x+1, y); equal neighbours leave it clear |
| `Fingerprint.HammingSelf` | scripts/split_portrait_sheet.py:61-62 | the distance of a hash to itself is 0 |
| `Fingerprint.HammingSymmetric` | scripts/split_portrait_sheet.py:61-62 | the distance is symmetric |
| `Fingerprint.HammingZeroIff` | scripts/split_portrait_sheet.py:61-62 | the distance is 0 exactly when the hashes are equal |
| `Fingerprint.HammingAtMost` | scripts/split_portrait_sheet.py:61-62 | two n-bit hashes are at most n apart |
| `Fingerprint.Hamming64` | scripts/split_portrait_sheet.py:61-62 | two 64-bit hashes are at most 64 apart |
| `Fingerprint.AnyWithin` | scripts/split_portrait_sheet.py:119 | true exactly when some kept hash is within the maximum distance (inclusive) |
| `Fingerprint.DuplicateBoundary` | scripts/split_portrait_sheet.py:119 | a hash at exactly the maximum distance is a duplicate; one bit further is not |
| `Fingerprint.SeparatedAppend` | scripts/split_portrait_sheet.py:119-133 | appending a hash that is not within the distance of any kept hash keeps the kept hashes pairwise farther apart than the distance |
| `Classifier.EmptyTileRule` | scripts/split_portrait_sheet.py:37-41 | a tile is empty iff stddev < threshold and mean < 40, both strict; mean >= 40 or stddev >= threshold is never empty |
| `Classifier.BlackTileIsEmpty` | scripts/split_portrait_sheet.py:41 | a black flat tile is empty under any positive threshold |
| `Classifier.BrightFlatTileIsNotEmpty` | scripts/split_portrait_sheet.py:41 | a bright flat tile is never empty |
| `Geometry.CellSizeFits` | scripts/split_portrait_sheet.py:88-89 | the cells, margins and gaps fit in the sheet, and the floor division loses less than one pixel per cell |
| `Geometry.CellInsideMargins` | scripts/split_portrait_sheet.py:112-113 | each cell starts at or after the margin and ends at or before extent - margin |
| `Geometry.CellsApart` | scripts/split_portrait_sheet.py:112-113 | consecutive cells start cell + gap apart, so an earlier cell ends before a later one starts |
| `Geometry.CellBoxOnSheet` | scripts/split_portrait_sheet.py:112-114 | every crop box is non-empty and lies on the sheet inside the outer margin |
| `Geometry.CellBoxesDisjoint` | scripts/split_portrait_sheet.py:112-114 | the crop boxes of different cells share no pixel |
| `Geometry.CountAll` | scripts/split_portrait_sheet.py:99-100 | r * cols + c cells come before cell (r, c) in row-major order |
| `Geometry.CountNone` | scripts/split_portrait_sheet.py:99-100 | a condition that holds for no cell counts zero cells |
| `Naming.PresetTableOf` | scripts/split_portrait_sheet.py:77-82 | `none` selects no table; `officers_4x6` selects exactly `OFFICER_PRESET_4X6` |
| `Naming.OfficerPresetPositions` | scripts/split_portrait_sheet.py:9-34 | the table covers exactly rows 1..4 and columns 1..6 |
| `Naming.OfficerPresetEntries` | scripts/split_portrait_sheet.py:9-34 | only (2, 6) and (3, 6) map to no name; (1, 1) is `dong_zhuo` |
| `Naming.OfficerPresetNamesDistinct` | scripts/split_portrait_sheet.py:9-34 | every name in the table is non-empty, and no two positions share a name |
| `Naming.DecimalInjective` | scripts/split_portrait_sheet.py:126 | different numbers have different decimal numerals |
| `Naming.Pad2Injective` | scripts/split_portrait_sheet.py:126 | different numbers have different `:02d` numerals |
| `Naming.FallbackNameInjective` | scripts/split_portrait_sheet.py:126 | with one prefix, different indices give different sequential names |
| `Naming.FallbackNameExamples` | scripts/split_portrait_sheet.py:122-126 | with 7 columns and no preset, cell (0, 0) is named `{prefix}_01` and cell (1, 0) `{prefix}_08` |
| `Naming.CellIndexRange` | scripts/split_portrait_sheet.py:125 | the sequential index r * cols + c + 1 lies in 1 .. rows * cols |
| `Naming.CellIndexInjective` | scripts/split_portrait_sheet.py:125 | the sequential index determines the cell |
| `Splitter.VisitCell` | scripts/split_portrait_sheet.py:101-134 | one pass of the loop body, with its early exits in source order, yields exactly the reference step |
| `Splitter.StepInv` | scripts/split_portrait_sheet.py:101-134 | one step keeps the loop invariant: one counter moves, and a written tile passed every check, has a fresh name and, with deduplication on, a hash far from every kept one |
| `Splitter.PresetSkipFirst` | scripts/split_portrait_sheet.py:104-111 | a preset-excluded cell is counted in `skipped_by_preset` before any emptiness check or hash, whatever its tile is |
| `Splitter.NearDuplicateSkipped` | scripts/split_portrait_sheet.py:118-121 | with deduplication on, a tile within the distance of a kept hash (inclusive) only increments `skipped_duplicate` |
| `Splitter.InvFinal` | scripts/split_portrait_sheet.py:93-134 | after the loop the counters add up to rows * cols; `skipped_empty` counts the kept-by-preset empty cells; with a collision-free table, in particular with either built-in choice, `skipped_by_preset` counts the excluded cells and is 0 without a preset; every cell is accounted for |
| `Splitter.VisitRow` | scripts/split_portrait_sheet.py:100-134 | the inner loop over the columns of one row keeps the invariant from the start of the row to the start of the next |
| `Splitter.VisitRows` | scripts/split_portrait_sheet.py:99-134 | the outer loop carries the invariant from the start of the grid to the end of its last row |
| `Splitter.SplitSheet` | scripts/split_portrait_sheet.py:88-134 | the counters add up to rows * cols; `written` equals the number of kept hashes, used names and written tiles; the kept hashes are the written tiles' hashes; used names are their names; each written tile passed the checks and has its cell's box, hash and name; tiles are in row-major order with distinct names; with deduplication on, kept hashes are pairwise more than `dedupe_hamming` apart; without it no duplicate is counted; the empty and preset counters count the cells they should; every cell is accounted for |
| `Splitter.Run` | scripts/split_portrait_sheet.py:88-99 | zero rows or columns fail in the floor division; a negative count visits no cell and leaves every counter at 0; otherwise all cells are visited, the full invariant holds and the four counters add up to rows * cols |
| `Splitter.PresetChoiceCollisionFree` | scripts/split_portrait_sheet.py:104-129 | whatever `--preset` selects, no two kept cells get the same name |
| `Splitter.PresetsCollisionFree` | scripts/split_portrait_sheet.py:104-129 | with either built-in preset choice no two kept cells get the same name, so the collision branch never fires |
| `Splitter.FallbackNamesDistinct` | scripts/split_portrait_sheet.py:125-126 | different cells get different sequential names |
| `Splitter.OfficerDefaultGridExcludes` | scripts/split_portrait_sheet.py:104-111 | on the default 4 x 7 grid the officer preset excludes exactly column 7 of every row and the cells (2, 6) and (3, 6) (1-based), six cells in all |

## Left out

- Option parsing (argparse) and the `--preset` choice validation: the options are a
  datatype, and `PresetTableOf` maps the two choices to a table.
- Opening the image, `convert("RGBA")`, `mkdir`, `tile.save` and the final
  summary lines: these are file and terminal I/O. A save is an appended `Saved` record.
- The imaging library's `crop`, LANCZOS `resize`, grayscale conversion and
  `ImageStat`: foreign code with floating-point arithmetic. The driver receives
  the tile's statistics and its resized grid as functions of the crop box, and
  the statistics are real numbers rather than floats.
- Crop boxes with a non-positive width or height: what the imaging library does
  with them is not modelled. The driver passes the box to the two functions
  above whatever its size. The geometry lemmas assume positive cell sizes.
- Negative hash values: `dhash` only builds non-negative integers, so `^`, `|`
  and `bit_count()` are modelled on non-negative integers only.
- `Fingerprint.DHash` is proved for any `size`. The driver calls it with the
  default size 8, as the source does.
- The driver accepts any preset table, not only the built-in one. This keeps
  the name-collision branch reachable. The built-in choices are covered by
  `PresetsCollisionFree` and the ensures of `SplitSheet`.
- `services/ai/app.py` is not part of this model: it is an HTTP handler that
  calls a network service.
