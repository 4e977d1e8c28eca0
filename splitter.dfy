/**
 * The driver of `main`: it visits the cells of the grid in row-major order
 * and, for each cell in turn, applies the preset lookup, the emptiness check,
 * the hash and duplicate check, and the name-collision check, and writes the
 * tile only when it passes all four. It keeps four counters, the list of
 * kept hashes and the set of used names, all in a `RunState`.
 *
 * The sheet image is abstract. `stats` gives the grayscale statistics of the
 * tile cropped with a box, and `thumb` gives that tile resized to the 9 x 8
 * grid that `dhash` hashes. Writing a tile appends a `Saved` record.
 */
module Splitter {
  import opened Bits
  import opened Geometry
  import opened Classifier
  import opened Fingerprint
  import opened Naming

  /** The options of one run together with the sheet's size; `table` is the preset `--preset` selects. */
  datatype Options = Options(layout: Layout, prefix: string, emptyThreshold: real,
                             noDedupe: bool, dedupeHamming: int, table: Option<PresetTable>)

  /** A tile written as `{name}.png`: its 0-based cell, its crop box and its hash. */
  datatype Saved = Saved(name: string, row: nat, col: nat, box: Box, hash: nat)

  /** The variables of the loop in `main`, plus the tiles written so far. */
  datatype RunState = RunState(written: nat, skippedEmpty: nat, skippedDuplicate: nat, skippedByPreset: nat,
                               keptHashes: seq<nat>, usedNames: set<string>, saved: seq<Saved>)

  /** A grid with at least one row and one column. */
  predicate Runnable(opts: Options)
  {
    opts.layout.rows > 0 && opts.layout.cols > 0
  }

  predicate Excluded(opts: Options, r: nat, c: nat)
  {
    PresetExcludes(opts.table, r, c)
  }

  function NameOf(opts: Options, r: nat, c: nat): string
    requires opts.layout.cols >= 0
  {
    CellName(opts.table, opts.prefix, opts.layout.cols, r, c)
  }

  predicate EmptyAt(opts: Options, stats: Box -> TileStats, r: nat, c: nat)
    requires Runnable(opts)
  {
    IsEmptyTile(stats(CellBox(opts.layout, r, c)), opts.emptyThreshold)
  }

  function HashAt(opts: Options, thumb: Box -> Thumb, r: nat, c: nat): nat
    requires Runnable(opts)
  {
    DHashValue(thumb(CellBox(opts.layout, r, c)), HashSize)
  }

  /** The cells the preset skips. */
  function ExcludedCells(opts: Options): (nat, nat) -> bool
  {
    (r: nat, c: nat) => Excluded(opts, r, c)
  }

  /** The cells the preset keeps whose tile is empty. */
  function EmptyCells(opts: Options, stats: Box -> TileStats): (nat, nat) -> bool
  {
    (r: nat, c: nat) => Runnable(opts) && !Excluded(opts, r, c) && EmptyAt(opts, stats, r, c)
  }

  /** No two different cells that the preset keeps are given the same name. */
  ghost predicate CollisionFree(opts: Options)
    requires opts.layout.cols >= 0
  {
    forall r1: nat, c1: nat, r2: nat, c2: nat ::
      r1 < opts.layout.rows && c1 < opts.layout.cols && r2 < opts.layout.rows && c2 < opts.layout.cols
      && (r1 != r2 || c1 != c2) && !Excluded(opts, r1, c1) && !Excluded(opts, r2, c2)
      ==> NameOf(opts, r1, c1) != NameOf(opts, r2, c2)
  }

  /** A written tile came from a cell of the grid that passed the preset and emptiness checks. */
  ghost predicate SavedOk(opts: Options, stats: Box -> TileStats, thumb: Box -> Thumb, s: Saved)
    requires Runnable(opts)
  {
    && s.row < opts.layout.rows && s.col < opts.layout.cols
    && !Excluded(opts, s.row, s.col)
    && !EmptyAt(opts, stats, s.row, s.col)
    && s.box == CellBox(opts.layout, s.row, s.col)
    && s.hash == HashAt(opts, thumb, s.row, s.col)
    && s.name == NameOf(opts, s.row, s.col)
  }

  /**
   * A cell that passed the preset and emptiness checks was written, or an
   * earlier written tile made it a duplicate or already had its name.
   */
  ghost predicate Accounted(opts: Options, stats: Box -> TileStats, thumb: Box -> Thumb, saved: seq<Saved>, r: nat, c: nat)
    requires Runnable(opts)
  {
    !Excluded(opts, r, c) && !EmptyAt(opts, stats, r, c) ==>
      || (exists s :: s in saved && s.row == r && s.col == c)
      || (!opts.noDedupe
          && (exists s :: s in saved && Before(s.row, s.col, r, c)
                && Hamming(HashAt(opts, thumb, r, c), s.hash) <= opts.dedupeHamming))
      || (exists s :: s in saved && Before(s.row, s.col, r, c) && s.name == NameOf(opts, r, c))
  }

  /** The names of the written tiles. */
  function Names(saved: seq<Saved>): set<string>
  {
    set s | s in saved :: s.name
  }

  lemma NamesAppend(saved: seq<Saved>, x: Saved)
    ensures Names(saved + [x]) == Names(saved) + {x.name}
  {
    assert forall s :: s in saved + [x] <==> s in saved || s == x;
  }

  /** Written tiles are in row-major order of their cells and have pairwise different names. */
  ghost predicate InOrder(saved: seq<Saved>)
  {
    forall i, j :: 0 <= i < j < |saved| ==>
      Before(saved[i].row, saved[i].col, saved[j].row, saved[j].col) && saved[i].name != saved[j].name
  }

  /** The counters after visiting, in row-major order, every cell before (r, c). */
  ghost predicate Tally(opts: Options, stats: Box -> TileStats, st: RunState, r: nat, c: nat)
    requires Runnable(opts)
  {
    var rows, cols := opts.layout.rows, opts.layout.cols;
    && r <= rows && c <= cols
    && st.written + st.skippedEmpty + st.skippedDuplicate + st.skippedByPreset == CountBefore(AllCells(), cols, r, c)
    && (opts.noDedupe ==> st.skippedDuplicate == 0)
    && st.skippedEmpty == CountBefore(EmptyCells(opts, stats), cols, r, c)
    && (CollisionFree(opts) ==> st.skippedByPreset == CountBefore(ExcludedCells(opts), cols, r, c))
  }

  /** The kept hashes, the used names and the written tiles, after visiting every cell before (r, c). */
  ghost predicate Records(opts: Options, stats: Box -> TileStats, thumb: Box -> Thumb, st: RunState, r: nat, c: nat)
    requires Runnable(opts)
  {
    && st.written == |st.saved| == |st.keptHashes| == |st.usedNames|
    && (forall i :: 0 <= i < |st.saved| ==> st.keptHashes[i] == st.saved[i].hash)
    && st.usedNames == Names(st.saved)
    && (forall s :: s in st.saved ==> SavedOk(opts, stats, thumb, s) && Before(s.row, s.col, r, c))
    && InOrder(st.saved)
    && (!opts.noDedupe ==> Separated(st.keptHashes, opts.dedupeHamming))
  }

  /** Every cell of the grid before (r, c) is accounted for. */
  ghost predicate Covered(opts: Options, stats: Box -> TileStats, thumb: Box -> Thumb, saved: seq<Saved>, r: nat, c: nat)
    requires Runnable(opts)
  {
    forall r': nat, c': nat :: r' < opts.layout.rows && c' < opts.layout.cols && Before(r', c', r, c) ==>
      Accounted(opts, stats, thumb, saved, r', c')
  }

  /** The state after visiting, in row-major order, every cell before (r, c). */
  ghost predicate Inv(opts: Options, stats: Box -> TileStats, thumb: Box -> Thumb, st: RunState, r: nat, c: nat)
    requires Runnable(opts)
  {
    Tally(opts, stats, st, r, c) && Records(opts, stats, thumb, st, r, c) && Covered(opts, stats, thumb, st.saved, r, c)
  }

  /** Nothing is visited yet. */
  lemma InvStart(opts: Options, stats: Box -> TileStats, thumb: Box -> Thumb, st: RunState)
    requires Runnable(opts) && st == RunState(0, 0, 0, 0, [], {}, [])
    ensures Inv(opts, stats, thumb, st, 0, 0)
  {
    assert Names([]) == {};
  }

  /** Finishing row r is starting row r + 1. */
  lemma InvNextRow(opts: Options, stats: Box -> TileStats, thumb: Box -> Thumb, st: RunState, r: nat)
    requires Runnable(opts) && r < opts.layout.rows
    requires Inv(opts, stats, thumb, st, r, opts.layout.cols)
    ensures Inv(opts, stats, thumb, st, r + 1, 0)
  {
    var cols := opts.layout.cols;
    CountAtRowEnd(EmptyCells(opts, stats), cols, r);
    CountAtRowEnd(ExcludedCells(opts), cols, r);
    CountAtRowEnd(AllCells(), cols, r);
  }

  /** Written tiles are only ever added, so a cell once accounted for stays so. */
  lemma AccountedGrows(opts: Options, stats: Box -> TileStats, thumb: Box -> Thumb, saved: seq<Saved>, x: Saved, r: nat, c: nat)
    requires Runnable(opts)
    requires Accounted(opts, stats, thumb, saved, r, c)
    ensures Accounted(opts, stats, thumb, saved + [x], r, c)
  {
    if !Excluded(opts, r, c) && !EmptyAt(opts, stats, r, c) {
      var h := HashAt(opts, thumb, r, c);
      if exists s :: s in saved && s.row == r && s.col == c {
        var s :| s in saved && s.row == r && s.col == c;
        assert s in saved + [x];
      } else if !opts.noDedupe && exists s :: s in saved && Before(s.row, s.col, r, c) && Hamming(h, s.hash) <= opts.dedupeHamming {
        var s :| s in saved && Before(s.row, s.col, r, c) && Hamming(h, s.hash) <= opts.dedupeHamming;
        assert s in saved + [x];
      } else {
        var s :| s in saved && Before(s.row, s.col, r, c) && s.name == NameOf(opts, r, c);
        assert s in saved + [x];
      }
    }
  }

  /** Counting one more cell of row r. */
  lemma CountNext(opts: Options, stats: Box -> TileStats, r: nat, c: nat)
    requires Runnable(opts)
    ensures CountBefore(EmptyCells(opts, stats), opts.layout.cols, r, c + 1)
      == CountBefore(EmptyCells(opts, stats), opts.layout.cols, r, c)
         + (if !Excluded(opts, r, c) && EmptyAt(opts, stats, r, c) then 1 else 0)
    ensures CountBefore(ExcludedCells(opts), opts.layout.cols, r, c + 1)
      == CountBefore(ExcludedCells(opts), opts.layout.cols, r, c) + (if Excluded(opts, r, c) then 1 else 0)
    ensures CountBefore(AllCells(), opts.layout.cols, r, c + 1) == CountBefore(AllCells(), opts.layout.cols, r, c) + 1
  {
    assert EmptyCells(opts, stats)(r, c) == (!Excluded(opts, r, c) && EmptyAt(opts, stats, r, c));
    assert ExcludedCells(opts)(r, c) == Excluded(opts, r, c);
  }

  /** Visiting (r, c) without writing: exactly one skip counter goes up by one. */
  lemma TallySkip(opts: Options, stats: Box -> TileStats, st: RunState, r: nat, c: nat, next: RunState)
    requires Runnable(opts) && r < opts.layout.rows && c < opts.layout.cols
    requires Tally(opts, stats, st, r, c)
    requires next.written == st.written
    requires Excluded(opts, r, c) ==> next == st.(skippedByPreset := st.skippedByPreset + 1)
    requires !Excluded(opts, r, c) && EmptyAt(opts, stats, r, c) ==> next == st.(skippedEmpty := st.skippedEmpty + 1)
    requires !Excluded(opts, r, c) && !EmptyAt(opts, stats, r, c) ==>
      || (!opts.noDedupe && next == st.(skippedDuplicate := st.skippedDuplicate + 1))
      || (!CollisionFree(opts) && next == st.(skippedByPreset := st.skippedByPreset + 1))
    ensures Tally(opts, stats, next, r, c + 1)
  {
    CountNext(opts, stats, r, c);
  }

  /** Writing the tile of (r, c): no skip counter moves. */
  lemma TallyWrite(opts: Options, stats: Box -> TileStats, st: RunState, r: nat, c: nat, next: RunState)
    requires Runnable(opts) && r < opts.layout.rows && c < opts.layout.cols
    requires Tally(opts, stats, st, r, c)
    requires !Excluded(opts, r, c) && !EmptyAt(opts, stats, r, c)
    requires next.written == st.written + 1 && next.skippedEmpty == st.skippedEmpty
    requires next.skippedDuplicate == st.skippedDuplicate && next.skippedByPreset == st.skippedByPreset
    ensures Tally(opts, stats, next, r, c + 1)
  {
    CountNext(opts, stats, r, c);
  }

  /** Visiting a cell without writing leaves the records as they were. */
  lemma RecordsSkip(opts: Options, stats: Box -> TileStats, thumb: Box -> Thumb, st: RunState, r: nat, c: nat, next: RunState)
    requires Runnable(opts)
    requires Records(opts, stats, thumb, st, r, c)
    requires next.written == st.written && next.keptHashes == st.keptHashes
    requires next.usedNames == st.usedNames && next.saved == st.saved
    ensures Records(opts, stats, thumb, next, r, c + 1)
  {
  }

  /** Writing the tile of (r, c) appends to the records and keeps them consistent. */
  lemma RecordsWrite(opts: Options, stats: Box -> TileStats, thumb: Box -> Thumb, st: RunState, r: nat, c: nat,
                     x: Saved, next: RunState)
    requires Runnable(opts)
    requires Records(opts, stats, thumb, st, r, c)
    requires SavedOk(opts, stats, thumb, x) && x.row == r && x.col == c
    requires !opts.noDedupe ==> !AnyWithin(x.hash, st.keptHashes, opts.dedupeHamming)
    requires x.name !in st.usedNames
    requires next.written == st.written + 1 && next.keptHashes == st.keptHashes + [x.hash]
    requires next.usedNames == st.usedNames + {x.name} && next.saved == st.saved + [x]
    ensures Records(opts, stats, thumb, next, r, c + 1)
  {
    NamesAppend(st.saved, x);
    HashesAppend(st.keptHashes, st.saved, x);
    SavedAppend(opts, stats, thumb, st.saved, r, c, x);
    InOrderAppend(st.saved, x);
    if !opts.noDedupe {
      SeparatedAppend(st.keptHashes, x.hash, opts.dedupeHamming);
    }
  }

  lemma HashesAppend(kept: seq<nat>, saved: seq<Saved>, x: Saved)
    requires |kept| == |saved| && forall i :: 0 <= i < |saved| ==> kept[i] == saved[i].hash
    ensures |kept + [x.hash]| == |saved + [x]|
    ensures forall i :: 0 <= i < |saved + [x]| ==> (kept + [x.hash])[i] == (saved + [x])[i].hash
  {
  }

  lemma SavedAppend(opts: Options, stats: Box -> TileStats, thumb: Box -> Thumb, saved: seq<Saved>, r: nat, c: nat, x: Saved)
    requires Runnable(opts)
    requires forall s :: s in saved ==> SavedOk(opts, stats, thumb, s) && Before(s.row, s.col, r, c)
    requires SavedOk(opts, stats, thumb, x) && x.row == r && x.col == c
    ensures forall s :: s in saved + [x] ==> SavedOk(opts, stats, thumb, s) && Before(s.row, s.col, r, c + 1)
  {
  }

  lemma InOrderAppend(saved: seq<Saved>, x: Saved)
    requires InOrder(saved)
    requires forall s :: s in saved ==> Before(s.row, s.col, x.row, x.col)
    requires x.name !in Names(saved)
    ensures InOrder(saved + [x])
  {
    forall i | 0 <= i < |saved|
      ensures Before(saved[i].row, saved[i].col, x.row, x.col) && saved[i].name != x.name
    {
      assert saved[i] in saved;
    }
  }

  /** Visiting (r, c) without writing, once (r, c) is accounted for. */
  lemma CoveredSkip(opts: Options, stats: Box -> TileStats, thumb: Box -> Thumb, saved: seq<Saved>, r: nat, c: nat)
    requires Runnable(opts)
    requires Covered(opts, stats, thumb, saved, r, c) && Accounted(opts, stats, thumb, saved, r, c)
    ensures Covered(opts, stats, thumb, saved, r, c + 1)
  {
  }

  /** Writing the tile of (r, c) accounts for (r, c) and keeps the earlier cells accounted for. */
  lemma CoveredWrite(opts: Options, stats: Box -> TileStats, thumb: Box -> Thumb, saved: seq<Saved>, r: nat, c: nat, x: Saved)
    requires Runnable(opts)
    requires Covered(opts, stats, thumb, saved, r, c) && x.row == r && x.col == c
    ensures Covered(opts, stats, thumb, saved + [x], r, c + 1)
  {
    forall r': nat, c': nat | r' < opts.layout.rows && c' < opts.layout.cols && Before(r', c', r, c + 1)
      ensures Accounted(opts, stats, thumb, saved + [x], r', c')
    {
      if Before(r', c', r, c) {
        AccountedGrows(opts, stats, thumb, saved, x, r', c');
      } else {
        assert x in saved + [x];
      }
    }
  }

  /**
   * What one pass of the loop body does to the state for cell (r, c): the
   * preset skip, the empty skip, the duplicate skip, the name-collision skip
   * (counted with the preset skips), or the write.
   */
  function Step(opts: Options, stats: Box -> TileStats, thumb: Box -> Thumb, st: RunState, r: nat, c: nat): RunState
    requires Runnable(opts)
  {
    if Excluded(opts, r, c) then st.(skippedByPreset := st.skippedByPreset + 1)
    else if EmptyAt(opts, stats, r, c) then st.(skippedEmpty := st.skippedEmpty + 1)
    else
      var h, name := HashAt(opts, thumb, r, c), NameOf(opts, r, c);
      if !opts.noDedupe && AnyWithin(h, st.keptHashes, opts.dedupeHamming) then
        st.(skippedDuplicate := st.skippedDuplicate + 1)
      else if name in st.usedNames then
        st.(skippedByPreset := st.skippedByPreset + 1)
      else
        st.(written := st.written + 1, keptHashes := st.keptHashes + [h], usedNames := st.usedNames + {name},
            saved := st.saved + [Saved(name, r, c, CellBox(opts.layout, r, c), h)])
  }

  /**
   * A cell the preset excludes is counted before the emptiness check and the
   * hash: what its tile looks like makes no difference.
   */
  lemma PresetSkipFirst(opts: Options, stats: Box -> TileStats, stats': Box -> TileStats,
                        thumb: Box -> Thumb, thumb': Box -> Thumb, st: RunState, r: nat, c: nat)
    requires Runnable(opts) && Excluded(opts, r, c)
    ensures Step(opts, stats, thumb, st, r, c) == Step(opts, stats', thumb', st, r, c)
    ensures Step(opts, stats, thumb, st, r, c).skippedByPreset == st.skippedByPreset + 1
  {
  }

  /**
   * With deduplication on, a kept tile and an unexcluded non-empty tile whose hashes are
   * at most `dedupeHamming` apart (that distance included) make the later tile a duplicate:
   * only the duplicate counter moves.
   */
  lemma NearDuplicateSkipped(opts: Options, stats: Box -> TileStats, thumb: Box -> Thumb, st: RunState,
                             r: nat, c: nat, i: nat)
    requires Runnable(opts) && !opts.noDedupe
    requires !Excluded(opts, r, c) && !EmptyAt(opts, stats, r, c)
    requires i < |st.keptHashes| && Hamming(HashAt(opts, thumb, r, c), st.keptHashes[i]) <= opts.dedupeHamming
    ensures Step(opts, stats, thumb, st, r, c) == st.(skippedDuplicate := st.skippedDuplicate + 1)
  {
  }

  /** One pass of the loop body of `main` for cell (r, c); each `continue` is a `return`. */
  method VisitCell(opts: Options, stats: Box -> TileStats, thumb: Box -> Thumb, cellW: int, cellH: int,
                   st: RunState, r: nat, c: nat) returns (next: RunState)
    requires Runnable(opts)
    requires cellW == CellWidth(opts.layout) && cellH == CellHeight(opts.layout)
    ensures next == Step(opts, stats, thumb, st, r, c)
  {
    var l := opts.layout;
    var row := r + 1;
    var col := c + 1;
    var mappedName: Option<string> := None;
    if opts.table.Some? {
      if (row, col) !in opts.table.value {
        return st.(skippedByPreset := st.skippedByPreset + 1);
      }
      mappedName := opts.table.value[(row, col)];
      if mappedName.None? {
        return st.(skippedByPreset := st.skippedByPreset + 1);
      }
    }
    var x := l.margin + c * (cellW + l.gap);
    var y := l.margin + r * (cellH + l.gap);
    var box := Box(x, y, x + cellW, y + cellH);
    assert box == CellBox(l, r, c);
    if IsEmptyTile(stats(box), opts.emptyThreshold) {
      return st.(skippedEmpty := st.skippedEmpty + 1);
    }
    var tileHash := DHash(thumb(box), HashSize);
    if !opts.noDedupe && AnyWithin(tileHash, st.keptHashes, opts.dedupeHamming) {
      return st.(skippedDuplicate := st.skippedDuplicate + 1);
    }
    var filename: string;
    if mappedName.Some? && mappedName.value != "" {
      filename := mappedName.value;
    } else {
      var idx := r * l.cols + c + 1;
      filename := FallbackName(opts.prefix, idx);
    }
    assert filename == NameOf(opts, r, c);
    if filename in st.usedNames {
      return st.(skippedByPreset := st.skippedByPreset + 1);
    }
    next := st.(keptHashes := st.keptHashes + [tileHash], usedNames := st.usedNames + {filename},
                written := st.written + 1, saved := st.saved + [Saved(filename, r, c, box, tileHash)]);
  }

  /** The invariant after visiting (r, c) without writing. */
  lemma Skipped(opts: Options, stats: Box -> TileStats, thumb: Box -> Thumb, st: RunState, r: nat, c: nat, next: RunState)
    requires Runnable(opts) && r < opts.layout.rows && c < opts.layout.cols
    requires Inv(opts, stats, thumb, st, r, c)
    requires next.written == st.written && next.keptHashes == st.keptHashes
    requires next.usedNames == st.usedNames && next.saved == st.saved
    requires Accounted(opts, stats, thumb, st.saved, r, c)
    requires Excluded(opts, r, c) ==> next == st.(skippedByPreset := st.skippedByPreset + 1)
    requires !Excluded(opts, r, c) && EmptyAt(opts, stats, r, c) ==> next == st.(skippedEmpty := st.skippedEmpty + 1)
    requires !Excluded(opts, r, c) && !EmptyAt(opts, stats, r, c) ==>
      || (!opts.noDedupe && next == st.(skippedDuplicate := st.skippedDuplicate + 1))
      || (!CollisionFree(opts) && next == st.(skippedByPreset := st.skippedByPreset + 1))
    ensures Inv(opts, stats, thumb, next, r, c + 1)
  {
    TallySkip(opts, stats, st, r, c, next);
    RecordsSkip(opts, stats, thumb, st, r, c, next);
    CoveredSkip(opts, stats, thumb, st.saved, r, c);
  }

  /**
   * One pass keeps the invariant: each cell adds to exactly one counter, a
   * skipped cell is accounted for by an earlier tile, and a written tile
   * passed every check and has a fresh name and, with deduplication on, a
   * hash far from every kept one.
   */
  lemma StepInv(opts: Options, stats: Box -> TileStats, thumb: Box -> Thumb, st: RunState, r: nat, c: nat)
    requires Runnable(opts) && r < opts.layout.rows && c < opts.layout.cols
    requires Inv(opts, stats, thumb, st, r, c)
    ensures Inv(opts, stats, thumb, Step(opts, stats, thumb, st, r, c), r, c + 1)
  {
    if Excluded(opts, r, c) || EmptyAt(opts, stats, r, c) {
      Skipped(opts, stats, thumb, st, r, c, Step(opts, stats, thumb, st, r, c));
    } else if !opts.noDedupe && AnyWithin(HashAt(opts, thumb, r, c), st.keptHashes, opts.dedupeHamming) {
      StepDuplicate(opts, stats, thumb, st, r, c);
    } else if NameOf(opts, r, c) in st.usedNames {
      StepCollision(opts, stats, thumb, st, r, c);
    } else {
      StepWrite(opts, stats, thumb, st, r, c);
    }
  }

  /** A tile within the distance of a kept hash is skipped as a duplicate of an earlier tile. */
  lemma StepDuplicate(opts: Options, stats: Box -> TileStats, thumb: Box -> Thumb, st: RunState, r: nat, c: nat)
    requires Runnable(opts) && r < opts.layout.rows && c < opts.layout.cols
    requires Inv(opts, stats, thumb, st, r, c)
    requires !Excluded(opts, r, c) && !EmptyAt(opts, stats, r, c)
    requires !opts.noDedupe && AnyWithin(HashAt(opts, thumb, r, c), st.keptHashes, opts.dedupeHamming)
    ensures Inv(opts, stats, thumb, st.(skippedDuplicate := st.skippedDuplicate + 1), r, c + 1)
  {
    var h := HashAt(opts, thumb, r, c);
    var i :| 0 <= i < |st.keptHashes| && Hamming(h, st.keptHashes[i]) <= opts.dedupeHamming;
    assert st.saved[i] in st.saved;
    Skipped(opts, stats, thumb, st, r, c, st.(skippedDuplicate := st.skippedDuplicate + 1));
  }

  /** A tile whose name is already used is skipped, which only a colliding preset allows. */
  lemma StepCollision(opts: Options, stats: Box -> TileStats, thumb: Box -> Thumb, st: RunState, r: nat, c: nat)
    requires Runnable(opts) && r < opts.layout.rows && c < opts.layout.cols
    requires Inv(opts, stats, thumb, st, r, c)
    requires !Excluded(opts, r, c) && !EmptyAt(opts, stats, r, c)
    requires NameOf(opts, r, c) in st.usedNames
    ensures Inv(opts, stats, thumb, st.(skippedByPreset := st.skippedByPreset + 1), r, c + 1)
  {
    var s :| s in st.saved && s.name == NameOf(opts, r, c);
    assert !CollisionFree(opts) by {
      assert NameOf(opts, s.row, s.col) == NameOf(opts, r, c);
    }
    Skipped(opts, stats, thumb, st, r, c, st.(skippedByPreset := st.skippedByPreset + 1));
  }

  /** A tile that passes every check is written. */
  lemma StepWrite(opts: Options, stats: Box -> TileStats, thumb: Box -> Thumb, st: RunState, r: nat, c: nat)
    requires Runnable(opts) && r < opts.layout.rows && c < opts.layout.cols
    requires Inv(opts, stats, thumb, st, r, c)
    requires !Excluded(opts, r, c) && !EmptyAt(opts, stats, r, c)
    requires !opts.noDedupe ==> !AnyWithin(HashAt(opts, thumb, r, c), st.keptHashes, opts.dedupeHamming)
    requires NameOf(opts, r, c) !in st.usedNames
    ensures var x := Saved(NameOf(opts, r, c), r, c, CellBox(opts.layout, r, c), HashAt(opts, thumb, r, c));
      Inv(opts, stats, thumb,
          st.(written := st.written + 1, keptHashes := st.keptHashes + [x.hash],
              usedNames := st.usedNames + {x.name}, saved := st.saved + [x]),
          r, c + 1)
  {
    var x := Saved(NameOf(opts, r, c), r, c, CellBox(opts.layout, r, c), HashAt(opts, thumb, r, c));
    var next := st.(written := st.written + 1, keptHashes := st.keptHashes + [x.hash],
                    usedNames := st.usedNames + {x.name}, saved := st.saved + [x]);
    TallyWrite(opts, stats, st, r, c, next);
    RecordsWrite(opts, stats, thumb, st, r, c, x, next);
    CoveredWrite(opts, stats, thumb, st.saved, r, c, x);
  }

  /**
   * `main` from the cell sizes on. Zero rows or columns fail in the floor
   * division that computes the cell size (None). A negative count leaves one
   * of the two `range`s empty, so no cell is visited. Otherwise the loop runs
   * and ends with every cell visited.
   */
  method Run(opts: Options, stats: Box -> TileStats, thumb: Box -> Thumb) returns (res: Option<RunState>)
    ensures res.None? <==> opts.layout.rows == 0 || opts.layout.cols == 0
    ensures res.Some? && (opts.layout.rows < 0 || opts.layout.cols < 0) ==> res.value == RunState(0, 0, 0, 0, [], {}, [])
    ensures Runnable(opts) ==> res.Some? && Inv(opts, stats, thumb, res.value, opts.layout.rows, 0)
    ensures Runnable(opts) ==>
      (res.Some? && res.value.written + res.value.skippedEmpty + res.value.skippedDuplicate
                    + res.value.skippedByPreset == opts.layout.rows * opts.layout.cols)
  {
    if opts.layout.rows == 0 || opts.layout.cols == 0 {
      return None;
    }
    if opts.layout.rows < 0 || opts.layout.cols < 0 {
      return Some(RunState(0, 0, 0, 0, [], {}, []));
    }
    var st := SplitSheet(opts, stats, thumb);
    return Some(st);
  }

  /**
   * The loop of `main` over all cells. Every cell adds to exactly one counter;
   * the kept hashes, used names and written tiles correspond one to one; kept
   * hashes are pairwise more than `dedupeHamming` apart when deduplication is
   * on; every tile written passed the checks and got its cell's name; and
   * every cell that passed the preset and emptiness checks was written or was
   * dropped because of an earlier written tile.
   */
  method SplitSheet(opts: Options, stats: Box -> TileStats, thumb: Box -> Thumb) returns (st: RunState)
    requires Runnable(opts)
    ensures Inv(opts, stats, thumb, st, opts.layout.rows, 0)
    ensures st.written + st.skippedEmpty + st.skippedDuplicate + st.skippedByPreset
      == opts.layout.rows * opts.layout.cols
    ensures st.written == |st.keptHashes| == |st.usedNames| == |st.saved|
    ensures forall i :: 0 <= i < |st.saved| ==> st.keptHashes[i] == st.saved[i].hash
    ensures st.usedNames == Names(st.saved)
    ensures forall s :: s in st.saved ==> SavedOk(opts, stats, thumb, s)
    ensures InOrder(st.saved)
    ensures !opts.noDedupe ==> Separated(st.keptHashes, opts.dedupeHamming)
    ensures opts.noDedupe ==> st.skippedDuplicate == 0
    ensures st.skippedEmpty == CountBefore(EmptyCells(opts, stats), opts.layout.cols, opts.layout.rows, 0)
    ensures CollisionFree(opts) ==>
      st.skippedByPreset == CountBefore(ExcludedCells(opts), opts.layout.cols, opts.layout.rows, 0)
    ensures opts.table == None ==> st.skippedByPreset == 0
    ensures opts.table == Some(OfficerPreset) ==>
      st.skippedByPreset == CountBefore(ExcludedCells(opts), opts.layout.cols, opts.layout.rows, 0)
    ensures forall r: nat, c: nat :: r < opts.layout.rows && c < opts.layout.cols ==>
      Accounted(opts, stats, thumb, st.saved, r, c)
  {
    var l := opts.layout;
    var cellW := (l.width - 2 * l.margin - (l.cols - 1) * l.gap) / l.cols;
    var cellH := (l.height - 2 * l.margin - (l.rows - 1) * l.gap) / l.rows;
    st := RunState(0, 0, 0, 0, [], {}, []);
    InvStart(opts, stats, thumb, st);
    st := VisitRows(opts, stats, thumb, cellW, cellH, st);
    InvFinal(opts, stats, thumb, st);
  }

  /** The outer loop of `main`: the rows, top to bottom, from the counters before the first cell. */
  method VisitRows(opts: Options, stats: Box -> TileStats, thumb: Box -> Thumb, cellW: int, cellH: int,
                   start: RunState) returns (st: RunState)
    requires Runnable(opts)
    requires cellW == CellWidth(opts.layout) && cellH == CellHeight(opts.layout)
    requires Inv(opts, stats, thumb, start, 0, 0)
    ensures Inv(opts, stats, thumb, st, opts.layout.rows, 0)
  {
    st := start;
    for r: nat := 0 to opts.layout.rows
      invariant Inv(opts, stats, thumb, st, r, 0)
    {
      st := VisitRow(opts, stats, thumb, cellW, cellH, st, r);
    }
  }

  /** The inner loop of `main`: the cells of row r, left to right. */
  method VisitRow(opts: Options, stats: Box -> TileStats, thumb: Box -> Thumb, cellW: int, cellH: int,
                  st: RunState, r: nat) returns (next: RunState)
    requires Runnable(opts) && r < opts.layout.rows
    requires cellW == CellWidth(opts.layout) && cellH == CellHeight(opts.layout)
    requires Inv(opts, stats, thumb, st, r, 0)
    ensures Inv(opts, stats, thumb, next, r + 1, 0)
  {
    next := st;
    for c: nat := 0 to opts.layout.cols
      invariant Inv(opts, stats, thumb, next, r, c)
    {
      StepInv(opts, stats, thumb, next, r, c);
      next := VisitCell(opts, stats, thumb, cellW, cellH, next, r, c);
    }
    InvNextRow(opts, stats, thumb, next, r);
  }

  /** What the invariant says once every cell is visited. */
  lemma InvFinal(opts: Options, stats: Box -> TileStats, thumb: Box -> Thumb, st: RunState)
    requires Runnable(opts)
    requires Inv(opts, stats, thumb, st, opts.layout.rows, 0)
    ensures st.written + st.skippedEmpty + st.skippedDuplicate + st.skippedByPreset
      == opts.layout.rows * opts.layout.cols
    ensures st.skippedEmpty == CountBefore(EmptyCells(opts, stats), opts.layout.cols, opts.layout.rows, 0)
    ensures CollisionFree(opts) ==>
      st.skippedByPreset == CountBefore(ExcludedCells(opts), opts.layout.cols, opts.layout.rows, 0)
    ensures opts.table == None ==> st.skippedByPreset == 0
    ensures opts.table == Some(OfficerPreset) ==>
      st.skippedByPreset == CountBefore(ExcludedCells(opts), opts.layout.cols, opts.layout.rows, 0)
    ensures forall r: nat, c: nat :: r < opts.layout.rows && c < opts.layout.cols ==>
      Accounted(opts, stats, thumb, st.saved, r, c)
  {
    var l := opts.layout;
    CountAll(l.cols, l.rows, 0);
    PresetsCollisionFree(opts);
    if opts.table == None {
      CountNone(ExcludedCells(opts), l.cols, l.rows, 0);
    }
  }

  /**
   * On the default 4 x 7 grid the officer preset excludes six cells: column 7
   * of every row, which the table does not cover, and (2, 6) and (3, 6).
   */
  lemma OfficerDefaultGridExcludes(opts: Options)
    requires opts.table == Some(OfficerPreset) && opts.layout.rows == 4 && opts.layout.cols == 7
    ensures forall r: nat, c: nat :: r < 4 && c < 7 ==>
      (Excluded(opts, r, c) <==> c == 6 || (c == 5 && (r == 1 || r == 2)))
    ensures CountBefore(ExcludedCells(opts), 7, 4, 0) == 6
  {
    var p := ExcludedCells(opts);
    forall r: nat, c: nat | r < 4 && c < 7
      ensures p(r, c) <==> c == 6 || (c == 5 && (r == 1 || r == 2))
      ensures Excluded(opts, r, c) <==> c == 6 || (c == 5 && (r == 1 || r == 2))
    {
      OfficerExcludedCell(opts, r, c);
    }
    RowCount(p, 0, 1);
    RowCount(p, 1, 2);
    RowCount(p, 2, 2);
    RowCount(p, 3, 1);
  }

  /** The cells of the default grid the officer preset excludes. */
  lemma OfficerExcludedCell(opts: Options, r: nat, c: nat)
    requires opts.table == Some(OfficerPreset) && r < 4 && c < 7
    ensures ExcludedCells(opts)(r, c) <==> c == 6 || (c == 5 && (r == 1 || r == 2))
  {
    OfficerPresetPositions(r + 1, c + 1);
    if (r + 1, c + 1) in OfficerPreset {
      OfficerPresetEntries(r + 1, c + 1);
    }
  }

  lemma RowCount(p: (nat, nat) -> bool, r: nat, n: nat)
    requires forall c: nat :: c < 5 ==> !p(r, c)
    requires (n == 1 || n == 2) && p(r, 6) && (p(r, 5) <==> n == 2)
    ensures CountInRow(p, r, 7) == n
  {
    assert !p(r, 0) && !p(r, 1) && !p(r, 2) && !p(r, 3) && !p(r, 4);
    assert CountInRow(p, r, 1) == 0;
    assert CountInRow(p, r, 2) == 0;
    assert CountInRow(p, r, 3) == 0;
    assert CountInRow(p, r, 4) == 0;
    assert CountInRow(p, r, 5) == 0;
    assert CountInRow(p, r, 6) == n - 1;
  }

  /** Whatever `--preset` selects, no two kept cells get the same name. */
  lemma PresetChoiceCollisionFree(opts: Options, p: Preset)
    requires opts.layout.cols >= 0 && opts.table == PresetTableOf(p)
    ensures CollisionFree(opts)
  {
    PresetsCollisionFree(opts);
  }

  /** With no preset, each cell's sequential name is its own. */
  lemma {:induction false} FallbackNamesDistinct(prefix: string, cols: nat, r1: nat, c1: nat, r2: nat, c2: nat)
    requires c1 < cols && c2 < cols
    ensures FallbackName(prefix, r1 * cols + c1 + 1) == FallbackName(prefix, r2 * cols + c2 + 1)
      ==> r1 == r2 && c1 == c2
  {
    if FallbackName(prefix, r1 * cols + c1 + 1) == FallbackName(prefix, r2 * cols + c2 + 1) {
      FallbackNameInjective(prefix, r1 * cols + c1 + 1, r2 * cols + c2 + 1);
      CellIndexInjective(cols, r1, c1, r2, c2);
    }
  }

  /**
   * Neither built-in preset can make two cells collide: sequential names
   * differ by index, and the officer table's names are non-empty and distinct.
   */
  lemma PresetsCollisionFree(opts: Options)
    requires opts.layout.cols >= 0
    ensures opts.table == None ==> CollisionFree(opts)
    ensures opts.table == Some(OfficerPreset) ==> CollisionFree(opts)
  {
    var rows, cols := opts.layout.rows, opts.layout.cols;
    if opts.table == None || opts.table == Some(OfficerPreset) {
      forall r1: nat, c1: nat, r2: nat, c2: nat |
        r1 < rows && c1 < cols && r2 < rows && c2 < cols
        && (r1 != r2 || c1 != c2) && !Excluded(opts, r1, c1) && !Excluded(opts, r2, c2)
        ensures NameOf(opts, r1, c1) != NameOf(opts, r2, c2)
      {
        if opts.table == None {
          FallbackNamesDistinct(opts.prefix, cols, r1, c1, r2, c2);
        } else {
          OfficerPresetNamesDistinct((r1 + 1, c1 + 1), (r2 + 1, c2 + 1));
          OfficerPresetNamesDistinct((r2 + 1, c2 + 1), (r1 + 1, c1 + 1));
        }
      }
    }
  }
}
