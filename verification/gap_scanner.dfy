/** The gap scanner (`cf_compute_line_continuity` and the reduction that
    follows it): a column-by-column wavefront over the opponent's half that
    decides, per column, whether the opponent's frontier is open there.

    At column `line` the scanner checks either every cell of the opponent's
    half in that column (a full scan) or only the candidates carried from the
    previous column. Each checked cell holding a structure closes the column
    and fans out into the next column: the three neighbours one step to the
    right, plus one cell beyond each end of the vertical run of structures the
    cell belongs to. The next column is fully scanned iff nothing checked here
    was occupied. */
module GapScanner {
  import opened GameMap

  /** Rows `lo..hi` of column `x` all hold a structure. */
  predicate Run(b: Board, x: int, lo: int, hi: int) {
    forall j {:trigger Occupied(b, Cell(x, j))} :: lo <= j <= hi ==> Occupied(b, Cell(x, j))
  }

  /** The upward chain walk from row `y` of column `x`: while (x, y') is
      occupied, the cell (x + 1, y' + 1) becomes a candidate. */
  function UpChain(b: Board, x: int, y: int): (r: set<Cell>)
    ensures forall s {:trigger s in r} :: s in r ==> s.x == x + 1 && y < s.y <= Width
    decreases Width - y
  {
    if Occupied(b, Cell(x, y)) then {Cell(x + 1, y + 1)} + UpChain(b, x, y + 1) else {}
  }

  /** The downward chain walk from row `y` of column `x`: while (x, y') is
      occupied, the cell (x + 1, y' - 1) becomes a candidate. The walk may run
      into our own half; those candidates are dropped afterwards. */
  function DownChain(b: Board, x: int, y: int): (r: set<Cell>)
    ensures forall s {:trigger s in r} :: s in r ==> s.x == x + 1 && s.y < y
    decreases y + 1
  {
    if Occupied(b, Cell(x, y)) then {Cell(x + 1, y - 1)} + DownChain(b, x, y - 1) else {}
  }

  lemma {:induction false} UpChainMembers(b: Board, x: int, y: int, s: Cell)
    ensures s in UpChain(b, x, y) <==> s.x == x + 1 && s.y > y && Run(b, x, y, s.y - 1)
    decreases Width - y
  {
    if Occupied(b, Cell(x, y)) {
      UpChainMembers(b, x, y + 1, s);
      if s.x == x + 1 && s.y > y + 1 && Run(b, x, y + 1, s.y - 1) {
        assert Run(b, x, y, s.y - 1);
      }
      if s.x == x + 1 && s.y > y + 1 && Run(b, x, y, s.y - 1) {
        assert Run(b, x, y + 1, s.y - 1);
      }
    } else {
      if s.y > y {
        assert !Run(b, x, y, s.y - 1) by { assert !Occupied(b, Cell(x, y)); }
      }
    }
  }

  lemma {:induction false} DownChainMembers(b: Board, x: int, y: int, s: Cell)
    ensures s in DownChain(b, x, y) <==> s.x == x + 1 && s.y < y && Run(b, x, s.y + 1, y)
    decreases y + 1
  {
    if Occupied(b, Cell(x, y)) {
      DownChainMembers(b, x, y - 1, s);
      if s.x == x + 1 && s.y < y - 1 && Run(b, x, s.y + 1, y - 1) {
        assert Run(b, x, s.y + 1, y);
      }
      if s.x == x + 1 && s.y < y - 1 && Run(b, x, s.y + 1, y) {
        assert Run(b, x, s.y + 1, y - 1);
      }
    } else {
      if s.y < y {
        assert !Run(b, x, s.y + 1, y) by { assert !Occupied(b, Cell(x, y)); }
      }
    }
  }

  /** The candidates contributed to column `line + 1` by a structure found
      at row `y` while scanning column `line`, before rows of our own half
      are dropped: its three right-hand neighbours, plus the result of the
      chain walks above and below it. */
  function Successors(b: Board, line: int, y: int): (r: set<Cell>)
    ensures forall s {:trigger s in r} :: s in r ==> s.x == line + 1
  {
    {Cell(line + 1, y - 1), Cell(line + 1, y), Cell(line + 1, y + 1)}
    + UpChain(b, line, y + 1) + DownChain(b, line, y - 1)
  }

  /** The successors of a structure at (line, y) are its three neighbours in
      the next column and one cell beyond each cell of the vertical runs of
      structures directly above and below it: (line+1, y'+1) for every
      contiguous occupied y' above, (line+1, y'-1) for every one below. */
  lemma SuccessorsMembers(b: Board, line: int, y: int, s: Cell)
    ensures s in Successors(b, line, y) <==>
      s.x == line + 1 &&
      (|| y - 1 <= s.y <= y + 1
       || (s.y > y + 1 && Run(b, line, y + 1, s.y - 1))
       || (s.y < y - 1 && Run(b, line, s.y + 1, y - 1)))
  {
    UpChainMembers(b, line, y + 1, s);
    DownChainMembers(b, line, y - 1, s);
  }

  /** The checked cells that hold a structure. */
  function Hits(b: Board, checked: set<Cell>): (r: set<Cell>)
    ensures forall c {:trigger c in r} :: c in r <==> c in checked && Occupied(b, c)
  {
    set c | c in checked && Occupied(b, c)
  }

  /** Cell (line + 1, y) is a successor of one of the hits. The source
      builds successors from the scanned column and the hit's row. */
  predicate LeadsTo(b: Board, line: int, hits: set<Cell>, y: int) {
    exists c {:trigger c in hits} :: c in hits && Cell(line + 1, y) in Successors(b, line, c.y)
  }

  /** The deduplicated candidates handed to the next column: the successors
      of the hits in rows 14 and up. (The board is square, so no successor
      lies above row `Width`.) */
  function NextCandidates(b: Board, line: int, hits: set<Cell>): set<Cell> {
    set y | 14 <= y <= Width && LeadsTo(b, line, hits, y) :: Cell(line + 1, y)
  }

  /** The candidates handed on are exactly the successors of the hits that
      lie in rows 14 and up. */
  lemma NextCandidatesMembers(b: Board, line: int, hits: set<Cell>, s: Cell)
    requires forall c :: c in hits ==> Occupied(b, c)
    ensures s in NextCandidates(b, line, hits) <==>
            s.y >= 14 && exists c {:trigger c in hits} :: c in hits && s in Successors(b, line, c.y)
  {
    if c :| c in hits && s in Successors(b, line, c.y) {
      assert s == Cell(line + 1, s.y);
      if s.y >= 14 {
        SuccessorsMembers(b, line, c.y, s);
        assert s.y <= Width;
        assert LeadsTo(b, line, hits, s.y);
      }
    }
  }

  /** The scanner's state on entering a column: the full-scan flag and the
      candidate cells carried from the previous column. */
  datatype Frontier = Frontier(fullScan: bool, candidates: set<Cell>)

  /** The cells checked at column `line`. */
  function Checked(line: int, f: Frontier): (r: set<Cell>)
    ensures f.fullScan ==> forall c {:trigger c in r} :: c in r <==> InEnemyHalf(c) && c.x == line
    ensures !f.fullScan ==> r == f.candidates
  {
    if f.fullScan then EnemyColumn(line) else f.candidates
  }

  /** Some cell checked at column `line` holds a structure. */
  predicate AnyHit(b: Board, line: int, f: Frontier) {
    exists c {:trigger c in Checked(line, f)} :: c in Checked(line, f) && Occupied(b, c)
  }

  /** The state the scan carries from column `line` into column `line + 1`:
      the next column is fully scanned iff nothing checked here was
      occupied, and the candidates are the successors of the hits. */
  function Advance(b: Board, line: int, f: Frontier): Frontier {
    Frontier(!AnyHit(b, line, f), NextCandidates(b, line, Hits(b, Checked(line, f))))
  }

  /** One column step, in the source's terms: the next column is fully
      scanned iff no checked cell holds a structure, and a cell is carried
      to it iff it lies in row 14 or above and is a successor of some
      checked cell that holds a structure. */
  lemma AdvanceMembers(b: Board, line: int, f: Frontier, s: Cell)
    ensures Advance(b, line, f).fullScan <==>
            forall c {:trigger c in Checked(line, f)} :: c in Checked(line, f) ==> !Occupied(b, c)
    ensures s in Advance(b, line, f).candidates <==>
            s.y >= 14 && exists c {:trigger c in Checked(line, f)} ::
              c in Checked(line, f) && Occupied(b, c) && s in Successors(b, line, c.y)
  {
    var hits := Hits(b, Checked(line, f));
    NextCandidatesMembers(b, line, hits, s);
    if c :| c in Checked(line, f) && Occupied(b, c) && s in Successors(b, line, c.y) {
      assert c in hits;
    }
  }

  /** Without hits nothing is carried to the next column. */
  lemma NoHitsNoCandidates(b: Board, line: int)
    ensures NextCandidates(b, line, {}) == {}
  {
    forall s
      ensures s !in NextCandidates(b, line, {})
    {
      NextCandidatesMembers(b, line, {}, s);
    }
  }

  /** A column without structures among its checked cells hands a full scan
      and no candidates to the next one. */
  lemma AdvanceNoHits(b: Board, line: int, f: Frontier)
    requires forall c :: c in Checked(line, f) ==> !Occupied(b, c)
    ensures Advance(b, line, f) == Frontier(true, {})
  {
    assert Hits(b, Checked(line, f)) == {};
    NoHitsNoCandidates(b, line);
    assert !AnyHit(b, line, f);
  }

  /** The openness vector once column `line` has been scanned and hands the
      frontier `g` on: the column is marked closed iff `g` is no full scan. */
  function Mark(opens: seq<bool>, line: int, g: Frontier): (r: seq<bool>)
    requires 0 <= line < |opens|
    ensures |r| == |opens| && r[line] == (opens[line] && g.fullScan)
    ensures forall j :: 0 <= j < |opens| && j != line ==> r[j] == opens[j]
  {
    if g.fullScan then opens else opens[line := false]
  }

  /** `cf_compute_line_continuity` as written: tail recursion on the column
      index, threading the full-scan flag and the candidates (together, the
      frontier) and the openness vector. */
  function Scan(b: Board, line: int, f: Frontier, opens: seq<bool>): (r: seq<bool>)
    requires 0 <= line <= Width && |opens| == Width
    ensures |r| == Width
    decreases Width - line
  {
    if line == Width then opens
    else
      var g := Advance(b, line, f);
      Scan(b, line + 1, g, Mark(opens, line, g))
  }

  /** The shape of the scan, independent of what one column does: a column
      step maps the frontier entering a column to the one entering the next. */
  type ColumnStep = (int, Frontier) -> Frontier

  /** The scan's recursion for an arbitrary column step. */
  function Sweep(step: ColumnStep, line: int, f: Frontier, opens: seq<bool>): (r: seq<bool>)
    requires 0 <= line <= Width && |opens| == Width
    ensures |r| == Width
    decreases Width - line
  {
    if line == Width then opens
    else Sweep(step, line + 1, step(line, f), Mark(opens, line, step(line, f)))
  }

  /** The frontier entering column `k` under an arbitrary column step. */
  function Reach(step: ColumnStep, k: int): Frontier
    requires 0 <= k <= Width
    decreases k
  {
    if k == 0 then Frontier(true, {}) else step(k - 1, Reach(step, k - 1))
  }

  /** The column step of the scanner on board `b`. */
  function StepOn(b: Board): ColumnStep {
    (line: int, f: Frontier) => Advance(b, line, f)
  }

  lemma {:induction false} ScanIsSweep(b: Board, line: int, f: Frontier, opens: seq<bool>)
    requires 0 <= line <= Width && |opens| == Width
    ensures Scan(b, line, f, opens) == Sweep(StepOn(b), line, f, opens)
    decreases Width - line
  {
    if line < Width {
      var g := Advance(b, line, f);
      assert StepOn(b)(line, f) == g;
      ScanIsSweep(b, line + 1, g, Mark(opens, line, g));
    }
  }

  /** Reference definition: the scanner's state on entering column `k`,
      computed forward from the initial call (full scan, no candidates). */
  function FrontierAt(b: Board, k: int): Frontier
    requires 0 <= k <= Width
  {
    Reach(StepOn(b), k)
  }

  /** Column `k` is closed iff some cell checked there holds a structure. */
  predicate ColumnClosed(b: Board, k: int)
    requires 0 <= k < Width
  {
    AnyHit(b, k, FrontierAt(b, k))
  }

  /** The scan never touches a column it has already passed. */
  lemma {:induction false} SweepKeepsPassedColumns(step: ColumnStep, line: int, f: Frontier, opens: seq<bool>, k: int)
    requires 0 <= k < line <= Width && |opens| == Width
    ensures Sweep(step, line, f, opens)[k] == opens[k]
    decreases Width - line
  {
    if line < Width {
      SweepKeepsPassedColumns(step, line + 1, step(line, f), Mark(opens, line, step(line, f)), k);
    }
  }

  /** A column marked closed stays closed. */
  lemma {:induction false} SweepKeepsClosedColumns(step: ColumnStep, line: int, f: Frontier, opens: seq<bool>, k: int)
    requires 0 <= line <= Width && |opens| == Width
    requires 0 <= k < Width && !opens[k]
    ensures !Sweep(step, line, f, opens)[k]
    decreases Width - line
  {
    if line < Width {
      SweepKeepsClosedColumns(step, line + 1, step(line, f), Mark(opens, line, step(line, f)), k);
    }
  }

  /** The tail recursion agrees with the forward reference: started from the
      reference state at `line`, every later column `k` ends up open iff it
      was open before and column `k + 1` is entered with a full scan. */
  lemma {:induction false} SweepFromReach(step: ColumnStep, line: int, opens: seq<bool>, k: int)
    requires 0 <= line <= k < Width && |opens| == Width
    ensures Sweep(step, line, Reach(step, line), opens)[k] == (opens[k] && Reach(step, k + 1).fullScan)
    decreases Width - line
  {
    var g := step(line, Reach(step, line));
    if k > line {
      SweepFromReach(step, line + 1, Mark(opens, line, g), k);
    } else {
      SweepKeepsPassedColumns(step, line + 1, g, Mark(opens, line, g), k);
    }
  }

  /** A column the scan finds closed stays closed. */
  lemma ScanKeepsClosedColumns(b: Board, line: int, f: Frontier, opens: seq<bool>, k: int)
    requires 0 <= line <= Width && |opens| == Width
    requires 0 <= k < Width && !opens[k]
    ensures !Scan(b, line, f, opens)[k]
  {
    ScanIsSweep(b, line, f, opens);
    SweepKeepsClosedColumns(StepOn(b), line, f, opens, k);
  }

  /** Column `k + 1` is entered with a full scan iff column `k` is open. */
  lemma FullScanIffOpen(b: Board, k: int)
    requires 0 <= k < Width
    ensures FrontierAt(b, k + 1).fullScan <==> !ColumnClosed(b, k)
  {
  }

  /** Every column open: the openness vector the turn starts from. */
  function AllOpen(): (r: seq<bool>)
    ensures |r| == Width && forall k :: 0 <= k < Width ==> r[k]
  {
    seq(Width, _ => true)
  }

  /** The scan started at column 0 leaves column `k` open iff it is not closed. */
  lemma ScanOpenIffNotClosed(b: Board, k: int)
    requires 0 <= k < Width
    ensures Scan(b, 0, Frontier(true, {}), AllOpen())[k] <==> !ColumnClosed(b, k)
  {
    ScanIsSweep(b, 0, Frontier(true, {}), AllOpen());
    SweepFromReach(StepOn(b), 0, AllOpen(), k);
    FullScanIffOpen(b, k);
  }

  /** The openness vector the turn computes: every column starts open and
      the scan starts at column 0 with a full scan. */
  function ColumnOpenness(b: Board): (r: seq<bool>)
    ensures |r| == Width
    ensures forall k :: 0 <= k < Width ==> (r[k] <==> !ColumnClosed(b, k))
  {
    var r := Scan(b, 0, Frontier(true, {}), AllOpen());
    assert forall k :: 0 <= k < Width ==> (r[k] <==> !ColumnClosed(b, k)) by {
      forall k | 0 <= k < Width
        ensures r[k] <==> !ColumnClosed(b, k)
      {
        ScanOpenIffNotClosed(b, k);
      }
    }
    r
  }

  /** `list.count(True)`. */
  function CountTrue(s: seq<bool>): (n: nat)
    ensures n <= |s|
    ensures n > 0 <==> exists i :: 0 <= i < |s| && s[i]
    decreases |s|
  {
    if s == [] then 0 else (if s[0] then 1 else 0) + CountTrue(s[1..])
  }

  /** The two half flags, named from the opponent's side as the strategy
      names them: `rightOpen` covers columns 0..13, `leftOpen` 14..27. */
  datatype GapState = GapState(leftOpen: bool, rightOpen: bool)

  /** The reduction of the openness vector to the two half flags. */
  function HalfFlags(opens: seq<bool>): (g: GapState)
    requires |opens| == Width
    ensures g.rightOpen <==> exists k :: 0 <= k < 14 && opens[k]
    ensures g.leftOpen <==> exists k :: 14 <= k < Width && opens[k]
  {
    var right := opens[0..14];
    var left := opens[14..28];
    assert forall i :: 0 <= i < 14 ==> left[i] == opens[14 + i];
    assert (exists k :: 14 <= k < Width && opens[k]) ==> exists i :: 0 <= i < 14 && left[i] by {
      if k :| 14 <= k < Width && opens[k] {
        assert left[k - 14];
      }
    }
    GapState(CountTrue(left) > 0, CountTrue(right) > 0)
  }

  /** The per-turn gap state: a half is open iff some column in it has no
      occupied checked cell. */
  function ScanGaps(b: Board): (g: GapState)
    ensures g.rightOpen <==> exists k :: 0 <= k < 14 && !ColumnClosed(b, k)
    ensures g.leftOpen <==> exists k :: 14 <= k < Width && !ColumnClosed(b, k)
  {
    HalfFlags(ColumnOpenness(b))
  }

  /** With the opponent's half empty, the scan never leaves its initial
      state: every column gets a full scan and nothing is carried. */
  lemma {:induction false} EmptyHalfFrontier(b: Board, k: int)
    requires 0 <= k <= Width
    requires forall c :: InEnemyHalf(c) ==> !Occupied(b, c)
    ensures FrontierAt(b, k) == Frontier(true, {})
    decreases k
  {
    if k > 0 {
      EmptyHalfFrontier(b, k - 1);
      AdvanceNoHits(b, k - 1, FrontierAt(b, k - 1));
    }
  }

  /** An entirely empty opponent half leaves every column and both halves open. */
  lemma EmptyHalfAllOpen(b: Board)
    requires forall c :: InEnemyHalf(c) ==> !Occupied(b, c)
    ensures forall k :: 0 <= k < Width ==> !ColumnClosed(b, k)
    ensures ScanGaps(b) == GapState(true, true)
  {
    forall k | 0 <= k < Width
      ensures !ColumnClosed(b, k)
    {
      EmptyHalfFrontier(b, k);
    }
    assert !ColumnClosed(b, 0) && !ColumnClosed(b, 14);
  }

  /** With `c` the only structure in the opponent's half (our own half may
      hold anything), the scan is in its initial state on entering every
      column up to `c`'s. */
  lemma {:induction false} LoneFrontierBefore(b: Board, c: Cell, k: int)
    requires InEnemyHalf(c) && forall d :: InEnemyHalf(d) ==> (Occupied(b, d) <==> d == c)
    requires 0 <= k <= c.x
    ensures FrontierAt(b, k) == Frontier(true, {})
    decreases k
  {
    if k > 0 {
      LoneFrontierBefore(b, c, k - 1);
      AdvanceNoHits(b, k - 1, FrontierAt(b, k - 1));
    }
  }

  /** ... and again in every column from two past `c`'s onward. */
  lemma {:induction false} LoneFrontierAfter(b: Board, c: Cell, k: int)
    requires InEnemyHalf(c) && forall d :: InEnemyHalf(d) ==> (Occupied(b, d) <==> d == c)
    requires c.x + 2 <= k <= Width
    ensures FrontierAt(b, k) == Frontier(true, {})
    decreases k
  {
    var f := FrontierAt(b, k - 1);
    if k == c.x + 2 {
      LoneCarried(b, c);
    } else {
      LoneFrontierAfter(b, c, k - 1);
    }
    AdvanceNoHits(b, k - 1, f);
  }

  /** The right-hand neighbours of `c` that lie in the opponent's rows. */
  function NeighboursAhead(c: Cell): set<Cell> {
    set s | s in {Cell(c.x + 1, c.y - 1), Cell(c.x + 1, c.y), Cell(c.x + 1, c.y + 1)} && s.y >= 14
  }

  /** A lone structure has no vertical run: its successors are its three
      right-hand neighbours. */
  lemma LoneSuccessors(b: Board, c: Cell)
    requires InEnemyHalf(c) && forall d :: InEnemyHalf(d) ==> (Occupied(b, d) <==> d == c)
    ensures NextCandidates(b, c.x, {c}) == NeighboursAhead(c)
  {
    assert !Occupied(b, Cell(c.x, c.y + 1));
    assert c.y > 14 ==> !Occupied(b, Cell(c.x, c.y - 1));
    forall s
      ensures s in NextCandidates(b, c.x, {c}) <==> s in NeighboursAhead(c)
    {
      NextCandidatesMembers(b, c.x, {c}, s);
      SuccessorsMembers(b, c.x, c.y, s);
    }
  }

  /** A lone structure hands exactly its three right-hand neighbours (those
      still in the opponent's half) to the next column. */
  lemma LoneCarried(b: Board, c: Cell)
    requires InEnemyHalf(c) && forall d :: InEnemyHalf(d) ==> (Occupied(b, d) <==> d == c)
    ensures FrontierAt(b, c.x + 1) == Frontier(false, NeighboursAhead(c))
  {
    LoneFrontierBefore(b, c, c.x);
    assert Hits(b, EnemyColumn(c.x)) == {c};
    assert c in Checked(c.x, FrontierAt(b, c.x));
    LoneSuccessors(b, c);
  }

  /** A single structure in the opponent's half closes its own column and
      no other, whatever stands in our own half. */
  lemma LoneStructureClosesOnlyItsColumn(b: Board, c: Cell)
    requires InEnemyHalf(c) && forall d :: InEnemyHalf(d) ==> (Occupied(b, d) <==> d == c)
    ensures forall k :: 0 <= k < Width ==> (ColumnClosed(b, k) <==> k == c.x)
    ensures ScanGaps(b) == GapState(true, true)
  {
    forall k | 0 <= k < Width
      ensures ColumnClosed(b, k) <==> k == c.x
    {
      if k <= c.x {
        LoneFrontierBefore(b, c, k);
        if k == c.x {
          assert c in Checked(k, FrontierAt(b, k));
        }
      } else if k == c.x + 1 {
        LoneCarried(b, c);
      } else {
        LoneFrontierAfter(b, c, k);
      }
    }
    if c.x < 14 {
      assert !ColumnClosed(b, 14) && !ColumnClosed(b, 15);
      assert c.x == 0 || !ColumnClosed(b, 0);
      assert !ColumnClosed(b, 0) || !ColumnClosed(b, 1);
    } else {
      assert !ColumnClosed(b, 0);
      assert !ColumnClosed(b, 14) || !ColumnClosed(b, 15);
    }
  }
}
