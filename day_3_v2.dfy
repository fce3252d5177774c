/**
 * tests/day_3_v2.rs: the engine schematic. Every maximal run of digits in a row is a part
 * number; a symbol is any character other than a digit and '.'. Part 1 adds the part numbers
 * that touch a symbol; part 2 adds, for every '*', the product of the first two distinct
 * part-number values around it.
 */
module Day3V2 {
  import opened Results
  import opened Strings

  /** A (row, column) position. */
  type Cell = (nat, nat)

  /** `PartNumber`: its row, start column, length, value and the cells it covers. */
  datatype PartNumber = PartNumber(r: nat, c: nat, len: nat, value: nat, positions: seq<Cell>)

  // ---------------------------------------------------------------- part numbers

  /** `PartNumber::new`: the positions are the cells (r, c) to (r, c + len - 1), in order. */
  function NewPartNumber(r: nat, c: nat, len: nat, value: nat): (p: PartNumber)
    ensures p.r == r && p.c == c && p.len == len && p.value == value
  {
    PartNumber(r, c, len, value, seq(len, i requires 0 <= i < len => (r, c + i)))
  }

  /** `PartNumber::is_overlapping`: the cell is one of its positions. */
  predicate IsOverlapping(p: PartNumber, cell: Cell) {
    cell in p.positions
  }

  /** A new part number covers exactly the cells of its row from `c` for `len` columns. */
  lemma OverlappingIff(r: nat, c: nat, len: nat, value: nat, cell: Cell)
    ensures IsOverlapping(NewPartNumber(r, c, len, value), cell) <==> cell.0 == r && c <= cell.1 < c + len
  {
    var p := NewPartNumber(r, c, len, value);
    if cell.0 == r && c <= cell.1 < c + len {
      assert p.positions[cell.1 - c] == cell;
    }
  }

  // ---------------------------------------------------------------- neighbours

  /** One less than `x`, but not below 0. */
  function Before(x: nat): nat {
    if x > 0 then x - 1 else 0
  }

  /** The cells of row `cr` from column `lo` up to but not including `hi`, left to right,
      without the cell (r, c). */
  function RowCells(cr: nat, lo: nat, hi: nat, r: nat, c: nat): seq<Cell>
    decreases hi
  {
    if hi <= lo then []
    else RowCells(cr, lo, hi - 1, r, c) + (if cr == r && hi - 1 == c then [] else [(cr, hi - 1)])
  }

  /** Rows `rFrom` up to but not including `rTo`, each from `cFrom` to `cTo`, row by row,
      without the cell (r, c). */
  function WindowCells(rFrom: nat, rTo: nat, cFrom: nat, cTo: nat, r: nat, c: nat): seq<Cell>
    decreases rTo
  {
    if rTo <= rFrom then []
    else WindowCells(rFrom, rTo - 1, cFrom, cTo, r, c) + RowCells(rTo - 1, cFrom, cTo, r, c)
  }

  /** The cells `get_neighbors(r, c, len)` lists, in its order. */
  function Neighbors(r: nat, c: nat, len: nat): seq<Cell> {
    WindowCells(Before(r), r + 2, Before(c), c + len + 1, r, c)
  }

  lemma {:induction false} RowCellsIn(cr: nat, lo: nat, hi: nat, r: nat, c: nat, cell: Cell)
    ensures cell in RowCells(cr, lo, hi, r, c) <==> cell.0 == cr && lo <= cell.1 < hi && cell != (r, c)
    decreases hi
  {
    if hi > lo {
      var left := RowCells(cr, lo, hi - 1, r, c);
      var last: seq<Cell> := if cr == r && hi - 1 == c then [] else [(cr, hi - 1)];
      assert RowCells(cr, lo, hi, r, c) == left + last;
      assert cell in left + last <==> cell in left || cell in last;
      RowCellsIn(cr, lo, hi - 1, r, c, cell);
    }
  }

  lemma {:induction false} WindowCellsIn(rFrom: nat, rTo: nat, cFrom: nat, cTo: nat, r: nat, c: nat, cell: Cell)
    ensures cell in WindowCells(rFrom, rTo, cFrom, cTo, r, c)
        <==> rFrom <= cell.0 < rTo && cFrom <= cell.1 < cTo && cell != (r, c)
    decreases rTo
  {
    if rTo > rFrom {
      var above := WindowCells(rFrom, rTo - 1, cFrom, cTo, r, c);
      var row := RowCells(rTo - 1, cFrom, cTo, r, c);
      assert WindowCells(rFrom, rTo, cFrom, cTo, r, c) == above + row;
      assert cell in above + row <==> cell in above || cell in row;
      WindowCellsIn(rFrom, rTo - 1, cFrom, cTo, r, c, cell);
      RowCellsIn(rTo - 1, cFrom, cTo, r, c, cell);
    }
  }

  /** A cell is a neighbour exactly when its row is within one of `r`, its column is from one
      before `c` to one after the run, and it is not (r, c) itself. */
  lemma NeighborsIn(r: nat, c: nat, len: nat, cell: Cell)
    ensures cell in Neighbors(r, c, len)
        <==> Before(r) <= cell.0 <= r + 1 && Before(c) <= cell.1 <= c + len && cell != (r, c)
  {
    WindowCellsIn(Before(r), r + 2, Before(c), c + len + 1, r, c, cell);
  }

  /** One more column of a row adds that cell, unless it is (r, c). */
  lemma CellStep(cr: nat, lo: nat, cc: nat, r: nat, c: nat)
    requires lo <= cc
    ensures RowCells(cr, lo, cc + 1, r, c)
         == RowCells(cr, lo, cc, r, c) + (if cr == r && cc == c then [] else [(cr, cc)])
  {
  }

  /** One more row of the window adds that row. */
  lemma WindowStep(rFrom: nat, cr: nat, cFrom: nat, cTo: nat, r: nat, c: nat)
    requires rFrom <= cr
    ensures WindowCells(rFrom, cr + 1, cFrom, cTo, r, c)
         == WindowCells(rFrom, cr, cFrom, cTo, r, c) + RowCells(cr, cFrom, cTo, r, c)
  {
  }

  /** `get_neighbors`: nested loops over the window, skipping only (r, c). */
  method GetNeighbors(r: nat, c: nat, len: nat) returns (neighbors: seq<Cell>)
    ensures neighbors == Neighbors(r, c, len)
  {
    neighbors := [];
    var rStart: nat := if r > 0 then r - 1 else 0;
    var rEnd: nat := r + 1;
    var cStart: nat := if c > 0 then c - 1 else 0;
    var cEnd: nat := c + len + 1;
    for cr: nat := rStart to rEnd + 1
      invariant neighbors == WindowCells(rStart, cr, cStart, cEnd, r, c)
    {
      ghost var done := neighbors;
      for cc: nat := cStart to cEnd
        invariant neighbors == done + RowCells(cr, cStart, cc, r, c)
      {
        CellStep(cr, cStart, cc, r, c);
        if r == cr && c == cc {
          continue;
        }
        neighbors := neighbors + [(cr, cc)];
      }
      WindowStep(rStart, cr, cStart, cEnd, r, c);
    }
  }

  // ---------------------------------------------------------------- scanning a row

  /** Neither a digit nor '.'. */
  predicate IsSymbol(ch: char) {
    !IsDigit(ch) && ch != '.'
  }

  /** A run of digits ends at column `e`. */
  predicate RunEndsAt(line: string, e: nat) {
    e < |line| && IsDigit(line[e]) && (e + 1 == |line| || !IsDigit(line[e + 1]))
  }

  /** The first column of the run of digits through column `e`. */
  function RunStart(line: string, e: nat): (s: nat)
    requires e < |line| && IsDigit(line[e])
    ensures s <= e && (s == 0 || !IsDigit(line[s - 1]))
    ensures forall k :: s <= k <= e ==> IsDigit(line[k])
  {
    if e > 0 && IsDigit(line[e - 1]) then RunStart(line, e - 1) else e
  }

  /** Every run of digits of the line has a value that fits in a `usize`, so that
      `value.parse::<usize>().expect(..)` does not panic. */
  predicate RunsFit(line: string) {
    forall e {:trigger RunEndsAt(line, e)} :: 0 <= e < |line| && RunEndsAt(line, e) ==> DecimalValue(line[RunStart(line, e)..e + 1]) < USIZE_LIMIT
  }

  /** The part number of the run that ends at `e`. */
  function RunPart(r: nat, line: string, e: nat): PartNumber
    requires RunEndsAt(line, e)
  {
    var s := RunStart(line, e);
    NewPartNumber(r, s, e - s + 1, DecimalValue(line[s..e + 1]))
  }

  /** The part numbers of the runs of row `r` that end before column `n`, left to right. */
  function RowParts(r: nat, line: string, n: nat): seq<PartNumber>
    requires n <= |line|
  {
    if n == 0 then []
    else RowParts(r, line, n - 1) + (if RunEndsAt(line, n - 1) then [RunPart(r, line, n - 1)] else [])
  }

  /** The cells of row `r` before column `n` whose character satisfies `keep`. */
  function RowCellsWhere(r: nat, line: string, n: nat, keep: char -> bool): seq<Cell>
    requires n <= |line|
  {
    if n == 0 then []
    else RowCellsWhere(r, line, n - 1, keep) + (if keep(line[n - 1]) then [(r, n - 1)] else [])
  }

  function IsStar(ch: char): bool {
    ch == '*'
  }

  /** The scan is inside a run of digits at column `c`: the run started before it and goes on. */
  predicate InRun(line: string, c: nat) {
    0 < c < |line| && IsDigit(line[c - 1]) && IsDigit(line[c])
  }

  /** At a digit, the characters pushed so far and this one are the run up to here. */
  lemma RunGrows(line: string, c: nat, value: string)
    requires c < |line| && IsDigit(line[c])
    requires InRun(line, c) ==> value == line[RunStart(line, c - 1)..c]
    requires !InRun(line, c) ==> value == ""
    ensures value + [line[c]] == line[RunStart(line, c)..c + 1]
    ensures AllDigits(value + [line[c]]) && value + [line[c]] != []
  {
    if InRun(line, c) {
      assert RunStart(line, c) == RunStart(line, c - 1);
    } else {
      assert RunStart(line, c) == c;
    }
  }

  /** At the end of a run the part pushed is the run's part, and it is what the row adds. */
  lemma RunEndPart(r: nat, line: string, c: nat, startPos: Cell, length: nat, value: string)
    requires RunEndsAt(line, c)
    requires startPos == (r, RunStart(line, c)) && length == c - RunStart(line, c) + 1
    requires value == line[RunStart(line, c)..c + 1] && ParseUsize(value) == Ok(DecimalValue(value))
    ensures NewPartNumber(startPos.0, startPos.1, length, ParseUsize(value).value) == RunPart(r, line, c)
  {
  }

  /** What column `c` adds to the parts, the symbols and the stars of the row. */
  lemma RowStep(r: nat, line: string, c: nat)
    requires c < |line|
    ensures RunEndsAt(line, c) ==> RowParts(r, line, c + 1) == RowParts(r, line, c) + [RunPart(r, line, c)]
    ensures !RunEndsAt(line, c) ==> RowParts(r, line, c + 1) == RowParts(r, line, c)
    ensures RowCellsWhere(r, line, c + 1, IsSymbol)
         == RowCellsWhere(r, line, c, IsSymbol) + (if IsSymbol(line[c]) then [(r, c)] else [])
    ensures RowCellsWhere(r, line, c + 1, IsStar)
         == RowCellsWhere(r, line, c, IsStar) + (if IsStar(line[c]) then [(r, c)] else [])
  {
  }

  /** The body of the outer `enumerate` loop for one row: stars and symbols are recorded where
      they are found, and a part number when its run of digits ends. */
  method ScanRow(r: nat, line: string) returns (parts: seq<PartNumber>, symbols: seq<Cell>, stars: seq<Cell>)
    requires RunsFit(line)
    ensures parts == RowParts(r, line, |line|)
    ensures symbols == RowCellsWhere(r, line, |line|, IsSymbol)
    ensures stars == RowCellsWhere(r, line, |line|, IsStar)
  {
    parts, symbols, stars := [], [], [];
    var startNumberPos: Option<Cell> := None;
    var length: nat := 1;
    var value: string := "";
    for c := 0 to |line|
      invariant parts == RowParts(r, line, c)
      invariant symbols == RowCellsWhere(r, line, c, IsSymbol)
      invariant stars == RowCellsWhere(r, line, c, IsStar)
      invariant InRun(line, c) ==>
        && startNumberPos == Some((r, RunStart(line, c - 1)))
        && length == c - RunStart(line, c - 1) + 1
        && value == line[RunStart(line, c - 1)..c]
      invariant !InRun(line, c) ==> startNumberPos.None? && length == 1 && value == ""
    {
      RowStep(r, line, c);
      var ch := line[c];
      if ch == '*' {
        stars := stars + [(r, c)];
      }
      if !IsDigit(ch) && ch != '.' {
        symbols := symbols + [(r, c)];
        continue;
      } else if ch == '.' {
        continue;
      }
      if startNumberPos.None? {
        startNumberPos := Some((r, c));
      }
      var nextCharPos := c + 1;
      RunGrows(line, c, value);
      value := value + [ch];
      if nextCharPos < |line| && IsDigit(line[nextCharPos]) {
        length := length + 1;
        continue;
      }
      var startPos := startNumberPos.value;
      ParseDigits(value);
      var partNumber := NewPartNumber(startPos.0, startPos.1, length, ParseUsize(value).value);
      RunEndPart(r, line, c, startPos, length, value);
      parts := parts + [partNumber];
      startNumberPos := None;
      length := 1;
      value := "";
    }
  }

  // ---------------------------------------------------------------- what a row holds

  /** Every recorded part number is a maximal run of digits of its row, with its decimal
      value. */
  lemma {:induction false} RowPartsAreRuns(r: nat, line: string, n: nat, i: nat)
    requires n <= |line| && i < |RowParts(r, line, n)|
    ensures var p := RowParts(r, line, n)[i];
      && p.r == r && p.len >= 1 && p.c + p.len <= n
      && (forall k :: p.c <= k < p.c + p.len ==> IsDigit(line[k]))
      && (p.c == 0 || !IsDigit(line[p.c - 1]))
      && (p.c + p.len == |line| || !IsDigit(line[p.c + p.len]))
      && p.value == DecimalValue(line[p.c..p.c + p.len])
  {
    if i < |RowParts(r, line, n - 1)| {
      RowPartsAreRuns(r, line, n - 1, i);
    }
  }

  /** Every run of digits of the row is recorded. */
  lemma {:induction false} RunsAreRowParts(r: nat, line: string, n: nat, e: nat)
    requires n <= |line| && e < n && RunEndsAt(line, e)
    ensures RunPart(r, line, e) in RowParts(r, line, n)
  {
    if e < n - 1 {
      RunsAreRowParts(r, line, n - 1, e);
    }
  }

  /** The part numbers of a row are apart and left to right, so each run is recorded once. */
  lemma {:induction false} RowPartsOrdered(r: nat, line: string, n: nat, i: nat, j: nat)
    requires n <= |line| && i < j < |RowParts(r, line, n)|
    ensures RowParts(r, line, n)[i].c + RowParts(r, line, n)[i].len < RowParts(r, line, n)[j].c
  {
    var prev := RowParts(r, line, n - 1);
    if j < |prev| {
      RowPartsOrdered(r, line, n - 1, i, j);
    } else {
      RowPartsAreRuns(r, line, n - 1, i);
      var p := prev[i];
      var s := RunStart(line, n - 1);
      assert RowParts(r, line, n)[j].c == s;
      assert forall k :: s <= k <= n - 1 ==> IsDigit(line[k]);
    }
  }

  lemma {:induction false} RowCellsWhereIn(r: nat, line: string, n: nat, keep: char -> bool, cell: Cell)
    requires n <= |line|
    ensures cell in RowCellsWhere(r, line, n, keep) <==> cell.0 == r && cell.1 < n && keep(line[cell.1])
  {
    if n > 0 {
      RowCellsWhereIn(r, line, n - 1, keep, cell);
    }
  }

  // ---------------------------------------------------------------- scanning the text

  /** Part numbers, symbols and stars of the first `n` rows, row after row. */
  function TextParts(lines: seq<string>, n: nat): seq<PartNumber>
    requires n <= |lines|
  {
    if n == 0 then [] else TextParts(lines, n - 1) + RowParts(n - 1, lines[n - 1], |lines[n - 1]|)
  }

  function TextCellsWhere(lines: seq<string>, n: nat, keep: char -> bool): seq<Cell>
    requires n <= |lines|
  {
    if n == 0 then [] else TextCellsWhere(lines, n - 1, keep) + RowCellsWhere(n - 1, lines[n - 1], |lines[n - 1]|, keep)
  }

  /** A cell is recorded exactly when it lies in the text and holds a character of the kind. */
  lemma {:induction false} TextCellsWhereIn(lines: seq<string>, n: nat, keep: char -> bool, cell: Cell)
    requires n <= |lines|
    ensures cell in TextCellsWhere(lines, n, keep)
        <==> cell.0 < n && cell.1 < |lines[cell.0]| && keep(lines[cell.0][cell.1])
  {
    if n > 0 {
      TextCellsWhereIn(lines, n - 1, keep, cell);
      RowCellsWhereIn(n - 1, lines[n - 1], |lines[n - 1]|, keep, cell);
    }
  }

  /** The outer loop over the lines. */
  method ScanText(lines: seq<string>) returns (parts: seq<PartNumber>, symbols: seq<Cell>, stars: seq<Cell>)
    requires forall r :: 0 <= r < |lines| ==> RunsFit(lines[r])
    ensures parts == TextParts(lines, |lines|)
    ensures symbols == TextCellsWhere(lines, |lines|, IsSymbol)
    ensures stars == TextCellsWhere(lines, |lines|, IsStar)
  {
    parts, symbols, stars := [], [], [];
    for r := 0 to |lines|
      invariant parts == TextParts(lines, r)
      invariant symbols == TextCellsWhere(lines, r, IsSymbol)
      invariant stars == TextCellsWhere(lines, r, IsStar)
    {
      var p, s, t := ScanRow(r, lines[r]);
      parts, symbols, stars := parts + p, symbols + s, stars + t;
    }
  }

  // ---------------------------------------------------------------- part 1

  /** Some neighbour of the part number is a recorded symbol. */
  predicate TouchesSymbol(p: PartNumber, symbols: seq<Cell>) {
    exists cell :: cell in Neighbors(p.r, p.c, p.len) && cell in symbols
  }

  /** Sum of the values of the first `n` part numbers that touch a symbol. */
  function Part1Total(parts: seq<PartNumber>, symbols: seq<Cell>, n: nat): nat
    requires n <= |parts|
  {
    if n == 0 then 0
    else Part1Total(parts, symbols, n - 1) + (if TouchesSymbol(parts[n - 1], symbols) then parts[n - 1].value else 0)
  }

  /** The first total: each part number's value is added once, at its first neighbour that is a
      symbol. */
  method Part1(parts: seq<PartNumber>, symbols: seq<Cell>) returns (total: nat)
    ensures total == Part1Total(parts, symbols, |parts|)
  {
    total := 0;
    for i := 0 to |parts|
      invariant total == Part1Total(parts, symbols, i)
    {
      var partNumber := parts[i];
      var neighbors := GetNeighbors(partNumber.r, partNumber.c, partNumber.len);
      var j := 0;
      while j < |neighbors|
        invariant j <= |neighbors|
        invariant total == Part1Total(parts, symbols, i)
        invariant forall k :: 0 <= k < j ==> neighbors[k] !in symbols
      {
        if neighbors[j] in symbols {
          total := total + partNumber.value;
          break;
        }
        j := j + 1;
      }
    }
  }

  /** A part number of the text counts in part 1 exactly when a cell around it, inside the
      text, holds a symbol. */
  lemma TouchesSymbolIff(lines: seq<string>, p: PartNumber)
    ensures TouchesSymbol(p, TextCellsWhere(lines, |lines|, IsSymbol)) <==>
      exists cell :: cell in Neighbors(p.r, p.c, p.len) && cell.0 < |lines| && cell.1 < |lines[cell.0]|
        && IsSymbol(lines[cell.0][cell.1])
  {
    forall cell {
      TextCellsWhereIn(lines, |lines|, IsSymbol, cell);
    }
  }

  // ---------------------------------------------------------------- part 2

  /** The value list after the inner loop over the first `n` part numbers for one cell: the
      value of each part number covering the cell is appended unless already present. */
  function AddValues(vals: seq<nat>, parts: seq<PartNumber>, cell: Cell, n: nat): (r: seq<nat>)
    requires n <= |parts|
    ensures |vals| <= |r| && r[..|vals|] == vals
  {
    if n == 0 then vals
    else
      var before := AddValues(vals, parts, cell, n - 1);
      if IsOverlapping(parts[n - 1], cell) && parts[n - 1].value !in before then before + [parts[n - 1].value]
      else before
  }

  /** The value list after the loop over the first `m` neighbours. */
  function GearValues(neighbors: seq<Cell>, parts: seq<PartNumber>, m: nat): seq<nat>
    requires m <= |neighbors|
  {
    if m == 0 then [] else AddValues(GearValues(neighbors, parts, m - 1), parts, neighbors[m - 1], |parts|)
  }

  /** No value appears twice in the list. */
  predicate Distinct(vals: seq<nat>) {
    forall i, j :: 0 <= i < j < |vals| ==> vals[i] != vals[j]
  }

  /** Some of the first `n` part numbers covers the cell and has the value. */
  predicate CoveredWith(parts: seq<PartNumber>, n: nat, cell: Cell, v: nat)
    requires n <= |parts|
  {
    exists j :: 0 <= j < n && IsOverlapping(parts[j], cell) && parts[j].value == v
  }

  lemma {:induction false} AddValuesSpec(vals: seq<nat>, parts: seq<PartNumber>, cell: Cell, n: nat, v: nat)
    requires n <= |parts| && Distinct(vals)
    ensures Distinct(AddValues(vals, parts, cell, n))
    ensures AddValues(vals, parts, cell, n)[..|vals|] == vals
    ensures v in AddValues(vals, parts, cell, n) <==> v in vals || CoveredWith(parts, n, cell, v)
  {
    if n > 0 {
      AddValuesSpec(vals, parts, cell, n - 1, v);
      var before := AddValues(vals, parts, cell, n - 1);
      var after := AddValues(vals, parts, cell, n);
      assert after[..|vals|] == before[..|vals|];
      if CoveredWith(parts, n - 1, cell, v) {
        var j :| 0 <= j < n - 1 && IsOverlapping(parts[j], cell) && parts[j].value == v;
        assert 0 <= j < n && IsOverlapping(parts[j], cell) && parts[j].value == v;
      }
      if CoveredWith(parts, n, cell, v) && !CoveredWith(parts, n - 1, cell, v) {
        var j :| 0 <= j < n && IsOverlapping(parts[j], cell) && parts[j].value == v;
        assert j == n - 1;
      }
    }
  }

  /** The values collected around a star are distinct, and they are exactly the values of the
      part numbers covering one of its neighbours. */
  lemma {:induction false} GearValuesSpec(neighbors: seq<Cell>, parts: seq<PartNumber>, m: nat, v: nat)
    requires m <= |neighbors|
    ensures Distinct(GearValues(neighbors, parts, m))
    ensures v in GearValues(neighbors, parts, m) <==>
      exists i :: 0 <= i < m && CoveredWith(parts, |parts|, neighbors[i], v)
  {
    if m > 0 {
      GearValuesSpec(neighbors, parts, m - 1, v);
      AddValuesSpec(GearValues(neighbors, parts, m - 1), parts, neighbors[m - 1], |parts|, v);
      if exists i :: 0 <= i < m && CoveredWith(parts, |parts|, neighbors[i], v) {
        var i :| 0 <= i < m && CoveredWith(parts, |parts|, neighbors[i], v);
        assert i < m - 1 || CoveredWith(parts, |parts|, neighbors[m - 1], v);
      }
    }
  }

  /** The product of the first two values when there are more than one. */
  function GearRatio(vals: seq<nat>): nat {
    if |vals| > 1 then vals[0] * vals[1] else 0
  }

  /** Sum of the gear ratios of the first `n` stars. */
  function Part2Total(stars: seq<Cell>, parts: seq<PartNumber>, n: nat): nat
    requires n <= |stars|
  {
    if n == 0 then 0
    else
      var star := stars[n - 1];
      var neighbors := Neighbors(star.0, star.1, 1);
      Part2Total(stars, parts, n - 1) + GearRatio(GearValues(neighbors, parts, |neighbors|))
  }

  /** The second total: for each star, the values around it, then the product of the first
      two of them when there are more than one. */
  method Part2(stars: seq<Cell>, parts: seq<PartNumber>) returns (total: nat)
    ensures total == Part2Total(stars, parts, |stars|)
  {
    total := 0;
    for s := 0 to |stars|
      invariant total == Part2Total(stars, parts, s)
    {
      var starPosition := stars[s];
      var neighbors := GetNeighbors(starPosition.0, starPosition.1, 1);
      var vals: seq<nat> := [];
      for i := 0 to |neighbors|
        invariant vals == GearValues(neighbors, parts, i)
      {
        var neighbor := neighbors[i];
        for j := 0 to |parts|
          invariant vals == AddValues(GearValues(neighbors, parts, i), parts, neighbor, j)
        {
          var partPosition := parts[j];
          if IsOverlapping(partPosition, neighbor) {
            if partPosition.value !in vals {
              vals := vals + [partPosition.value];
            }
          }
        }
      }
      if |vals| > 1 {
        total := total + vals[0] * vals[1];
      }
    }
  }

  /** A star next to part numbers of exactly two values `a`, met first, and `b` adds `a * b`. */
  lemma TwoValuesRatio(neighbors: seq<Cell>, parts: seq<PartNumber>, a: nat, b: nat)
    requires a != b
    requires forall v :: v in GearValues(neighbors, parts, |neighbors|) <==> v == a || v == b
    requires |GearValues(neighbors, parts, |neighbors|)| > 0 && GearValues(neighbors, parts, |neighbors|)[0] == a
    ensures GearRatio(GearValues(neighbors, parts, |neighbors|)) == a * b
  {
    var vals := GearValues(neighbors, parts, |neighbors|);
    GearValuesSpec(neighbors, parts, |neighbors|, 0);
    assert b in vals;
    var k :| 0 <= k < |vals| && vals[k] == b;
    assert k != 0;
    assert vals[1] in vals;
    assert vals[1] != vals[0];
  }

  // ---------------------------------------------------------------- the whole test

  /** `test_day_3_part_1_v2` without the file read: the two totals of the schematic. */
  method Totals(lines: seq<string>) returns (part1: nat, part2: nat)
    requires forall r :: 0 <= r < |lines| ==> RunsFit(lines[r])
    ensures var parts := TextParts(lines, |lines|);
      && part1 == Part1Total(parts, TextCellsWhere(lines, |lines|, IsSymbol), |parts|)
      && part2 == Part2Total(TextCellsWhere(lines, |lines|, IsStar), parts, |TextCellsWhere(lines, |lines|, IsStar)|)
  {
    var parts, symbols, stars := ScanText(lines);
    part1 := Part1(parts, symbols);
    part2 := Part2(stars, parts);
  }
}
