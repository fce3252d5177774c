/**
 * tests/day_3.rs: the first engine-schematic scanner. Each line is split at the delimiters (the
 * characters of `SYMBOLS` and '.'); a token is added to the total when a character of `SYMBOLS`
 * lies in the window of rows and columns around it.
 */
module Day3 {
  import opened Strings

  /** `SYMBOLS`, in its order ('&' appears twice). */
  const Symbols: seq<char> := ['/', '*', '#', '&', '+', '-', '@', '&', '$', '=', '%']

  /** The characters `line.split(..)` splits at. */
  predicate IsDelimiter(ch: char) {
    ch in Symbols || ch == '.'
  }

  // ---------------------------------------------------------------- splitting a line

  /** `str::split` with the delimiter closure: the texts between delimiters, one more than
      there are delimiters, empty ones included. */
  function Pieces(s: string): (r: seq<string>)
    ensures |r| >= 1
  {
    if s == [] then [""]
    else if IsDelimiter(s[0]) then [""] + Pieces(s[1..])
    else
      var rest := Pieces(s[1..]);
      [[s[0]] + rest[0]] + rest[1..]
  }

  /** Column at which piece `k` starts: each earlier piece and its delimiter come before it. */
  function PieceStart(ps: seq<string>, k: nat): nat
    requires k <= |ps|
  {
    if k == 0 then 0 else PieceStart(ps, k - 1) + |ps[k - 1]| + 1
  }

  lemma {:induction false} PieceStartShift(ps: seq<string>, k: nat)
    requires 1 <= k <= |ps|
    ensures PieceStart(ps, k) == |ps[0]| + 1 + PieceStart(ps[1..], k - 1)
  {
    if k > 1 {
      PieceStartShift(ps, k - 1);
    }
  }

  lemma {:induction false} PieceStartHead(p: string, ps: seq<string>, k: nat)
    requires |ps| >= 1 && 1 <= k <= |ps|
    ensures PieceStart([p + ps[0]] + ps[1..], k) == |p| + PieceStart(ps, k)
  {
    var qs := [p + ps[0]] + ps[1..];
    PieceStartShift(qs, k);
    PieceStartShift(ps, k);
    assert qs[1..] == ps[1..];
  }

  /** Piece `k` lies within the line; a delimiter follows it, except after the last piece,
      which ends the line. */
  lemma {:induction false} PieceBounds(s: string, k: nat)
    requires k < |Pieces(s)|
    ensures var ps := Pieces(s); var st := PieceStart(ps, k);
      && (k + 1 < |ps| ==> st + |ps[k]| < |s| && IsDelimiter(s[st + |ps[k]|]))
      && (k + 1 == |ps| ==> st + |ps[k]| == |s|)
    decreases |s|
  {
    var ps := Pieces(s);
    if s == [] {
    } else if IsDelimiter(s[0]) {
      if k > 0 {
        PieceBounds(s[1..], k - 1);
        PieceStartShift(ps, k);
        assert ps[1..] == Pieces(s[1..]);
      }
    } else {
      var rest := Pieces(s[1..]);
      PieceBounds(s[1..], k);
      if k > 0 {
        PieceStartHead([s[0]], rest, k);
      }
    }
  }

  /** Piece `k` of `ps` is the text of `s` from its start column. */
  predicate SliceAt(s: string, ps: seq<string>, k: nat)
    requires k < |ps|
  {
    var st := PieceStart(ps, k);
    st + |ps[k]| <= |s| && s[st..st + |ps[k]|] == ps[k]
  }

  /** Piece `k` is the text of the line from its start column. */
  lemma {:induction false} PieceSlice(s: string, k: nat)
    requires k < |Pieces(s)|
    ensures SliceAt(s, Pieces(s), k)
    decreases |s|
  {
    if s == [] {
    } else if IsDelimiter(s[0]) {
      if k > 0 {
        PieceSlice(s[1..], k - 1);
        assert Pieces(s) == [""] + Pieces(s[1..]);
        SliceAfterDelimiter(s, Pieces(s[1..]), k);
      }
    } else {
      PieceSlice(s[1..], k);
      SliceAfterCharacter(s, k);
    }
  }

  lemma SliceAfterDelimiter(s: string, rest: seq<string>, k: nat)
    requires s != [] && 0 < k <= |rest|
    requires SliceAt(s[1..], rest, k - 1)
    ensures SliceAt(s, [""] + rest, k)
  {
    var ps := [""] + rest;
    assert ps[1..] == rest;
    PieceStartShift(ps, k);
    var st := PieceStart(rest, k - 1);
    var piece := rest[k - 1];
    assert ps[k] == piece;
    assert PieceStart(ps, k) == 1 + st;
    SliceShift(s, st, |piece|);
  }

  /** Slicing after the first character shifts the columns by one. */
  lemma SliceShift(s: string, st: nat, len: nat)
    requires 1 + st + len <= |s|
    ensures s[1 + st..1 + st + len] == s[1..][st..st + len]
  {
  }

  lemma SliceAfterCharacter(s: string, k: nat)
    requires s != [] && !IsDelimiter(s[0]) && k < |Pieces(s)|
    requires SliceAt(s[1..], Pieces(s[1..]), k)
    ensures SliceAt(s, Pieces(s), k)
  {
    var rest := Pieces(s[1..]);
    if k == 0 {
      SliceFirstPiece(s, rest[0]);
    } else {
      SliceLaterPiece(s, k);
    }
  }

  lemma SliceFirstPiece(s: string, first: string)
    requires s != [] && !IsDelimiter(s[0]) && first == Pieces(s[1..])[0]
    requires |first| <= |s| - 1 && s[1..][..|first|] == first
    ensures SliceAt(s, Pieces(s), 0)
  {
    var p := Pieces(s)[0];
    assert p == [s[0]] + first;
    assert s[..|p|] == [s[0]] + s[1..][..|first|];
  }

  lemma SliceLaterPiece(s: string, k: nat)
    requires s != [] && !IsDelimiter(s[0]) && 0 < k < |Pieces(s)|
    requires SliceAt(s[1..], Pieces(s[1..]), k)
    ensures SliceAt(s, Pieces(s), k)
  {
    var ps := Pieces(s);
    var rest := Pieces(s[1..]);
    PieceStartHead([s[0]], rest, k);
    var st := PieceStart(rest, k);
    assert PieceStart(ps, k) == 1 + st;
    assert ps[k] == rest[k];
    SliceShift(s, st, |rest[k]|);
  }

  /** Piece `k` holds no delimiter. */
  lemma {:induction false} PieceClean(s: string, k: nat)
    requires k < |Pieces(s)|
    ensures forall j :: 0 <= j < |Pieces(s)[k]| ==> !IsDelimiter(Pieces(s)[k][j])
    decreases |s|
  {
    var ps := Pieces(s);
    if s == [] {
    } else if IsDelimiter(s[0]) {
      if k > 0 {
        PieceClean(s[1..], k - 1);
        assert ps[k] == Pieces(s[1..])[k - 1];
      }
    } else {
      var rest := Pieces(s[1..]);
      PieceClean(s[1..], k);
      if k == 0 {
        forall j | 0 <= j < |ps[0]| ensures !IsDelimiter(ps[0][j]) {
          if j > 0 { assert ps[0][j] == rest[0][j - 1]; }
        }
      } else {
        assert ps[k] == rest[k];
      }
    }
  }

  // ---------------------------------------------------------------- the window

  /** The rows `find_adjacent_symbol` looks at: from the row above to the row below, clamped to
      the text. */
  function RowWindow(count: nat, line: nat): (w: (nat, nat))
    requires line < count
    ensures w.0 == (if line >= 1 then line - 1 else 0) && w.1 == (if line + 2 <= count then line + 2 else count)
    ensures w.0 <= line < w.1 <= count
  {
    var start := if line == 0 then 0 else line - 1;
    var end := if line == count - 1 then count else line + 2;
    (start, end)
  }

  /** The columns of a row of length `rowLen` it looks at for a token of length `len` ending
      before `column`: from one before the token, not below 0, to one after it, or to the end of
      the row when the token reaches it. */
  function ColumnWindow(rowLen: nat, column: nat, len: nat): (w: (nat, nat))
    requires len <= column
    ensures w.0 == (if column - len >= 1 then column - len - 1 else 0)
    ensures w.1 == (if column == rowLen then column else column + 1)
  {
    var start := column - len;
    var start := if start == 0 then 0 else start - 1;
    var end := column;
    var end := if end == rowLen then column else column + 1;
    (start, end)
  }

  /** The row window holds rows `lo` to `hi` and each of them is long enough for the column
      slice, so that nothing in `find_adjacent_symbol` panics. */
  predicate WindowFits(lines: seq<string>, line: nat, column: nat, len: nat)
  {
    && line < |lines| && len <= column
    && var (lo, hi) := RowWindow(|lines|, line);
      forall rr :: lo <= rr < hi ==> column <= |lines[rr]|
  }

  /** Column `cc` of row `rr` is in the column window of that row. */
  predicate InColumns(lines: seq<string>, column: nat, len: nat, rr: nat, cc: nat)
    requires rr < |lines| && len <= column
  {
    ColumnWindow(|lines[rr]|, column, len).0 <= cc < ColumnWindow(|lines[rr]|, column, len).1
  }

  /** Some cell of the window holds a character of `SYMBOLS`. */
  ghost predicate AdjacentSymbol(lines: seq<string>, line: nat, column: nat, len: nat)
    requires WindowFits(lines, line, column, len)
  {
    var (lo, hi) := RowWindow(|lines|, line);
    exists rr: nat, cc: nat :: lo <= rr < hi && InColumns(lines, column, len, rr, cc) && lines[rr][cc] in Symbols
  }

  /** `find_adjacent_symbol`: scans the rows of the window, and in each the column slice,
      returning true at the first character of `SYMBOLS`. */
  method FindAdjacentSymbol(lines: seq<string>, line: nat, column: nat, len: nat) returns (found: bool)
    requires WindowFits(lines, line, column, len)
    ensures found == AdjacentSymbol(lines, line, column, len)
  {
    var start := if line == 0 then 0 else line - 1;
    var end := if line == |lines| - 1 then |lines| else line + 2;
    var subset := lines[start..end];
    for i := 0 to |subset|
      invariant forall rr: nat, cc: nat :: start <= rr < start + i && InColumns(lines, column, len, rr, cc) ==> lines[rr][cc] !in Symbols
    {
      var row := subset[i];
      assert row == lines[start + i];
      var (colStart, colEnd) := ColumnWindow(|row|, column, len);
      var colSubset := row[colStart..colEnd];
      for j := 0 to |colSubset|
        invariant forall cc :: colStart <= cc < colStart + j ==> row[cc] !in Symbols
      {
        assert colSubset[j] == row[colStart + j];
        if colSubset[j] in Symbols {
          SymbolInWindow(lines, line, column, len, start + i, colStart + j);
          return true;
        }
      }
    }
    return false;
  }

  /** A symbol in the window is a witness of `AdjacentSymbol`. */
  lemma SymbolInWindow(lines: seq<string>, line: nat, column: nat, len: nat, rr: nat, cc: nat)
    requires WindowFits(lines, line, column, len)
    requires RowWindow(|lines|, line).0 <= rr < RowWindow(|lines|, line).1
    requires InColumns(lines, column, len, rr, cc) && lines[rr][cc] in Symbols
    ensures AdjacentSymbol(lines, line, column, len)
  {
  }

  // ---------------------------------------------------------------- the sum

  /** `split.parse::<usize>()`, read as 0 where it would fail (it is then never added). */
  function TokenValue(token: string): nat {
    if ParseUsize(token).Ok? then ParseUsize(token).value else 0
  }

  /** What piece `k` of row `i` adds: its value when it is a token with a symbol around it. */
  ghost function PieceScore(lines: seq<string>, i: nat, ps: seq<string>, k: nat): nat
    requires k < |ps|
  {
    var column := PieceStart(ps, k) + |ps[k]|;
    if ps[k] != [] && WindowFits(lines, i, column, |ps[k]|) && AdjacentSymbol(lines, i, column, |ps[k]|) then TokenValue(ps[k])
    else 0
  }

  /** What the first `n` pieces of row `i` add. */
  ghost function RowScore(lines: seq<string>, i: nat, ps: seq<string>, n: nat): nat
    requires n <= |ps|
  {
    if n == 0 then 0 else RowScore(lines, i, ps, n - 1) + PieceScore(lines, i, ps, n - 1)
  }

  /** What the first `n` rows add; empty rows add nothing. */
  ghost function SumRows(lines: seq<string>, n: nat): nat
    requires n <= |lines|
  {
    if n == 0 then 0
    else
      var row := lines[n - 1];
      SumRows(lines, n - 1) + (if row == [] then 0 else RowScore(lines, n - 1, Pieces(row), |Pieces(row)|))
  }

  /** Around token `k` of row `i` the window fits, and when a symbol is there the token is a
      number. */
  ghost predicate TokenFits(lines: seq<string>, i: nat, k: nat)
    requires i < |lines| && k < |Pieces(lines[i])|
  {
    var ps := Pieces(lines[i]);
    var column := PieceStart(ps, k) + |ps[k]|;
    WindowFits(lines, i, column, |ps[k]|) && (AdjacentSymbol(lines, i, column, |ps[k]|) ==> ParseUsize(ps[k]).Ok?)
  }

  /** Nothing in `sum_lines` panics: every token of a non-empty row fits. */
  ghost predicate Scannable(lines: seq<string>) {
    forall i, k :: 0 <= i < |lines| && lines[i] != [] && 0 <= k < |Pieces(lines[i])| && Pieces(lines[i])[k] != [] ==>
      TokenFits(lines, i, k)
  }

  /** `sum_lines`: the rows in order, skipping empty ones. */
  method SumLines(lines: seq<string>) returns (total: nat)
    requires Scannable(lines)
    ensures total == SumRows(lines, |lines|)
  {
    total := 0;
    for i := 0 to |lines|
      invariant total == SumRows(lines, i)
    {
      var line := lines[i];
      if line == [] {
        continue;
      }
      total := SumLine(lines, i, total);
    }
  }

  /** The body of `sum_lines` for non-empty row `i`: `index` tracks the column; after
      `index += split.len()` it is the end column of the token, which is where the window is
      taken. */
  method SumLine(lines: seq<string>, i: nat, total0: nat) returns (total: nat)
    requires i < |lines| && lines[i] != []
    requires forall k :: 0 <= k < |Pieces(lines[i])| && Pieces(lines[i])[k] != [] ==> TokenFits(lines, i, k)
    ensures total == total0 + RowScore(lines, i, Pieces(lines[i]), |Pieces(lines[i])|)
  {
    total := total0;
    var line := lines[i];
    var index: nat := 0;
    var pieces := Pieces(line);
    for k := 0 to |pieces|
      invariant index == PieceStart(pieces, k)
      invariant total == total0 + RowScore(lines, i, pieces, k)
    {
      var split := pieces[k];
      assert PieceStart(pieces, k + 1) == index + |split| + 1;
      if split == [] {
        assert RowScore(lines, i, pieces, k + 1) == RowScore(lines, i, pieces, k);
        index := index + 1;
        continue;
      }
      index := index + |split|;
      assert TokenFits(lines, i, k);
      var adjacent := FindAdjacentSymbol(lines, i, index, |split|);
      ScoreStep(lines, i, pieces, k, index, adjacent);
      if adjacent {
        total := total + ParseUsize(split).value;
      }
      index := index + 1;
    }
  }

  /** A token adds its value to the row exactly when a symbol is around it. */
  lemma ScoreStep(lines: seq<string>, i: nat, ps: seq<string>, k: nat, column: nat, found: bool)
    requires k < |ps| && ps[k] != [] && column == PieceStart(ps, k) + |ps[k]|
    requires WindowFits(lines, i, column, |ps[k]|)
    requires found == AdjacentSymbol(lines, i, column, |ps[k]|)
    requires found ==> ParseUsize(ps[k]).Ok?
    ensures found ==> RowScore(lines, i, ps, k + 1) == RowScore(lines, i, ps, k) + ParseUsize(ps[k]).value
    ensures !found ==> RowScore(lines, i, ps, k + 1) == RowScore(lines, i, ps, k)
  {
  }

  /** A text without any character of `SYMBOLS` sums to 0. */
  lemma {:induction false} NoSymbolsNoSum(lines: seq<string>, n: nat)
    requires n <= |lines|
    requires forall rr, cc :: 0 <= rr < |lines| && 0 <= cc < |lines[rr]| ==> lines[rr][cc] !in Symbols
    ensures SumRows(lines, n) == 0
  {
    if n > 0 {
      NoSymbolsNoSum(lines, n - 1);
      var ps := Pieces(lines[n - 1]);
      NoSymbolsRow(lines, n - 1, ps, |ps|);
    }
  }

  lemma {:induction false} NoSymbolsRow(lines: seq<string>, i: nat, ps: seq<string>, k: nat)
    requires k <= |ps|
    requires forall rr, cc :: 0 <= rr < |lines| && 0 <= cc < |lines[rr]| ==> lines[rr][cc] !in Symbols
    ensures RowScore(lines, i, ps, k) == 0
  {
    if k > 0 {
      NoSymbolsRow(lines, i, ps, k - 1);
    }
  }
}
