/**
 * tests/day_2.rs: read one game per non-empty line, then add up the 1-based positions of
 * the games that were possible with 12 red, 13 green and 14 blue cubes.
 */
module Day2 {
  import opened Results
  import opened Utils
  import opened CubeGames

  /** Every non-empty line is a game; the puzzle code stops with "Should parse input"
      otherwise. */
  predicate GameLines(lines: seq<string>) {
    forall i :: 0 <= i < |lines| ==> lines[i] != "" ==> ParseGame(lines[i]).Ok?
  }

  /** The non-empty lines, in order. */
  function NonEmptyLines(lines: seq<string>): (r: seq<string>)
    ensures forall k :: 0 <= k < |r| ==> r[k] != "" && r[k] in lines
    ensures forall i :: 0 <= i < |lines| && lines[i] != "" ==> lines[i] in r
    ensures |r| <= |lines|
  {
    if lines == [] then []
    else
      var front := lines[..|lines| - 1];
      var last := lines[|lines| - 1];
      assert forall i :: 0 <= i < |lines| - 1 ==> lines[i] == front[i];
      NonEmptyLines(front) + (if last == "" then [] else [last])
  }

  /** The positions of the non-empty lines, in increasing order. */
  function KeptPositions(lines: seq<string>): (ps: seq<nat>)
    ensures forall k :: 0 <= k < |ps| ==> ps[k] < |lines| && lines[ps[k]] != ""
    ensures forall k, l :: 0 <= k < l < |ps| ==> ps[k] < ps[l]
    ensures forall i :: 0 <= i < |lines| && lines[i] != "" ==> i in ps
  {
    if lines == [] then []
    else
      var front := lines[..|lines| - 1];
      var last := lines[|lines| - 1];
      assert forall i :: 0 <= i < |lines| - 1 ==> lines[i] == front[i];
      KeptPositions(front) + (if last == "" then [] else [|lines| - 1])
  }

  /** The k-th kept line is the line at the k-th kept position: `NonEmptyLines` keeps every
      non-empty line once, in the order of the input. */
  lemma {:induction false} NonEmptyLinesInOrder(lines: seq<string>)
    ensures |NonEmptyLines(lines)| == |KeptPositions(lines)|
    ensures forall k :: 0 <= k < |KeptPositions(lines)| ==> NonEmptyLines(lines)[k] == lines[KeptPositions(lines)[k]]
    decreases |lines|
  {
    if lines != [] {
      var front := lines[..|lines| - 1];
      NonEmptyLinesInOrder(front);
      var ps, r := KeptPositions(front), NonEmptyLines(front);
      forall k | 0 <= k < |ps| ensures r[k] == lines[ps[k]] {
        assert front[ps[k]] == lines[ps[k]];
      }
    }
  }

  /** The games of the non-empty lines, numbered in the order of those lines. */
  function Games(lines: seq<string>): (games: seq<CubeGame>)
    requires GameLines(lines)
  {
    if lines == [] then []
    else
      var front := lines[..|lines| - 1];
      var last := lines[|lines| - 1];
      assert GameLines(front) by {
        forall i | 0 <= i < |front| && front[i] != "" ensures ParseGame(front[i]).Ok? {
          assert front[i] == lines[i];
        }
      }
      Games(front) + (if last == "" then [] else [ParseGame(last).value])
  }

  /** Game `k` is the parse of line `k`, for every `k`. */
  predicate ParsedFrom(games: seq<CubeGame>, kept: seq<string>) {
    |games| == |kept| && forall k :: 0 <= k < |games| ==> ParseGame(kept[k]) == Ok(games[k])
  }

  lemma ParsedFromAppend(games: seq<CubeGame>, kept: seq<string>, g: CubeGame, line: string)
    requires ParsedFrom(games, kept) && ParseGame(line) == Ok(g)
    ensures ParsedFrom(games + [g], kept + [line])
  {
    var gs := games + [g];
    var ks := kept + [line];
    forall k | 0 <= k < |gs| ensures ParseGame(ks[k]) == Ok(gs[k]) {
      if k < |games| {
        assert gs[k] == games[k] && ks[k] == kept[k];
      }
    }
  }

  /** Empty lines are skipped before games are numbered: game `k` is the parse of the k-th
      non-empty line. */
  lemma {:induction false} GamesOfNonEmptyLines(lines: seq<string>)
    requires GameLines(lines)
    ensures ParsedFrom(Games(lines), NonEmptyLines(lines))
    decreases |lines|
  {
    if lines != [] {
      var front := lines[..|lines| - 1];
      var last := lines[|lines| - 1];
      GameLinesPrefix(lines, |lines| - 1);
      GamesOfNonEmptyLines(front);
      if last == "" {
        assert Games(lines) == Games(front);
        assert NonEmptyLines(lines) == NonEmptyLines(front);
      } else {
        var g := ParseGame(last).value;
        assert Games(lines) == Games(front) + [g];
        assert NonEmptyLines(lines) == NonEmptyLines(front) + [last];
        ParsedFromAppend(Games(front), NonEmptyLines(front), g, last);
      }
    }
  }

  lemma GameLinesPrefix(lines: seq<string>, n: nat)
    requires GameLines(lines) && n <= |lines|
    ensures GameLines(lines[..n])
  {
    var p := lines[..n];
    forall j | 0 <= j < n && p[j] != "" ensures ParseGame(p[j]).Ok? {
      assert p[j] == lines[j];
    }
  }

  /** The loop of the test: each non-empty line is parsed and pushed. */
  method ReadGames(lines: seq<string>) returns (games: seq<CubeGame>)
    requires GameLines(lines)
    ensures games == Games(lines)
  {
    games := [];
    var i := 0;
    while i < |lines|
      invariant 0 <= i <= |lines|
      invariant games == Games(lines[..i])
    {
      var line := lines[i];
      assert lines[..i + 1][..i] == lines[..i];
      GameLinesPrefix(lines, i + 1);
      if line != "" {
        var game := ParseGame(line).value;
        games := games + [game];
      }
      i := i + 1;
    }
    assert lines[..i] == lines;
  }

  /** A game could have been played with 12 red, 14 blue and 13 green cubes. */
  predicate Possible(g: CubeGame) {
    !(g.maxRed > 12 || g.maxBlue > 14 || g.maxGreen > 13)
  }

  /** The 1-based positions of the possible games, in increasing order. */
  function PossibleNumbers(games: seq<CubeGame>): (r: seq<nat>)
    ensures forall k :: k in r <==> 1 <= k <= |games| && Possible(games[k - 1])
    ensures forall i, j :: 0 <= i < j < |r| ==> r[i] < r[j]
    ensures forall i :: 0 <= i < |r| ==> 1 <= r[i] <= |games|
  {
    if games == [] then []
    else
      var front := games[..|games| - 1];
      assert forall i :: 0 <= i < |front| ==> games[i] == front[i];
      PossibleNumbers(front) + (if Possible(games[|games| - 1]) then [|games|] else [])
  }

  /** The answer: the sum of the positions of the possible games. */
  function SumOfPossible(games: seq<CubeGame>): nat {
    Sum(PossibleNumbers(games))
  }

  /** The same sum, game by game: each possible game adds its position, others nothing. */
  function Weighted(games: seq<CubeGame>): nat {
    if games == [] then 0
    else Weighted(games[..|games| - 1]) + (if Possible(games[|games| - 1]) then |games| else 0)
  }

  lemma PossibleNumbersStep(games: seq<CubeGame>)
    requires games != []
    ensures PossibleNumbers(games) == PossibleNumbers(games[..|games| - 1])
                                      + (if Possible(games[|games| - 1]) then [|games|] else [])
  {
  }

  lemma {:induction false} SumOfPossibleByGame(games: seq<CubeGame>)
    ensures SumOfPossible(games) == Weighted(games)
    decreases |games|
  {
    if games != [] {
      var front := games[..|games| - 1];
      SumOfPossibleByGame(front);
      var before := PossibleNumbers(front);
      PossibleNumbersStep(games);
      if Possible(games[|games| - 1]) {
        SumSnoc(before, |games|);
      } else {
        assert before + [] == before;
      }
    }
  }

  /** Impossible games contribute nothing: with none possible the answer is 0. */
  lemma NonePossible(games: seq<CubeGame>)
    requires forall i :: 0 <= i < |games| ==> !Possible(games[i])
    ensures SumOfPossible(games) == 0
  {
    SumOfPossibleByGame(games);
    NoneWeighted(games);
  }

  lemma {:induction false} NoneWeighted(games: seq<CubeGame>)
    requires forall i :: 0 <= i < |games| ==> !Possible(games[i])
    ensures Weighted(games) == 0
    decreases |games|
  {
    if games != [] {
      var front := games[..|games| - 1];
      assert forall i :: 0 <= i < |front| ==> front[i] == games[i];
      NoneWeighted(front);
    }
  }

  /** Appending an impossible game leaves the answer unchanged; a possible one adds its
      position. */
  lemma SumOfPossibleAppend(games: seq<CubeGame>, g: CubeGame)
    ensures SumOfPossible(games + [g]) == SumOfPossible(games) + (if Possible(g) then |games| + 1 else 0)
  {
    SumOfPossibleByGame(games + [g]);
    SumOfPossibleByGame(games);
    assert (games + [g])[..|games|] == games;
  }

  lemma {:induction false} WeightedBound(games: seq<CubeGame>)
    ensures 2 * Weighted(games) <= |games| * (|games| + 1)
    ensures (forall i :: 0 <= i < |games| ==> Possible(games[i])) ==> 2 * Weighted(games) == |games| * (|games| + 1)
    decreases |games|
  {
    if games != [] {
      var n := |games|;
      var front := games[..n - 1];
      WeightedBound(front);
      assert (n - 1) * n + 2 * n == n * (n + 1);
      if forall i :: 0 <= i < n ==> Possible(games[i]) {
        assert forall i :: 0 <= i < n - 1 ==> front[i] == games[i];
      }
    }
  }

  /** Each position is counted at most once, so the answer is at most 1 + 2 + ... + n. */
  lemma SumOfPossibleBound(games: seq<CubeGame>)
    ensures 2 * SumOfPossible(games) <= |games| * (|games| + 1)
  {
    SumOfPossibleByGame(games);
    WeightedBound(games);
  }

  /** When every game is possible the answer is exactly 1 + 2 + ... + n. */
  lemma AllPossible(games: seq<CubeGame>)
    requires forall i :: 0 <= i < |games| ==> Possible(games[i])
    ensures 2 * SumOfPossible(games) == |games| * (|games| + 1)
  {
    SumOfPossibleByGame(games);
    WeightedBound(games);
  }

  /** The whole of part 1: read the games, then add up the positions of the possible ones. */
  method Part1(lines: seq<string>) returns (answer: nat)
    requires GameLines(lines)
    ensures answer == SumOfPossible(Games(lines))
  {
    var games := ReadGames(lines);
    answer := SumOfPossible(games);
  }
}
