/**
 * src/cube_game.rs: a game of the cube-drawing puzzle, read from a line such as
 * "Game 1: 3 blue, 4 red; 1 red, 2 green, 6 blue; 2 green", and the largest number of cubes
 * of each colour shown in any of its draws.
 */
module CubeGames {
  import opened Results
  import opened Strings

  datatype CubeColor = Blue | Red | Green

  /** One "<amount> <colour>" entry of a set. */
  datatype Draw = Draw(color: CubeColor, amount: nat)

  /** The draws shown at once, between two "; ". */
  datatype CubeSet = CubeSet(draws: seq<Draw>)

  datatype CubeGame = CubeGame(sets: seq<CubeSet>, maxRed: nat, maxBlue: nat, maxGreen: nat)

  datatype CubeGameFromStrError = InvalidInputError | ParseIntError(cause: Strings.ParseIntError)

  // ---------------------------------------------------------------- per-colour maxima

  /** Some set shows a draw of `m` cubes of colour `c`. */
  predicate Drawn(sets: seq<CubeSet>, c: CubeColor, m: nat) {
    exists s, d :: 0 <= s < |sets| && 0 <= d < |sets[s].draws| && sets[s].draws[d] == Draw(c, m)
  }

  /** No set shows a draw of colour `c`. */
  predicate NeverDrawn(sets: seq<CubeSet>, c: CubeColor) {
    forall s, d :: 0 <= s < |sets| && 0 <= d < |sets[s].draws| ==> sets[s].draws[d].color != c
  }

  /** Every draw of colour `c` shows at most `m` cubes. */
  predicate AtMost(sets: seq<CubeSet>, c: CubeColor, m: nat) {
    forall s, d :: 0 <= s < |sets| && 0 <= d < |sets[s].draws| && sets[s].draws[d].color == c
               ==> sets[s].draws[d].amount <= m
  }

  /** `m` is the largest amount drawn of colour `c`, or 0 when that colour never appears
      (`max()` over the flattened draws, then `unwrap_or(0)`). */
  predicate IsColorMax(sets: seq<CubeSet>, c: CubeColor, m: nat) {
    AtMost(sets, c, m) && if NeverDrawn(sets, c) then m == 0 else Drawn(sets, c, m)
  }

  /** The largest amount of colour `c` among `draws`, or 0. */
  function MaxInDraws(draws: seq<Draw>, c: CubeColor): (m: nat)
    ensures forall i :: 0 <= i < |draws| && draws[i].color == c ==> draws[i].amount <= m
    ensures (forall i :: 0 <= i < |draws| ==> draws[i].color != c) ==> m == 0
    ensures (exists i :: 0 <= i < |draws| && draws[i].color == c)
            ==> exists i :: 0 <= i < |draws| && draws[i] == Draw(c, m)
  {
    if draws == [] then 0
    else
      var rest := MaxInDraws(draws[1..], c);
      var m := if draws[0].color == c && draws[0].amount >= rest then draws[0].amount else rest;
      MaxInDrawsStep(draws, c, rest, m);
      m
  }

  lemma MaxInDrawsStep(draws: seq<Draw>, c: CubeColor, rest: nat, m: nat)
    requires draws != []
    requires forall i :: 0 <= i < |draws[1..]| && draws[1..][i].color == c ==> draws[1..][i].amount <= rest
    requires (forall i :: 0 <= i < |draws[1..]| ==> draws[1..][i].color != c) ==> rest == 0
    requires (exists i :: 0 <= i < |draws[1..]| && draws[1..][i].color == c)
             ==> exists i :: 0 <= i < |draws[1..]| && draws[1..][i] == Draw(c, rest)
    requires m == if draws[0].color == c && draws[0].amount >= rest then draws[0].amount else rest
    ensures forall i :: 0 <= i < |draws| && draws[i].color == c ==> draws[i].amount <= m
    ensures (forall i :: 0 <= i < |draws| ==> draws[i].color != c) ==> m == 0
    ensures (exists i :: 0 <= i < |draws| && draws[i].color == c)
            ==> exists i :: 0 <= i < |draws| && draws[i] == Draw(c, m)
  {
    assert forall i :: 1 <= i < |draws| ==> draws[i] == draws[1..][i - 1];
    if draws[0].color == c && draws[0].amount >= rest {
      assert draws[0] == Draw(c, m);
    } else if exists i :: 0 <= i < |draws| && draws[i].color == c {
      var i :| 0 <= i < |draws| && draws[i].color == c;
      if i == 0 {
        assert draws[0].amount < rest;
      } else {
        assert draws[1..][i - 1].color == c;
      }
      var k :| 0 <= k < |draws[1..]| && draws[1..][k] == Draw(c, rest);
      assert draws[k + 1] == Draw(c, m);
    }
  }

  /** The largest amount of colour `c` among the draws of all `sets`, or 0. */
  function MaxInSets(sets: seq<CubeSet>, c: CubeColor): (m: nat)
    ensures IsColorMax(sets, c, m)
  {
    if sets == [] then 0
    else
      var here := MaxInDraws(sets[0].draws, c);
      var rest := MaxInSets(sets[1..], c);
      assert forall s :: 1 <= s < |sets| ==> sets[s] == sets[1..][s - 1];
      var m := if here >= rest then here else rest;
      MaxInSetsStep(sets, c, here, rest, m);
      m
  }

  lemma MaxInSetsStep(sets: seq<CubeSet>, c: CubeColor, here: nat, rest: nat, m: nat)
    requires sets != [] && forall s :: 1 <= s < |sets| ==> sets[s] == sets[1..][s - 1]
    requires forall i :: 0 <= i < |sets[0].draws| && sets[0].draws[i].color == c ==> sets[0].draws[i].amount <= here
    requires (forall i :: 0 <= i < |sets[0].draws| ==> sets[0].draws[i].color != c) ==> here == 0
    requires (exists i :: 0 <= i < |sets[0].draws| && sets[0].draws[i].color == c)
             ==> exists i :: 0 <= i < |sets[0].draws| && sets[0].draws[i] == Draw(c, here)
    requires IsColorMax(sets[1..], c, rest)
    requires m == if here >= rest then here else rest
    ensures IsColorMax(sets, c, m)
  {
    assert AtMost(sets, c, m) by {
      forall s, d | 0 <= s < |sets| && 0 <= d < |sets[s].draws| && sets[s].draws[d].color == c
        ensures sets[s].draws[d].amount <= m
      {
        if s > 0 {
          assert sets[1..][s - 1].draws[d] == sets[s].draws[d];
        }
      }
    }
    if !NeverDrawn(sets, c) {
      var s, d :| 0 <= s < |sets| && 0 <= d < |sets[s].draws| && sets[s].draws[d].color == c;
      if exists i :: 0 <= i < |sets[0].draws| && sets[0].draws[i].color == c {
        if m == here {
          var i :| 0 <= i < |sets[0].draws| && sets[0].draws[i] == Draw(c, here);
          assert sets[0].draws[i] == Draw(c, m);
        } else {
          assert !NeverDrawn(sets[1..], c) by {
            assert rest > 0;
          }
          var s', d' :| 0 <= s' < |sets[1..]| && 0 <= d' < |sets[1..][s'].draws| && sets[1..][s'].draws[d'] == Draw(c, rest);
          assert sets[s' + 1].draws[d'] == Draw(c, m);
        }
      } else {
        assert s > 0;
        assert sets[1..][s - 1].draws[d].color == c;
        var s', d' :| 0 <= s' < |sets[1..]| && 0 <= d' < |sets[1..][s'].draws| && sets[1..][s'].draws[d'] == Draw(c, rest);
        assert sets[s' + 1].draws[d'] == Draw(c, m);
      }
    } else {
      assert NeverDrawn(sets[1..], c) by {
        forall s, d | 0 <= s < |sets[1..]| && 0 <= d < |sets[1..][s].draws|
          ensures sets[1..][s].draws[d].color != c
        {
          assert sets[1..][s] == sets[s + 1];
        }
      }
    }
  }

  /** The maximum of a colour is determined by the draws: two values with the defining
      property are equal. */
  lemma ColorMaxUnique(sets: seq<CubeSet>, c: CubeColor, m1: nat, m2: nat)
    requires IsColorMax(sets, c, m1) && IsColorMax(sets, c, m2)
    ensures m1 == m2
  {
    if !NeverDrawn(sets, c) {
      var s1, d1 :| 0 <= s1 < |sets| && 0 <= d1 < |sets[s1].draws| && sets[s1].draws[d1] == Draw(c, m1);
      var s2, d2 :| 0 <= s2 < |sets| && 0 <= d2 < |sets[s2].draws| && sets[s2].draws[d2] == Draw(c, m2);
      assert m1 <= m2 && m2 <= m1;
    }
  }

  /** `CubeGame::new`: keeps the sets and records the maximum of each colour. */
  function NewGame(sets: seq<CubeSet>): (g: CubeGame)
    ensures g.sets == sets
    ensures IsColorMax(sets, Red, g.maxRed)
    ensures IsColorMax(sets, Blue, g.maxBlue)
    ensures IsColorMax(sets, Green, g.maxGreen)
  {
    CubeGame(sets, MaxInSets(sets, Red), MaxInSets(sets, Blue), MaxInSets(sets, Green))
  }

  // ---------------------------------------------------------------- parsing

  function ColorName(c: CubeColor): string {
    match c
    case Blue => "blue"
    case Red => "red"
    case Green => "green"
  }

  /** The colour match of `CubeGameDraw::from_str`: exactly "blue", "red" or "green". */
  function ParseColor(t: string): (r: Option<CubeColor>)
    ensures forall c :: r == Some(c) <==> ColorName(c) == t
  {
    if t == "blue" then Some(Blue)
    else if t == "red" then Some(Red)
    else if t == "green" then Some(Green)
    else None
  }

  /** `CubeGameDraw::from_str`: the amount before the first space, the colour after it. The
      colour is checked before the amount is parsed. */
  function ParseDraw(s: string): (r: Result<Draw, CubeGameFromStrError>)
    ensures !Contains(s, " ") ==> r == Err(InvalidInputError)
    ensures Contains(s, " ") && ParseColor(SplitOnce(s, " ").value.1).None? ==> r == Err(InvalidInputError)
    ensures r.Ok? <==> Contains(s, " ") && ParseColor(SplitOnce(s, " ").value.1).Some?
                       && ParseUsize(SplitOnce(s, " ").value.0).Ok?
    ensures r.Ok? ==> ColorName(r.value.color) == SplitOnce(s, " ").value.1
                      && ParseUsize(SplitOnce(s, " ").value.0) == Ok(r.value.amount)
    ensures r.Err? && r.error.ParseIntError? ==> ParseUsize(SplitOnce(s, " ").value.0) == Err(r.error.cause)
  {
    match SplitOnce(s, " ")
    case None => Err(InvalidInputError)
    case Some((amount, colorText)) =>
      match ParseColor(colorText)
      case None => Err(InvalidInputError)
      case Some(c) =>
        var n :- ParseUsize(amount).MapError(e => ParseIntError(e));
        Ok(Draw(c, n))
  }

  /** `CubeGameSet::from_str`: the draws between ", ", in order; the first draw that fails
      makes the set fail with its error. */
  function ParseSet(s: string): (r: Result<CubeSet, CubeGameFromStrError>)
  {
    var draws :- Collect(Split(s, ", "), ParseDraw);
    Ok(CubeSet(draws))
  }

  /** `CubeGame::from_str`: the text before the first ": " is ignored, the rest is split into
      sets on "; ". */
  function ParseGame(s: string): (r: Result<CubeGame, CubeGameFromStrError>)
    ensures !Contains(s, ": ") ==> r == Err(InvalidInputError)
    ensures r.Ok? ==> r.value == NewGame(r.value.sets)
  {
    match SplitOnce(s, ": ")
    case None => Err(InvalidInputError)
    case Some((_, rest)) =>
      var sets :- Collect(Split(rest, "; "), ParseSet);
      Ok(NewGame(sets))
  }

  /** The sets of a game are the pieces between "; ", each parsed, in order; its draws are
      the pieces between ", ". */
  lemma ParseGameSets(s: string)
    requires ParseGame(s).Ok?
    ensures Contains(s, ": ")
    ensures var pieces := Split(SplitOnce(s, ": ").value.1, "; ");
            var sets := ParseGame(s).value.sets;
            |sets| == |pieces| && forall i :: 0 <= i < |pieces| ==> ParseSet(pieces[i]) == Ok(sets[i])
  {
  }

  lemma ParseSetDraws(s: string)
    requires ParseSet(s).Ok?
    ensures var pieces := Split(s, ", ");
            var draws := ParseSet(s).value.draws;
            |draws| == |pieces| && forall i :: 0 <= i < |pieces| ==> ParseDraw(pieces[i]) == Ok(draws[i])
  {
  }

  /** A set fails exactly when one of its draws does; the error is that of the first. */
  lemma ParseSetFails(s: string, i: nat)
    requires i < |Split(s, ", ")| && ParseDraw(Split(s, ", ")[i]).Err?
    requires forall j :: 0 <= j < i ==> ParseDraw(Split(s, ", ")[j]).Ok?
    ensures ParseSet(s) == Err(ParseDraw(Split(s, ", ")[i]).error)
  {
    var pieces := Split(s, ", ");
    var r := Collect(pieces, ParseDraw);
    var k :| 0 <= k < |pieces| && ParseDraw(pieces[k]) == Err(r.error)
             && forall j :: 0 <= j < k ==> ParseDraw(pieces[j]).Ok?;
    assert k == i;
  }

  // ---------------------------------------------------------------- writing games out

  function FormatDraw(d: Draw): string {
    NatToString(d.amount) + " " + ColorName(d.color)
  }

  function FormatSet(st: CubeSet): string {
    Join(seq(|st.draws|, i requires 0 <= i < |st.draws| => FormatDraw(st.draws[i])), ", ")
  }

  function FormatSets(sets: seq<CubeSet>): string {
    Join(seq(|sets|, i requires 0 <= i < |sets| => FormatSet(sets[i])), "; ")
  }

  /** A game line with the given title before ": ". */
  function FormatGame(title: string, sets: seq<CubeSet>): string {
    title + ": " + FormatSets(sets)
  }

  lemma DigitsAvoid(s: string, c: char)
    requires AllDigits(s) && !IsDigit(c)
    ensures Avoids(s, c)
  {
  }

  lemma FormatDrawAvoids(d: Draw)
    ensures Avoids(FormatDraw(d), ',') && Avoids(FormatDraw(d), ';')
  {
    DigitsAvoid(NatToString(d.amount), ',');
    DigitsAvoid(NatToString(d.amount), ';');
  }

  lemma FormatSetAvoids(st: CubeSet)
    ensures Avoids(FormatSet(st), ';')
  {
    var xs := seq(|st.draws|, i requires 0 <= i < |st.draws| => FormatDraw(st.draws[i]));
    forall i | 0 <= i < |xs| ensures Avoids(xs[i], ';') {
      FormatDrawAvoids(st.draws[i]);
    }
    JoinAvoids(xs, ", ", ';');
  }

  /** Every amount of the set fits in a `usize`. */
  predicate UsizeSet(st: CubeSet) {
    forall i :: 0 <= i < |st.draws| ==> st.draws[i].amount < USIZE_LIMIT
  }

  /** A draw written out is read back unchanged. */
  lemma ParseFormattedDraw(d: Draw)
    requires d.amount < USIZE_LIMIT
    ensures ParseDraw(FormatDraw(d)) == Ok(d)
  {
    var digits := NatToString(d.amount);
    DigitsAvoid(digits, ' ');
    SplitOnceJoined(digits, " ", ColorName(d.color));
    ParseFormatted(d.amount);
  }

  /** A set with at least one draw, written out, is read back unchanged. An empty set is
      written as "", which does not parse. */
  lemma ParseFormattedSet(st: CubeSet)
    requires |st.draws| > 0 && UsizeSet(st)
    ensures ParseSet(FormatSet(st)) == Ok(st)
  {
    var xs := seq(|st.draws|, i requires 0 <= i < |st.draws| => FormatDraw(st.draws[i]));
    forall i | 0 <= i < |xs| ensures Avoids(xs[i], ',') && ParseDraw(xs[i]) == Ok(st.draws[i]) {
      FormatDrawAvoids(st.draws[i]);
      ParseFormattedDraw(st.draws[i]);
    }
    SplitJoin(xs, ", ");
    CollectOk(xs, ParseDraw, st.draws);
  }

  /** A game with at least one set and no empty set, written after a title without ':', is
      read back as the game of those sets. */
  lemma ParseFormattedGame(title: string, sets: seq<CubeSet>)
    requires Avoids(title, ':')
    requires |sets| > 0 && forall i :: 0 <= i < |sets| ==> |sets[i].draws| > 0 && UsizeSet(sets[i])
    ensures ParseGame(FormatGame(title, sets)) == Ok(NewGame(sets))
  {
    var xs := seq(|sets|, i requires 0 <= i < |sets| => FormatSet(sets[i]));
    forall i | 0 <= i < |xs| ensures Avoids(xs[i], ';') && ParseSet(xs[i]) == Ok(sets[i]) {
      FormatSetAvoids(sets[i]);
      ParseFormattedSet(sets[i]);
    }
    var body := Join(xs, "; ");
    SplitOnceJoined(title, ": ", body);
    SplitJoin(xs, "; ");
    CollectOk(xs, ParseSet, sets);
  }

  // ---------------------------------------------------------------- errors

  /** A colour other than blue, red or green is an input error, whatever the amount. */
  lemma UnknownColor(amount: string, name: string)
    requires Avoids(amount, ' ') && ParseColor(name).None?
    ensures ParseDraw(amount + " " + name) == Err(InvalidInputError)
  {
    SplitOnceJoined(amount, " ", name);
  }

  /** A known colour after an amount that is not a number gives the number's parse error. */
  lemma BadAmount(amount: string, c: CubeColor)
    requires Avoids(amount, ' ') && ParseUsize(amount).Err?
    ensures ParseDraw(amount + " " + ColorName(c)) == Err(ParseIntError(ParseUsize(amount).error))
  {
    SplitOnceJoined(amount, " ", ColorName(c));
  }

  /** A game whose text after ": " holds a set that does not parse fails. */
  lemma BadSetFails(title: string, body: string, i: nat)
    requires Avoids(title, ':')
    requires i < |Split(body, "; ")| && ParseSet(Split(body, "; ")[i]).Err?
    ensures ParseGame(title + ": " + body).Err?
  {
    SplitOnceJoined(title, ": ", body);
  }

  // ---------------------------------------------------------------- examples

  lemma ExampleDraw()
    ensures ParseDraw("3 blue") == Ok(Draw(Blue, 3))
  {
    assert FormatDraw(Draw(Blue, 3)) == "3 blue";
    ParseFormattedDraw(Draw(Blue, 3));
  }

  lemma ExampleSet(s: string)
    requires s == "3 blue, 4 red"
    ensures ParseSet(s) == Ok(CubeSet([Draw(Blue, 3), Draw(Red, 4)]))
  {
    var st := CubeSet([Draw(Blue, 3), Draw(Red, 4)]);
    var xs := seq(|st.draws|, i requires 0 <= i < |st.draws| => FormatDraw(st.draws[i]));
    assert xs[0] == "3 blue" && xs[1] == "4 red";
    assert Join(xs, ", ") == xs[0] + ", " + xs[1] by {
      assert Join(xs[1..], ", ") == xs[1];
    }
    assert FormatSet(st) == s;
    ParseFormattedSet(st);
  }

  lemma FormatSetTwo(d0: Draw, d1: Draw)
    ensures FormatSet(CubeSet([d0, d1])) == FormatDraw(d0) + ", " + FormatDraw(d1)
  {
    var st := CubeSet([d0, d1]);
    var xs := seq(|st.draws|, i requires 0 <= i < |st.draws| => FormatDraw(st.draws[i]));
    JoinTwo(xs, ", ");
    assert xs[0] == FormatDraw(d0) && xs[1] == FormatDraw(d1);
  }

  lemma FormatSetThree(d0: Draw, d1: Draw, d2: Draw)
    ensures FormatSet(CubeSet([d0, d1, d2])) == FormatDraw(d0) + ", " + FormatDraw(d1) + ", " + FormatDraw(d2)
  {
    var st := CubeSet([d0, d1, d2]);
    var xs := seq(|st.draws|, i requires 0 <= i < |st.draws| => FormatDraw(st.draws[i]));
    JoinThree(xs, ", ");
    assert xs[0] == FormatDraw(d0) && xs[1] == FormatDraw(d1) && xs[2] == FormatDraw(d2);
  }

  lemma FormatSetsThree(s0: CubeSet, s1: CubeSet, s2: CubeSet)
    ensures FormatSets([s0, s1, s2]) == FormatSet(s0) + "; " + FormatSet(s1) + "; " + FormatSet(s2)
  {
    var sets := [s0, s1, s2];
    var xs := seq(|sets|, i requires 0 <= i < |sets| => FormatSet(sets[i]));
    JoinThree(xs, "; ");
    assert xs[0] == FormatSet(s0) && xs[1] == FormatSet(s1) && xs[2] == FormatSet(s2);
  }


  /** A value attained by a draw and bounding every draw of its colour is the maximum. */
  lemma MaxInSetsIs(sets: seq<CubeSet>, c: CubeColor, m: nat, s: nat, d: nat)
    requires s < |sets| && d < |sets[s].draws| && sets[s].draws[d] == Draw(c, m)
    requires AtMost(sets, c, m)
    ensures MaxInSets(sets, c) == m
  {
    ColorMaxUnique(sets, c, MaxInSets(sets, c), m);
  }

  /** The first game of the tests, "Game 1: 3 blue, 4 red; 1 red, 2 green, 6 blue; 2 green"
      (the line `FormatGame("Game 1", sets)` writes for these sets): maxima red 4, blue 6,
      green 2. */
  lemma ExampleGame1(sets: seq<CubeSet>)
    requires |sets| == 3
    requires sets[0] == CubeSet([Draw(Blue, 3), Draw(Red, 4)])
    requires sets[1] == CubeSet([Draw(Red, 1), Draw(Green, 2), Draw(Blue, 6)])
    requires sets[2] == CubeSet([Draw(Green, 2)])
    ensures NewGame(sets).maxRed == 4 && NewGame(sets).maxBlue == 6 && NewGame(sets).maxGreen == 2
  {
    assert AtMost(sets, Red, 4) && AtMost(sets, Blue, 6) && AtMost(sets, Green, 2);
    MaxInSetsIs(sets, Red, 4, 0, 1);
    MaxInSetsIs(sets, Blue, 6, 1, 2);
    MaxInSetsIs(sets, Green, 2, 1, 1);
  }

  /** "Game 76: 8 green, 6 blue, 5 red; 1 red, 2 blue, 9 green; 7 red, 9 green; 5 green,
      1 blue, 11 red": maxima red 11, blue 6, green 9. */
  lemma ExampleGame76(sets: seq<CubeSet>)
    requires |sets| == 4
    requires sets[0] == CubeSet([Draw(Green, 8), Draw(Blue, 6), Draw(Red, 5)])
    requires sets[1] == CubeSet([Draw(Red, 1), Draw(Blue, 2), Draw(Green, 9)])
    requires sets[2] == CubeSet([Draw(Red, 7), Draw(Green, 9)])
    requires sets[3] == CubeSet([Draw(Green, 5), Draw(Blue, 1), Draw(Red, 11)])
    ensures NewGame(sets).maxRed == 11 && NewGame(sets).maxBlue == 6 && NewGame(sets).maxGreen == 9
  {
    assert AtMost(sets, Red, 11) && AtMost(sets, Blue, 6) && AtMost(sets, Green, 9);
    MaxInSetsIs(sets, Red, 11, 3, 2);
    MaxInSetsIs(sets, Blue, 6, 0, 1);
    MaxInSetsIs(sets, Green, 9, 1, 2);
  }

  /** "Game 1: 10 green, 5 blue; 1 red, 9 green, 10 blue; 5 blue, 6 green, 2 red; 7 green,
      9 blue, 1 red; 2 red, 10 blue, 10 green; 7 blue, 1 red": maxima red 2, blue 10,
      green 10. */
  lemma ExampleSixSets(sets: seq<CubeSet>)
    requires |sets| == 6
    requires sets[0] == CubeSet([Draw(Green, 10), Draw(Blue, 5)])
    requires sets[1] == CubeSet([Draw(Red, 1), Draw(Green, 9), Draw(Blue, 10)])
    requires sets[2] == CubeSet([Draw(Blue, 5), Draw(Green, 6), Draw(Red, 2)])
    requires sets[3] == CubeSet([Draw(Green, 7), Draw(Blue, 9), Draw(Red, 1)])
    requires sets[4] == CubeSet([Draw(Red, 2), Draw(Blue, 10), Draw(Green, 10)])
    requires sets[5] == CubeSet([Draw(Blue, 7), Draw(Red, 1)])
    ensures NewGame(sets).maxRed == 2 && NewGame(sets).maxBlue == 10 && NewGame(sets).maxGreen == 10
  {
    assert AtMost(sets, Red, 2) && AtMost(sets, Blue, 10) && AtMost(sets, Green, 10);
    MaxInSetsIs(sets, Red, 2, 2, 2);
    MaxInSetsIs(sets, Blue, 10, 1, 2);
    MaxInSetsIs(sets, Green, 10, 0, 0);
  }
}
