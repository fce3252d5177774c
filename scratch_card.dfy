/**
 * src/scratch_card.rs: a scratch card "Card 1: 41 48 83 86 17 | 83 86  6 31 17  9 48 53",
 * its number of matches and its point value.
 */
module ScratchCards {
  import opened Results
  import opened Strings
  import opened Utils

  datatype ScratchCard = ScratchCard(winningNumbers: seq<nat>, numbers: seq<nat>)

  datatype ScratchCardFromStrError = InvalidInputError | ParseIntError(cause: Strings.ParseIntError)

  // ---------------------------------------------------------------- matches

  /** How many entries of `numbers`, counted with repetition, occur in `winning`. */
  function MatchCount(numbers: seq<nat>, winning: seq<nat>): (n: nat)
    ensures n <= |numbers|
  {
    if numbers == [] then 0
    else (if numbers[0] in winning then 1 else 0) + MatchCount(numbers[1..], winning)
  }

  /** No match exactly when no number is winning; all match exactly when every one is. */
  lemma {:induction false} MatchCountExtremes(numbers: seq<nat>, winning: seq<nat>)
    ensures MatchCount(numbers, winning) == 0 <==> forall k :: 0 <= k < |numbers| ==> numbers[k] !in winning
    ensures MatchCount(numbers, winning) == |numbers| <==> forall k :: 0 <= k < |numbers| ==> numbers[k] in winning
    decreases |numbers|
  {
    if numbers != [] {
      var rest := numbers[1..];
      MatchCountExtremes(rest, winning);
      assert forall k :: 1 <= k < |numbers| ==> numbers[k] == rest[k - 1];
    }
  }

  /** Matches add up over the two parts of a list of numbers. */
  lemma {:induction false} MatchCountAppend(a: seq<nat>, b: seq<nat>, winning: seq<nat>)
    ensures MatchCount(a + b, winning) == MatchCount(a, winning) + MatchCount(b, winning)
    decreases |a|
  {
    if a == [] {
      assert a + b == b;
    } else {
      MatchCountAppend(a[1..], b, winning);
      assert (a + b)[1..] == a[1..] + b;
    }
  }

  /** Only which numbers are winning matters, not their order or repetition. */
  lemma {:induction false} MatchCountSameWinning(numbers: seq<nat>, w1: seq<nat>, w2: seq<nat>)
    requires forall x :: x in w1 <==> x in w2
    ensures MatchCount(numbers, w1) == MatchCount(numbers, w2)
    decreases |numbers|
  {
    if numbers != [] {
      MatchCountSameWinning(numbers[1..], w1, w2);
    }
  }

  /** Counting one more number. */
  lemma MatchCountStep(numbers: seq<nat>, winning: seq<nat>, k: nat)
    requires k < |numbers|
    ensures MatchCount(numbers[..k + 1], winning) == MatchCount(numbers[..k], winning) + (if numbers[k] in winning then 1 else 0)
  {
    assert numbers[..k + 1] == numbers[..k] + [numbers[k]];
    MatchCountAppend(numbers[..k], [numbers[k]], winning);
  }

  /** `ScratchCard::wins`: one pass over the numbers, counting the winning ones. */
  method Wins(card: ScratchCard) returns (value: nat)
    ensures value == MatchCount(card.numbers, card.winningNumbers)
  {
    value := 0;
    var i := 0;
    while i < |card.numbers|
      invariant 0 <= i <= |card.numbers|
      invariant value == MatchCount(card.numbers[..i], card.winningNumbers)
    {
      MatchCountStep(card.numbers, card.winningNumbers, i);
      if card.numbers[i] in card.winningNumbers {
        value := value + 1;
      }
      i := i + 1;
    }
    assert card.numbers[..i] == card.numbers;
  }

  // ---------------------------------------------------------------- points

  function Pow2(k: nat): (p: nat)
    ensures p >= 1
  {
    if k == 0 then 1 else 2 * Pow2(k - 1)
  }

  /** The points after `wins` matches, by the rule of `value`: the first match is worth 1,
      every further one doubles the points. */
  function Score(wins: nat): nat {
    if wins == 0 then 0
    else
      var before := Score(wins - 1);
      if before == 0 then 1 else 2 * before
  }

  /** Closed form: no points without a match, 2^(wins-1) points otherwise. */
  lemma {:induction false} ScoreIsPower(wins: nat)
    ensures wins == 0 ==> Score(wins) == 0
    ensures wins > 0 ==> Score(wins) == Pow2(wins - 1)
    decreases wins
  {
    if wins > 1 {
      ScoreIsPower(wins - 1);
    }
  }

  /** `ScratchCard::value`: doubles the points at every winning number after the first. */
  method Value(card: ScratchCard) returns (value: nat)
    ensures value == Score(MatchCount(card.numbers, card.winningNumbers))
  {
    value := 0;
    var i := 0;
    while i < |card.numbers|
      invariant 0 <= i <= |card.numbers|
      invariant value == Score(MatchCount(card.numbers[..i], card.winningNumbers))
    {
      MatchCountStep(card.numbers, card.winningNumbers, i);
      if card.numbers[i] in card.winningNumbers {
        if value == 0 {
          value := 1;
        } else {
          value := value * 2;
        }
      }
      i := i + 1;
    }
    assert card.numbers[..i] == card.numbers;
  }

  // ---------------------------------------------------------------- parsing

  /** `ScratchCard::from_str`: the text before the first ": " is ignored; the rest is split
      at the first " | " into the winning numbers and the numbers, each read with
      `split_whitespace_and_parse`. */
  function ParseCard(s: string): (r: Result<ScratchCard, ScratchCardFromStrError>)
    ensures !Contains(s, ": ") ==> r == Err(InvalidInputError)
    ensures Contains(s, ": ") && !Contains(SplitOnce(s, ": ").value.1, " | ") ==> r == Err(InvalidInputError)
    ensures r.Ok? ==> var halves := SplitOnce(SplitOnce(s, ": ").value.1, " | ").value;
                      && SplitWhitespaceAndParse(halves.0) == Ok(r.value.winningNumbers)
                      && SplitWhitespaceAndParse(halves.1) == Ok(r.value.numbers)
  {
    match SplitOnce(s, ": ")
    case None => Err(InvalidInputError)
    case Some((_, rest)) =>
      match SplitOnce(rest, " | ")
      case None => Err(InvalidInputError)
      case Some((winningText, numbersText)) =>
        var winning :- SplitWhitespaceAndParse(winningText).MapError(e => ParseIntError(e));
        var numbers :- SplitWhitespaceAndParse(numbersText).MapError(e => ParseIntError(e));
        Ok(ScratchCard(winning, numbers))
  }

  /** The card line with the given title and the two lists of numbers as written. */
  function CardLine(title: string, winningText: string, numbersText: string): string {
    title + ": " + winningText + " | " + numbersText
  }

  lemma CardLineSplits(title: string, winningText: string, numbersText: string)
    requires Avoids(title, ':') && Avoids(winningText, '|')
    ensures SplitOnce(CardLine(title, winningText, numbersText), ": ") == Some((title, winningText + " | " + numbersText))
    ensures SplitOnce(winningText + " | " + numbersText, " | ") == Some((winningText, numbersText))
  {
    assert CardLine(title, winningText, numbersText) == title + ": " + (winningText + " | " + numbersText);
    SplitOnceJoined(title, ": ", winningText + " | " + numbersText);
    SplitOnceJoinedAt(winningText, " | ", numbersText, 1);
  }

  /** How the numbers are spaced does not matter: texts with the same tokens give the same
      card, so runs of spaces such as "83 86  6" are accepted. */
  lemma SpacingIgnored(title: string, a: string, b: string, a2: string, b2: string)
    requires Avoids(title, ':') && Avoids(a, '|') && Avoids(a2, '|')
    requires SplitWhitespace(a) == SplitWhitespace(a2) && SplitWhitespace(b) == SplitWhitespace(b2)
    ensures ParseCard(CardLine(title, a, b)) == ParseCard(CardLine(title, a2, b2))
  {
    CardLineSplits(title, a, b);
    CardLineSplits(title, a2, b2);
  }

  /** A token that is not a number, on either side of " | ", makes the card a parse error. */
  lemma BadNumberFails(title: string, a: string, b: string, i: nat)
    requires Avoids(title, ':') && Avoids(a, '|')
    requires (i < |SplitWhitespace(a)| && ParseUsize(SplitWhitespace(a)[i]).Err?)
             || (i < |SplitWhitespace(b)| && ParseUsize(SplitWhitespace(b)[i]).Err?)
    ensures ParseCard(CardLine(title, a, b)).Err?
    ensures ParseCard(CardLine(title, a, b)).error.ParseIntError?
  {
    CardLineSplits(title, a, b);
  }

  /** A card written out with single spaces is read back unchanged. */
  lemma ParseFormattedCard(title: string, card: ScratchCard)
    requires Avoids(title, ':') && AllUsize(card.winningNumbers) && AllUsize(card.numbers)
    ensures ParseCard(CardLine(title, FormatNumbers(card.winningNumbers), FormatNumbers(card.numbers))) == Ok(card)
  {
    var w := card.winningNumbers;
    var ts := seq(|w|, i requires 0 <= i < |w| => NatToString(w[i]));
    forall i | 0 <= i < |ts| ensures Avoids(ts[i], '|') {
      assert AllDigits(ts[i]);
    }
    JoinAvoids(ts, " ", '|');
    CardLineSplits(title, FormatNumbers(w), FormatNumbers(card.numbers));
    ReadFormattedNumbers(w);
    ReadFormattedNumbers(card.numbers);
  }

  // ---------------------------------------------------------------- examples

  /** Card 1 of the tests has four matches and is worth 8 points. */
  lemma ExampleCard1(numbers: seq<nat>, winning: seq<nat>)
    requires numbers == [83, 86, 6, 31, 17, 9, 48, 53] && winning == [41, 48, 83, 86, 17]
    ensures MatchCount(numbers, winning) == 4
    ensures Score(4) == 8
  {
    assert numbers == numbers[..4] + numbers[4..];
    ExampleHalves(numbers[..4], numbers[4..], winning, 2, 2);
  }

  /** Card 2 of the tests has two matches and is worth 2 points. */
  lemma ExampleCard2(numbers: seq<nat>, winning: seq<nat>)
    requires numbers == [61, 30, 68, 82, 17, 32, 24, 19] && winning == [13, 32, 20, 16, 61]
    ensures MatchCount(numbers, winning) == 2
    ensures Score(2) == 2
  {
    assert numbers == numbers[..4] + numbers[4..];
    ExampleHalves(numbers[..4], numbers[4..], winning, 1, 1);
  }

  /** Card 3 of the tests has two matches and is worth 2 points. */
  lemma ExampleCard3(numbers: seq<nat>, winning: seq<nat>)
    requires numbers == [69, 82, 63, 72, 16, 21, 14, 1] && winning == [1, 21, 53, 59, 44]
    ensures MatchCount(numbers, winning) == 2
    ensures Score(2) == 2
  {
    assert numbers == numbers[..4] + numbers[4..];
    ExampleHalves(numbers[..4], numbers[4..], winning, 0, 2);
  }

  /** Card 5 of the tests has no match and is worth nothing. */
  lemma ExampleCard5(numbers: seq<nat>, winning: seq<nat>)
    requires numbers == [88, 30, 70, 12, 93, 22, 82, 36] && winning == [87, 83, 26, 28, 32]
    ensures MatchCount(numbers, winning) == 0
    ensures Score(0) == 0
  {
    assert numbers == numbers[..4] + numbers[4..];
    ExampleHalves(numbers[..4], numbers[4..], winning, 0, 0);
  }

  /** The matches of a card of eight numbers, counted half by half. */
  lemma ExampleHalves(a: seq<nat>, b: seq<nat>, w: seq<nat>, m: nat, n: nat)
    requires |a| == 4 && |b| == 4
    requires m == (if a[0] in w then 1 else 0) + (if a[1] in w then 1 else 0) + (if a[2] in w then 1 else 0) + (if a[3] in w then 1 else 0)
    requires n == (if b[0] in w then 1 else 0) + (if b[1] in w then 1 else 0) + (if b[2] in w then 1 else 0) + (if b[3] in w then 1 else 0)
    ensures MatchCount(a + b, w) == m + n
  {
    FourCount(a, w);
    FourCount(b, w);
    MatchCountAppend(a, b, w);
  }

  /** The matches among four numbers. */
  lemma FourCount(a: seq<nat>, w: seq<nat>)
    requires |a| == 4
    ensures MatchCount(a, w) == (if a[0] in w then 1 else 0) + (if a[1] in w then 1 else 0) + (if a[2] in w then 1 else 0) + (if a[3] in w then 1 else 0)
  {
    var a1 := a[1..];
    var a2 := a1[1..];
    var a3 := a2[1..];
    assert a3[1..] == [];
    assert a1[0] == a[1] && a2[0] == a[2] && a3[0] == a[3];
    assert MatchCount(a3, w) == if a[3] in w then 1 else 0;
    assert MatchCount(a2, w) == (if a[2] in w then 1 else 0) + MatchCount(a3, w);
    assert MatchCount(a1, w) == (if a[1] in w then 1 else 0) + MatchCount(a2, w);
  }
}
