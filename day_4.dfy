/**
 * tests/day_4.rs: score every card (part 1) and play out the copies that winning cards
 * hand to the cards after them (part 2), over an array of card counts.
 */
module Day4 {
  import opened Results
  import opened Utils
  import opened ScratchCards

  /** Every non-empty line is a card; the puzzle code stops with "Should parse input"
      otherwise. */
  predicate CardLines(lines: seq<string>) {
    forall i :: 0 <= i < |lines| ==> lines[i] != "" ==> ParseCard(lines[i]).Ok?
  }

  /** The matches of the card on a line; an empty line is skipped and wins nothing. */
  function CardWins(line: string): nat
    requires line != "" ==> ParseCard(line).Ok?
  {
    if line == "" then 0
    else var card := ParseCard(line).value; MatchCount(card.numbers, card.winningNumbers)
  }

  function LineWins(lines: seq<string>): (ws: seq<nat>)
    requires CardLines(lines)
    ensures |ws| == |lines| && forall i :: 0 <= i < |lines| ==> ws[i] == CardWins(lines[i])
  {
    seq(|lines|, i requires 0 <= i < |lines| => CardWins(lines[i]))
  }

  /** Every card's copies land on cards that exist: `count_cards[i + j]` would panic
      otherwise. */
  predicate InRange(ws: seq<nat>) {
    forall i :: 0 <= i < |ws| ==> i + ws[i] < |ws|
  }

  // ---------------------------------------------------------------- the cascade

  /** `counts` with `times` added at every position in [from, to). */
  function AddCopies(counts: seq<nat>, from: nat, to: nat, times: nat): (r: seq<nat>)
    ensures |r| == |counts|
  {
    seq(|counts|, k requires 0 <= k < |counts| => if from <= k < to then counts[k] + times else counts[k])
  }

  /** The card counts after the first `k` cards are processed: every count starts at 1, and
      card `i` adds its own count to each of the `ws[i]` cards after it. */
  function Cascade(ws: seq<nat>, k: nat): (counts: seq<nat>)
    requires k <= |ws|
    ensures |counts| == |ws|
  {
    if k == 0 then seq(|ws|, _ => 1)
    else
      var before := Cascade(ws, k - 1);
      AddCopies(before, k, k + ws[k - 1], before[k - 1])
  }

  /** Processing a card changes only the counts after it. */
  lemma {:induction false} CascadeSettled(ws: seq<nat>, k: nat, m: nat)
    requires m <= k <= |ws| && m < |ws|
    ensures Cascade(ws, k)[m] == Cascade(ws, m)[m]
    decreases k
  {
    if k > m {
      CascadeSettled(ws, k - 1, m);
    }
  }

  /** Counts never decrease, so every card is held at least once. */
  lemma {:induction false} CascadeGrows(ws: seq<nat>, k: nat, m: nat)
    requires k < |ws| && m < |ws|
    ensures 1 <= Cascade(ws, k)[m] <= Cascade(ws, k + 1)[m]
    decreases k
  {
    if k > 0 {
      CascadeGrows(ws, k - 1, m);
    }
  }

  /** The count of card `m` once all cards are processed. */
  function Final(ws: seq<nat>, m: nat): nat
    requires m < |ws|
  {
    Cascade(ws, |ws|)[m]
  }

  /** The copies card `m` receives from the first `k` cards: card `i` hands one copy per
      instance it ends up with when `m` is among the `ws[i]` cards after it. */
  function Received(ws: seq<nat>, k: nat, m: nat): nat
    requires k <= |ws| && m < |ws|
  {
    if k == 0 then 0
    else
      var i := k - 1;
      Received(ws, i, m) + (if i < m <= i + ws[i] then Final(ws, i) else 0)
  }

  lemma {:induction false} CascadeReceived(ws: seq<nat>, k: nat, m: nat)
    requires k <= |ws| && m < |ws|
    ensures Cascade(ws, k)[m] == 1 + Received(ws, k, m)
    decreases k
  {
    if k > 0 {
      CascadeReceived(ws, k - 1, m);
      CascadeSettled(ws, |ws|, k - 1);
    }
  }

  /** Each card ends up as its original plus one copy per final instance of every earlier
      card that wins it. */
  lemma FinalCount(ws: seq<nat>, m: nat)
    requires m < |ws|
    ensures Final(ws, m) == 1 + Received(ws, |ws|, m)
  {
    CascadeReceived(ws, |ws|, m);
  }

  /** A card received copies only from cards before it. */
  lemma {:induction false} ReceivedFromEarlier(ws: seq<nat>, k: nat, m: nat)
    requires m <= k <= |ws| && m < |ws|
    ensures Received(ws, k, m) == Received(ws, m, m)
    decreases k
  {
    if k > m {
      ReceivedFromEarlier(ws, k - 1, m);
    }
  }

  /** With no wins anywhere every card stays single. */
  lemma {:induction false} NoWinsNoCopies(ws: seq<nat>, k: nat)
    requires k <= |ws| && forall i :: 0 <= i < |ws| ==> ws[i] == 0
    ensures Cascade(ws, k) == seq(|ws|, _ => 1)
    decreases k
  {
    if k > 0 {
      NoWinsNoCopies(ws, k - 1);
    }
  }

  // ---------------------------------------------------------------- the test's loop

  function Scores(ws: seq<nat>): (ps: seq<nat>)
    ensures |ps| == |ws| && forall i :: 0 <= i < |ws| ==> ps[i] == Score(ws[i])
  {
    seq(|ws|, i requires 0 <= i < |ws| => Score(ws[i]))
  }

  /** The test over `count_cards`: `total` is the sum of the card values (part 1) and `cards`
      the sum of the final counts (part 2). */
  method PlayCards(lines: seq<string>) returns (total: nat, cards: nat)
    requires CardLines(lines) && InRange(LineWins(lines))
    ensures total == Sum(Scores(LineWins(lines)))
    ensures cards == Sum(Cascade(LineWins(lines), |lines|))
  {
    ghost var ws := LineWins(lines);
    var countCards := new nat[|lines|](_ => 1);
    assert countCards[..] == Cascade(ws, 0);
    total := PlayAll(lines, ws, countCards);
    var counts := countCards[..];
    cards := Sum(counts);
  }

  /** The loop over the lines, one turn per card, adding up the card values. */
  method PlayAll(lines: seq<string>, ghost ws: seq<nat>, countCards: array<nat>) returns (total: nat)
    requires CardLines(lines) && ws == LineWins(lines) && InRange(ws)
    requires |lines| == countCards.Length && countCards[..] == Cascade(ws, 0)
    modifies countCards
    ensures countCards[..] == Cascade(ws, |lines|)
    ensures total == Sum(Scores(ws))
  {
    total := 0;
    var i := 0;
    while i < |lines|
      invariant 0 <= i <= |lines|
      invariant countCards[..] == Cascade(ws, i)
      invariant total == Sum(Scores(ws)[..i])
    {
      var value := PlayCard(lines, ws, countCards, i);
      SumPrefix(Scores(ws), i);
      total := total + value;
      i := i + 1;
    }
    assert Scores(ws)[..i] == Scores(ws);
  }

  /** One turn of the loop: skip an empty line, otherwise read the card, hand out its copies
      and give its value. */
  method PlayCard(lines: seq<string>, ghost ws: seq<nat>, countCards: array<nat>, i: nat) returns (value: nat)
    requires CardLines(lines) && ws == LineWins(lines) && InRange(ws)
    requires i < |lines| == countCards.Length && countCards[..] == Cascade(ws, i)
    modifies countCards
    ensures countCards[..] == Cascade(ws, i + 1)
    ensures value == Score(ws[i])
  {
    if lines[i] == "" {
      assert ws[i] == 0;
      assert Cascade(ws, i + 1) == Cascade(ws, i);
      value := 0;
    } else {
      var times := countCards[i];
      var card := ParseCard(lines[i]).value;
      var wins := Wins(card);
      assert wins == ws[i];
      AddCopiesRun(countCards, i, wins, times);
      value := Value(card);
    }
  }

  /** `for j in 1..wins + 1 { count_cards[i + j] += times; }` */
  method AddCopiesRun(countCards: array<nat>, i: nat, wins: nat, times: nat)
    requires i + wins < countCards.Length
    modifies countCards
    ensures countCards[..] == AddCopies(old(countCards[..]), i + 1, i + 1 + wins, times)
  {
    ghost var before := countCards[..];
    for j := 1 to wins + 1
      invariant countCards[..] == AddCopies(before, i + 1, i + j, times)
    {
      countCards[i + j] := countCards[i + j] + times;
    }
  }
}
