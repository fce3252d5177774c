/** src/utils.rs: the whitespace-number tokenizer shared by the puzzles. */
module Utils {
  import opened Results
  import opened Strings

  /** `split_whitespace_and_parse_to_usize`: each whitespace-separated token parsed as a
      `usize`; the first token that is not a number makes the whole result that error. */
  function SplitWhitespaceAndParse(s: string): (r: Result<seq<nat>, ParseIntError>)
    ensures r.Ok? ==> |r.value| == |SplitWhitespace(s)|
    ensures r.Ok? ==> forall i :: 0 <= i < |r.value| ==> ParseUsize(SplitWhitespace(s)[i]) == Ok(r.value[i])
    ensures r.Err? ==> exists i :: 0 <= i < |SplitWhitespace(s)| && ParseUsize(SplitWhitespace(s)[i]).Err?
    ensures (exists i :: 0 <= i < |SplitWhitespace(s)| && ParseUsize(SplitWhitespace(s)[i]).Err?) ==> r.Err?
  {
    Collect(SplitWhitespace(s), ParseUsize)
  }

  /** A text without any token, such as the empty string, reads as no numbers. */
  lemma BlankIsEmpty(s: string)
    requires AllWhitespace(s)
    ensures SplitWhitespaceAndParse(s) == Ok([])
  {
    NoTokensIffBlank(s);
  }

  /** A token that is not a number makes the whole call fail. */
  lemma BadTokenFails(s: string, i: nat)
    requires i < |SplitWhitespace(s)| && ParseUsize(SplitWhitespace(s)[i]).Err?
    ensures SplitWhitespaceAndParse(s).Err?
  {
  }

  /** Decimal notation of each number, with single spaces between. */
  function FormatNumbers(ns: seq<nat>): (s: string)
  {
    Join(seq(|ns|, i requires 0 <= i < |ns| => NatToString(ns[i])), " ")
  }

  /** A text that is one token reads as that token's number, or fails as the token does. */
  lemma SingleToken(t: string)
    requires t != [] && NoWhitespace(t)
    ensures SplitWhitespaceAndParse(t).Ok? <==> ParseUsize(t).Ok?
    ensures ParseUsize(t).Ok? ==> SplitWhitespaceAndParse(t).value == [ParseUsize(t).value]
  {
    SplitWhitespaceJoin([t]);
    assert Join([t], " ") == t;
    assert SplitWhitespace(t) == [t];
  }

  /** Every number fits in a `usize`. */
  predicate AllUsize(ns: seq<nat>) {
    forall i :: 0 <= i < |ns| ==> ns[i] < USIZE_LIMIT
  }

  /** Numbers that fit in a `usize`, written in decimal with spaces between them, are read back
      unchanged. */
  lemma ReadFormattedNumbers(ns: seq<nat>)
    requires AllUsize(ns)
    ensures SplitWhitespaceAndParse(FormatNumbers(ns)) == Ok(ns)
  {
    var ts := seq(|ns|, i requires 0 <= i < |ns| => NatToString(ns[i]));
    forall i | 0 <= i < |ts| ensures ts[i] != [] && NoWhitespace(ts[i]) && ParseUsize(ts[i]) == Ok(ns[i]) {
      DigitsAreNotWhitespace(ts[i]);
      ParseFormatted(ns[i]);
    }
    SplitWhitespaceJoin(ts);
    var r := SplitWhitespaceAndParse(FormatNumbers(ns));
    assert r.Ok?;
    assert r.value == ns;
  }

  /** `Iterator::sum` over naturals. */
  function Sum(xs: seq<nat>): nat {
    if xs == [] then 0 else Sum(xs[..|xs| - 1]) + xs[|xs| - 1]
  }

  /** A relation that holds between the heads and pointwise between the tails holds pointwise
      between the sequences. */
  lemma PointwiseCons<A, B>(xs: seq<A>, ys: seq<B>, P: (A, B) -> bool)
    requires xs != [] && |xs| == |ys| && P(xs[0], ys[0])
    requires forall i :: 0 <= i < |xs| - 1 ==> P(xs[1..][i], ys[1..][i])
    ensures forall i :: 0 <= i < |xs| ==> P(xs[i], ys[i])
  {
    forall i | 1 <= i < |xs| ensures P(xs[i], ys[i]) {
      assert xs[i] == xs[1..][i - 1] && ys[i] == ys[1..][i - 1];
    }
  }

  /** A non-empty sequence is its head before its tail. */
  lemma HeadTail<T>(s: seq<T>)
    requires s != []
    ensures [s[0]] + s[1..] == s
  {
  }

  /** Appending an element adds it to the sum. */
  lemma SumSnoc(xs: seq<nat>, x: nat)
    ensures Sum(xs + [x]) == Sum(xs) + x
  {
    assert (xs + [x])[..|xs|] == xs;
  }

  /** One more element of a prefix adds that element to the sum. */
  lemma SumPrefix(xs: seq<nat>, i: nat)
    requires i < |xs|
    ensures Sum(xs[..i + 1]) == Sum(xs[..i]) + xs[i]
  {
    assert xs[..i + 1][..i] == xs[..i];
  }
}
