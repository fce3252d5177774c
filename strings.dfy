/**
 * The parts of Rust's `str`, `char` and `usize` library that the puzzle code relies on:
 * `char::is_digit(10)`, `char::is_whitespace`, `str::find`, `str::split_once`, `str::split`,
 * `str::split_whitespace` and `<usize as FromStr>::from_str`, all over `seq<char>`.
 */
module Strings {
  import opened Results

  // ---------------------------------------------------------------- characters

  /** `char::is_digit(10)`: only the ASCII digits. */
  predicate IsDigit(c: char) {
    '0' <= c <= '9'
  }

  function DigitValue(c: char): (d: nat)
    requires IsDigit(c)
    ensures d <= 9
  {
    (c as int) - ('0' as int)
  }

  function DigitChar(d: nat): (c: char)
    requires d <= 9
    ensures IsDigit(c) && DigitValue(c) == d
  {
    (('0' as int) + d) as char
  }

  /** `char::is_whitespace`: the code points with the Unicode White_Space property. */
  predicate IsWhitespace(c: char) {
    || (0x09 <= c as int <= 0x0D)
    || c as int == 0x20
    || c as int == 0x85
    || c as int == 0xA0
    || c as int == 0x1680
    || (0x2000 <= c as int <= 0x200A)
    || c as int == 0x2028
    || c as int == 0x2029
    || c as int == 0x202F
    || c as int == 0x205F
    || c as int == 0x3000
  }

  predicate AllDigits(s: string) {
    forall i :: 0 <= i < |s| ==> IsDigit(s[i])
  }

  predicate NoWhitespace(s: string) {
    forall i :: 0 <= i < |s| ==> !IsWhitespace(s[i])
  }

  predicate AllWhitespace(s: string) {
    forall i :: 0 <= i < |s| ==> IsWhitespace(s[i])
  }

  // ---------------------------------------------------------------- substring search

  /** The pattern `pat` occurs in `s` starting at index `k`. */
  predicate OccursAt(s: string, pat: string, k: nat) {
    k + |pat| <= |s| && s[k..k + |pat|] == pat
  }

  predicate Contains(s: string, pat: string) {
    exists k: nat | k <= |s| :: OccursAt(s, pat, k)
  }

  /** The first occurrence of `pat` in `s` at or after `i`. */
  function FindFrom(s: string, pat: string, i: nat): (r: Option<nat>)
    requires i <= |s|
    ensures r.Some? ==> i <= r.value && OccursAt(s, pat, r.value)
    ensures r.Some? ==> forall j: nat :: i <= j < r.value ==> !OccursAt(s, pat, j)
    ensures r.None? ==> forall j: nat :: i <= j ==> !OccursAt(s, pat, j)
    decreases |s| - i
  {
    if OccursAt(s, pat, i) then Some(i)
    else if i == |s| then None
    else FindFrom(s, pat, i + 1)
  }

  /** `str::find` with a string pattern: the index of the leftmost occurrence. */
  function Find(s: string, pat: string): (r: Option<nat>)
    ensures r.Some? ==> OccursAt(s, pat, r.value) && forall j: nat :: j < r.value ==> !OccursAt(s, pat, j)
    ensures r.None? <==> !Contains(s, pat)
  {
    FindFrom(s, pat, 0)
  }

  /** No character of `s` is `c`. */
  predicate Avoids(s: string, c: char) {
    forall i :: 0 <= i < |s| ==> s[i] != c
  }

  /** When `x` avoids the character `pat[t]`, which does not occur earlier in `pat`, the
      leftmost occurrence of `pat` in `x + pat + y` is the one right after `x`. */
  lemma FindAfterPrefix(x: string, pat: string, y: string, t: nat)
    requires t < |pat| && Avoids(x, pat[t])
    requires forall k :: 0 <= k < t ==> pat[k] != pat[t]
    ensures Find(x + pat + y, pat) == Some(|x|)
  {
    var s := x + pat + y;
    assert s[|x|..|x| + |pat|] == pat;
    assert OccursAt(s, pat, |x|);
    forall j: nat | j < |x|
      ensures !OccursAt(s, pat, j)
    {
      if j + |pat| <= |s| {
        assert s[j..j + |pat|][t] == s[j + t];
        if j + t < |x| {
          assert s[j + t] == x[j + t];
        } else {
          assert s[j + t] == pat[j + t - |x|];
        }
      }
    }
  }

  // ---------------------------------------------------------------- split_once and split

  /** `str::split_once`: the text before and after the leftmost occurrence of `sep`. */
  function SplitOnce(s: string, sep: string): (r: Option<(string, string)>)
    ensures r.None? <==> !Contains(s, sep)
    ensures r.Some? ==> r.value.0 + sep + r.value.1 == s
    ensures r.Some? ==> forall j: nat :: j < |r.value.0| ==> !OccursAt(s, sep, j)
  {
    match Find(s, sep)
    case None => None
    case Some(k) =>
      assert s[..k] + sep + s[k + |sep|..] == s by {
        assert s[k..k + |sep|] == sep;
        assert s == s[..k] + s[k..k + |sep|] + s[k + |sep|..];
      }
      Some((s[..k], s[k + |sep|..]))
  }

  lemma SplitOnceJoined(x: string, sep: string, y: string)
    requires |sep| > 0 && Avoids(x, sep[0])
    ensures SplitOnce(x + sep + y, sep) == Some((x, y))
  {
    SplitOnceJoinedAt(x, sep, y, 0);
  }

  /** Splitting `x + sep + y` at `sep` gives back `x` and `y` when `x` avoids a character of
      `sep` that does not occur before it in `sep`. */
  lemma SplitOnceJoinedAt(x: string, sep: string, y: string, t: nat)
    requires t < |sep| && Avoids(x, sep[t])
    requires forall k :: 0 <= k < t ==> sep[k] != sep[t]
    ensures SplitOnce(x + sep + y, sep) == Some((x, y))
  {
    var s := x + sep + y;
    FindAfterPrefix(x, sep, y, t);
    assert s[..|x|] == x;
    assert s[|x| + |sep|..] == y;
  }

  /** `str::split` with a non-empty string pattern. The empty string gives one empty piece,
      and so does every pair of adjacent separators. */
  function Split(s: string, sep: string): (r: seq<string>)
    requires |sep| > 0
    ensures |r| >= 1
    decreases |s|
  {
    match SplitOnce(s, sep)
    case None => [s]
    case Some((before, after)) => [before] + Split(after, sep)
  }

  /** `xs` with `sep` between consecutive elements. */
  function Join(xs: seq<string>, sep: string): string
  {
    if |xs| == 0 then ""
    else if |xs| == 1 then xs[0]
    else xs[0] + sep + Join(xs[1..], sep)
  }

  /** Splitting and joining again gives back the text. */
  lemma {:induction false} JoinSplit(s: string, sep: string)
    requires |sep| > 0
    ensures Join(Split(s, sep), sep) == s
    decreases |s|
  {
    match SplitOnce(s, sep)
    case None =>
    case Some((before, after)) =>
      JoinSplit(after, sep);
      assert Split(s, sep) == [before] + Split(after, sep);
      assert Split(s, sep)[1..] == Split(after, sep);
  }

  /** Joining pieces that avoid the separator's first character and splitting again gives
      back the pieces. */
  lemma {:induction false} SplitJoin(xs: seq<string>, sep: string)
    requires |sep| > 0 && |xs| >= 1
    requires forall i :: 0 <= i < |xs| ==> Avoids(xs[i], sep[0])
    ensures Split(Join(xs, sep), sep) == xs
    decreases |xs|
  {
    if |xs| == 1 {
      SplitAvoiding(xs[0], sep);
    } else {
      var rest := Join(xs[1..], sep);
      assert Join(xs, sep) == xs[0] + sep + rest;
      SplitOnceJoined(xs[0], sep, rest);
      assert Split(Join(xs, sep), sep) == [xs[0]] + Split(rest, sep);
      SplitJoin(xs[1..], sep);
      assert [xs[0]] + xs[1..] == xs;
    }
  }

  /** Text that avoids the separator's first character splits into itself alone. */
  lemma SplitAvoiding(s: string, sep: string)
    requires |sep| > 0 && Avoids(s, sep[0])
    ensures Split(s, sep) == [s]
  {
    forall k: nat | k <= |s|
      ensures !OccursAt(s, sep, k)
    {
      if k + |sep| <= |s| {
        assert s[k..k + |sep|][0] != sep[0];
      }
    }
  }

  lemma JoinTwo(xs: seq<string>, sep: string)
    requires |xs| == 2
    ensures Join(xs, sep) == xs[0] + sep + xs[1]
  {
    assert Join(xs[1..], sep) == xs[1];
  }

  lemma JoinThree(xs: seq<string>, sep: string)
    requires |xs| == 3
    ensures Join(xs, sep) == xs[0] + sep + xs[1] + sep + xs[2]
  {
    JoinTwo(xs[1..], sep);
  }

  /** A character absent from the pieces and from the separator is absent from the join. */
  lemma {:induction false} JoinAvoids(xs: seq<string>, sep: string, c: char)
    requires Avoids(sep, c) && forall i :: 0 <= i < |xs| ==> Avoids(xs[i], c)
    ensures Avoids(Join(xs, sep), c)
    decreases |xs|
  {
    if |xs| > 1 {
      JoinAvoids(xs[1..], sep, c);
    }
  }

  // ---------------------------------------------------------------- split_whitespace

  /** Length of the run of non-whitespace characters at the start of `s`. */
  function WordLength(s: string): (n: nat)
    ensures n <= |s|
    ensures forall i :: 0 <= i < n ==> !IsWhitespace(s[i])
    ensures n == |s| || IsWhitespace(s[n])
  {
    if s == [] || IsWhitespace(s[0]) then 0 else 1 + WordLength(s[1..])
  }

  /** `str::split_whitespace`: the maximal runs of non-whitespace characters, in order. */
  function SplitWhitespace(s: string): (r: seq<string>)
    ensures forall i :: 0 <= i < |r| ==> r[i] != [] && NoWhitespace(r[i])
    decreases |s|
  {
    if s == [] then []
    else if IsWhitespace(s[0]) then SplitWhitespace(s[1..])
    else
      var n := WordLength(s);
      [s[..n]] + SplitWhitespace(s[n..])
  }

  /** `s` without its whitespace characters. */
  function DropWhitespace(s: string): (r: string)
    ensures NoWhitespace(r)
  {
    if s == [] then []
    else if IsWhitespace(s[0]) then DropWhitespace(s[1..])
    else [s[0]] + DropWhitespace(s[1..])
  }

  function Concat(xs: seq<string>): string
  {
    if xs == [] then [] else xs[0] + Concat(xs[1..])
  }

  lemma {:induction false} DropWhitespaceOfWord(s: string, n: nat)
    requires n <= |s| && forall i :: 0 <= i < n ==> !IsWhitespace(s[i])
    ensures DropWhitespace(s) == s[..n] + DropWhitespace(s[n..])
    decreases n
  {
    if n > 0 {
      DropWhitespaceOfWord(s[1..], n - 1);
      assert s[1..][..n - 1] == s[1..n];
      assert s[1..][n - 1..] == s[n..];
      assert [s[0]] + s[1..n] == s[..n];
    }
  }

  /** Nothing but whitespace is lost between the tokens: their concatenation is the text with
      its whitespace removed. */
  lemma {:induction false} SplitWhitespaceKeepsText(s: string)
    ensures Concat(SplitWhitespace(s)) == DropWhitespace(s)
    decreases |s|
  {
    if s == [] {
    } else if IsWhitespace(s[0]) {
      SplitWhitespaceKeepsText(s[1..]);
    } else {
      var n := WordLength(s);
      SplitWhitespaceKeepsText(s[n..]);
      DropWhitespaceOfWord(s, n);
      var r := SplitWhitespace(s);
      assert r == [s[..n]] + SplitWhitespace(s[n..]);
      assert r[1..] == SplitWhitespace(s[n..]);
    }
  }

  /** A text has no token exactly when it is empty or all whitespace. */
  lemma {:induction false} NoTokensIffBlank(s: string)
    ensures SplitWhitespace(s) == [] <==> AllWhitespace(s)
    decreases |s|
  {
    if s != [] {
      NoTokensIffBlank(s[1..]);
      if IsWhitespace(s[0]) {
        if AllWhitespace(s[1..]) {
          forall i | 0 <= i < |s| ensures IsWhitespace(s[i]) {
            if i > 0 { assert s[i] == s[1..][i - 1]; }
          }
        } else {
          var i :| 0 <= i < |s[1..]| && !IsWhitespace(s[1..][i]);
          assert s[i + 1] == s[1..][i];
        }
      }
    }
  }

  lemma {:induction false} WordLengthOfWord(w: string, rest: string)
    requires NoWhitespace(w) && (rest == [] || IsWhitespace(rest[0]))
    ensures WordLength(w + rest) == |w|
    decreases |w|
  {
    if w == [] {
    } else {
      assert (w + rest)[1..] == w[1..] + rest;
      WordLengthOfWord(w[1..], rest);
    }
  }

  /** Tokens written with single spaces between them are read back unchanged. */
  lemma {:induction false} SplitWhitespaceJoin(ts: seq<string>)
    requires forall i :: 0 <= i < |ts| ==> ts[i] != [] && NoWhitespace(ts[i])
    ensures SplitWhitespace(Join(ts, " ")) == ts
    decreases |ts|
  {
    if |ts| == 0 {
    } else if |ts| == 1 {
      SplitWhitespaceWord(ts[0], []);
      assert ts[0] + [] == ts[0];
    } else {
      var w := ts[0];
      var rest := " " + Join(ts[1..], " ");
      assert Join(ts, " ") == w + rest;
      SplitWhitespaceWord(w, rest);
      assert rest[1..] == Join(ts[1..], " ");
      assert SplitWhitespace(rest) == SplitWhitespace(Join(ts[1..], " "));
      SplitWhitespaceJoin(ts[1..]);
      assert [ts[0]] + ts[1..] == ts;
    }
  }

  /** A word followed by whitespace or nothing is the first token. */
  lemma SplitWhitespaceWord(w: string, rest: string)
    requires w != [] && NoWhitespace(w) && (rest == [] || IsWhitespace(rest[0]))
    ensures SplitWhitespace(w + rest) == [w] + SplitWhitespace(rest)
  {
    var s := w + rest;
    WordLengthOfWord(w, rest);
    assert s[..|w|] == w;
    assert s[|w|..] == rest;
  }

  /** Trailing whitespace adds no token. */
  lemma {:induction false} SplitWhitespaceTrailing(s: string, w: string)
    requires AllWhitespace(w)
    ensures SplitWhitespace(s + w) == SplitWhitespace(s)
    decreases |s|
  {
    if s == [] {
      assert s + w == w;
      NoTokensIffBlank(w);
    } else if IsWhitespace(s[0]) {
      assert (s + w)[1..] == s[1..] + w;
      SplitWhitespaceTrailing(s[1..], w);
    } else {
      var n := WordLength(s);
      var rest := s[n..] + w;
      assert s + w == s[..n] + rest;
      assert NoWhitespace(s[..n]);
      WordLengthOfWord(s[..n], rest);
      assert (s + w)[..n] == s[..n];
      assert (s + w)[n..] == rest;
      SplitWhitespaceTrailing(s[n..], w);
    }
  }

  /** `str::trim_start`, `str::trim_end` and `str::trim`: leading and trailing whitespace removed. */
  function TrimStart(s: string): (r: string)
    ensures r == [] || !IsWhitespace(r[0])
  {
    if s != [] && IsWhitespace(s[0]) then TrimStart(s[1..]) else s
  }

  function TrimEnd(s: string): (r: string)
    ensures r == [] || !IsWhitespace(r[|r| - 1])
  {
    if s != [] && IsWhitespace(s[|s| - 1]) then TrimEnd(s[..|s| - 1]) else s
  }

  function Trim(s: string): string
  {
    TrimEnd(TrimStart(s))
  }

  lemma {:induction false} TrimStartKeepsTokens(s: string)
    ensures SplitWhitespace(TrimStart(s)) == SplitWhitespace(s)
    decreases |s|
  {
    if s != [] && IsWhitespace(s[0]) {
      TrimStartKeepsTokens(s[1..]);
    }
  }

  lemma {:induction false} TrimEndKeepsTokens(s: string)
    ensures SplitWhitespace(TrimEnd(s)) == SplitWhitespace(s)
    decreases |s|
  {
    if s != [] && IsWhitespace(s[|s| - 1]) {
      var p := s[..|s| - 1];
      assert s == p + [s[|s| - 1]];
      SplitWhitespaceTrailing(p, [s[|s| - 1]]);
      TrimEndKeepsTokens(p);
    }
  }

  /** Trimming never changes the tokens `split_whitespace` finds. */
  lemma TrimKeepsTokens(s: string)
    ensures SplitWhitespace(Trim(s)) == SplitWhitespace(s)
  {
    TrimStartKeepsTokens(s);
    TrimEndKeepsTokens(TrimStart(s));
  }

  /** `str::replace(c, "")`: every occurrence of `c` deleted. */
  function Remove(s: string, c: char): (r: string)
    ensures Avoids(r, c)
    ensures |r| <= |s|
  {
    if s == [] then [] else (if s[0] == c then [] else [s[0]]) + Remove(s[1..], c)
  }

  /** Deleting `c` from a text of digits and `c`s leaves its digits, and nothing exactly when
      the text had no digit. */
  lemma {:induction false} RemoveFromDigits(s: string, c: char)
    requires forall i :: 0 <= i < |s| ==> s[i] == c || IsDigit(s[i])
    ensures AllDigits(Remove(s, c))
    ensures Remove(s, c) == [] <==> forall i :: 0 <= i < |s| ==> s[i] == c
    decreases |s|
  {
    if s != [] {
      assert forall i :: 1 <= i < |s| ==> s[i] == s[1..][i - 1];
      RemoveFromDigits(s[1..], c);
    }
  }

  // ---------------------------------------------------------------- usize::from_str

  /** `usize` is 64 bits wide on the targets the crate is built for. */
  const USIZE_LIMIT: nat := 0x1_0000_0000_0000_0000

  datatype ParseIntError = Empty | InvalidDigit | PosOverflow

  /** Value of a string of decimal digits, most significant first. */
  function DecimalValue(ds: string): nat
    requires AllDigits(ds)
  {
    if ds == [] then 0 else 10 * DecimalValue(ds[..|ds| - 1]) + DigitValue(ds[|ds| - 1])
  }

  /** The digits that `usize::from_str` reads: a leading '+' is allowed and skipped. */
  function UnsignedDigits(s: string): string
  {
    if s != [] && s[0] == '+' then s[1..] else s
  }

  /** The first `n` characters of `ds` are digits whose value no longer fits in a `usize`. */
  predicate Overflows(ds: string, n: nat) {
    0 < n <= |ds| && AllDigits(ds[..n]) && DecimalValue(ds[..n]) >= USIZE_LIMIT
  }

  /** A prefix of a digit string is a digit string of no larger value. */
  lemma {:induction false} PrefixValue(ds: string, n: nat)
    requires AllDigits(ds) && n <= |ds|
    ensures AllDigits(ds[..n]) && DecimalValue(ds[..n]) <= DecimalValue(ds)
    decreases |ds| - n
  {
    if n == |ds| {
      assert ds[..n] == ds;
    } else {
      var init := ds[..|ds| - 1];
      assert init[..n] == ds[..n];
      PrefixValue(init, n);
    }
  }

  /** The digit loop of `from_str_radix` from position `i`, where `acc` is the value of the
      digits before it: each character must be a digit, and the value read so far must stay
      below `USIZE_LIMIT`, whichever fails first deciding the error. */
  function ReadDigits(ds: string, i: nat, acc: nat): (r: Result<nat, ParseIntError>)
    requires i <= |ds| && AllDigits(ds[..i]) && acc == DecimalValue(ds[..i]) && acc < USIZE_LIMIT
    ensures r.Ok? <==> AllDigits(ds) && DecimalValue(ds) < USIZE_LIMIT
    ensures r.Ok? ==> r.value == DecimalValue(ds)
    ensures r.Err? ==> r.error != Empty
    ensures r == Err(PosOverflow) <==> exists n :: i < n <= |ds| && Overflows(ds, n)
    decreases |ds| - i
  {
    if i == |ds| then
      assert ds[..i] == ds;
      Ok(acc)
    else if !IsDigit(ds[i]) then
      assert forall n :: i < n <= |ds| ==> ds[..n][i] == ds[i];
      Err(InvalidDigit)
    else
      var next := 10 * acc + DigitValue(ds[i]);
      assert ds[..i + 1][..i] == ds[..i];
      if next >= USIZE_LIMIT then
        assert Overflows(ds, i + 1);
        if AllDigits(ds) then PrefixValue(ds, i + 1); Err(PosOverflow) else Err(PosOverflow)
      else
        ReadDigits(ds, i + 1, next)
  }

  /** `<usize as FromStr>::from_str`: an optional '+' then ASCII digits whose value fits in a
      `usize`. The empty string is `Empty`; a lone sign, a '-' and any other character are
      `InvalidDigit`; a value of `USIZE_LIMIT` or more is `PosOverflow`, unless a character
      that is not a digit comes before the digit that overflows. */
  function ParseUsize(s: string): (r: Result<nat, ParseIntError>)
    ensures r == Err(Empty) <==> s == []
    ensures r.Ok? <==> (var ds := UnsignedDigits(s); ds != [] && AllDigits(ds) && DecimalValue(ds) < USIZE_LIMIT)
    ensures r.Ok? ==> r.value == DecimalValue(UnsignedDigits(s))
    ensures r == Err(PosOverflow) <==> exists n :: 0 < n <= |UnsignedDigits(s)| && Overflows(UnsignedDigits(s), n)
  {
    if s == [] then Err(Empty)
    else if (s[0] == '+' || s[0] == '-') && |s| == 1 then Err(InvalidDigit)
    else
      var digits := UnsignedDigits(s);
      assert digits[..0] == [];
      ReadDigits(digits, 0, 0)
  }

  /** A non-empty string of digits parses to its decimal value when that fits in a `usize`,
      and fails with `PosOverflow` otherwise. */
  lemma ParseDigits(s: string)
    requires s != [] && AllDigits(s)
    ensures DecimalValue(s) < USIZE_LIMIT ==> ParseUsize(s) == Ok(DecimalValue(s))
    ensures DecimalValue(s) >= USIZE_LIMIT ==> ParseUsize(s) == Err(PosOverflow)
  {
    assert UnsignedDigits(s) == s;
    assert s[..|s|] == s;
    if DecimalValue(s) >= USIZE_LIMIT {
      assert Overflows(s, |s|);
    }
  }

  /** Decimal notation of `n`, without leading zeros. */
  function NatToString(n: nat): (s: string)
    ensures s != [] && AllDigits(s)
    ensures DecimalValue(s) == n
    ensures |s| > 1 ==> s[0] != '0'
  {
    if n < 10 then [DigitChar(n)]
    else
      var s := NatToString(n / 10) + [DigitChar(n % 10)];
      assert s[..|s| - 1] == NatToString(n / 10);
      s
  }

  lemma DigitsAreNotWhitespace(s: string)
    requires AllDigits(s)
    ensures NoWhitespace(s)
  {
  }

  /** Formatting a number that fits in a `usize` and parsing it gives the number back. */
  lemma ParseFormatted(n: nat)
    requires n < USIZE_LIMIT
    ensures ParseUsize(NatToString(n)) == Ok(n)
    ensures ParseUsize("+" + NatToString(n)) == Ok(n)
  {
    var s := NatToString(n);
    assert ("+" + s)[1..] == s;
    ParseDigits(s);
  }

  /** A number too large for a `usize`, written out, fails to parse with `PosOverflow`. */
  lemma ParseFormattedOverflow(n: nat)
    requires n >= USIZE_LIMIT
    ensures ParseUsize(NatToString(n)) == Err(PosOverflow)
    ensures ParseUsize("+" + NatToString(n)) == Err(PosOverflow)
  {
    var s := NatToString(n);
    assert ("+" + s)[1..] == s;
    ParseDigits(s);
  }
}
