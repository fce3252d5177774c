/**
 * src/farm_map.rs: a translation table from source numbers to destination numbers. Each rule
 * (`FarmMapLine`) moves the half-open source interval `[source, source + length)` by the
 * constant offset `destination - source`; numbers outside every rule are left unchanged.
 */
module FarmMaps {
  import opened Results
  import opened Strings
  import opened Utils
  import Sorting

  datatype FarmMapParseError = InvalidInputError | ParseIntError(cause: Strings.ParseIntError)

  /** One rule line: `destination source length`. */
  datatype FarmMapLine = FarmMapLine(destination: nat, source: nat, length: nat) {

    /** The exclusive end of the source interval. */
    function SourceEnd(): nat {
      source + length
    }

    predicate Covers(v: nat) {
      source <= v < source + length
    }

    /** `v + destination - source`, evaluated left to right as the Rust code does. */
    function Shift(v: nat): nat
      requires source <= v
    {
      v + destination - source
    }
  }

  datatype FarmMap = FarmMap(lines: seq<FarmMapLine>)

  // ---------------------------------------------------------------- parsing

  /** `FarmMapLine::from_str` indexes the first three numbers, so a line whose numbers all
      parse must have at least three of them. */
  predicate LineIndexable(s: string) {
    var ns := SplitWhitespaceAndParse(s);
    ns.Ok? ==> |ns.value| >= 3
  }

  /** `FarmMapLine::from_str`: the first three whitespace-separated numbers are the
      destination, the source and the length; any further numbers are ignored. */
  function ParseLine(s: string): (r: Result<FarmMapLine, FarmMapParseError>)
    requires LineIndexable(s)
    ensures r.Ok? <==> SplitWhitespaceAndParse(s).Ok?
    ensures r.Err? ==> r.error == ParseIntError(SplitWhitespaceAndParse(s).error)
  {
    var ranges :- SplitWhitespaceAndParse(s).MapError(e => ParseIntError(e));
    Ok(FarmMapLine(ranges[0], ranges[1], ranges[2]))
  }

  function FormatLine(l: FarmMapLine): string {
    FormatNumbers([l.destination, l.source, l.length])
  }

  /** The three numbers of the rule fit in a `usize`. */
  predicate UsizeLine(l: FarmMapLine) {
    l.destination < USIZE_LIMIT && l.source < USIZE_LIMIT && l.length < USIZE_LIMIT
  }

  /** A rule written as three decimal numbers is read back as that rule, and numbers after
      the third are ignored. */
  lemma ParseLineRoundTrip(l: FarmMapLine, extra: seq<nat>)
    requires UsizeLine(l) && AllUsize(extra)
    ensures LineIndexable(FormatNumbers([l.destination, l.source, l.length] + extra))
    ensures ParseLine(FormatNumbers([l.destination, l.source, l.length] + extra)) == Ok(l)
  {
    var ns := [l.destination, l.source, l.length] + extra;
    assert forall i :: 3 <= i < |ns| ==> ns[i] == extra[i - 3];
    ReadFormattedNumbers(ns);
  }

  /** `try_from` stops at the first line that fails; only lines up to there are indexed. */
  predicate RulesIndexable(texts: seq<string>)
    decreases |texts|
  {
    texts == [] || (LineIndexable(texts[0]) && (ParseLine(texts[0]).Ok? ==> RulesIndexable(texts[1..])))
  }

  /** The rules of the lines in input order, or the error of the first line that fails. */
  function ParseRules(texts: seq<string>): (r: Result<seq<FarmMapLine>, FarmMapParseError>)
    requires RulesIndexable(texts)
    ensures r.Ok? ==> |r.value| == |texts|
    ensures r.Err? ==> r.error.ParseIntError?
    decreases |texts|
  {
    if texts == [] then Ok([])
    else
      var line :- ParseLine(texts[0]);
      var rest :- ParseRules(texts[1..]);
      Ok([line] + rest)
  }

  /** Line `t` is read as rule `l`. */
  predicate RuleOf(t: string, l: FarmMapLine) {
    LineIndexable(t) && ParseLine(t) == Ok(l)
  }

  /** Each rule is the parse of the line at the same position. */
  predicate RulesFrom(texts: seq<string>, rules: seq<FarmMapLine>) {
    |texts| == |rules| && forall i :: 0 <= i < |texts| ==> RuleOf(texts[i], rules[i])
  }

  lemma RulesFromCons(texts: seq<string>, l: FarmMapLine, rules: seq<FarmMapLine>)
    requires texts != [] && RuleOf(texts[0], l)
    requires RulesFrom(texts[1..], rules)
    ensures RulesFrom(texts, [l] + rules)
  {
    var ys := [l] + rules;
    assert ys[1..] == rules;
    PointwiseCons(texts, ys, RuleOf);
  }

  /** On success, rule `i` is the parse of line `i`. */
  lemma {:induction false} ParseRulesPointwise(texts: seq<string>)
    requires RulesIndexable(texts) && ParseRules(texts).Ok?
    ensures RulesFrom(texts, ParseRules(texts).value)
    decreases |texts|
  {
    if texts != [] {
      ParseRulesUnfold(texts);
      var l, rest := ParseLine(texts[0]).value, ParseRules(texts[1..]).value;
      assert ParseRules(texts).value == [l] + rest;
      ParseRulesPointwise(texts[1..]);
      RulesFromCons(texts, l, rest);
    }
  }

  /** `PartialOrd::lt` for `FarmMapLine`: the hand-written `partial_cmp` compares the source
      starts only, and `sort` uses it rather than the derived `Ord`. */
  function SourceLess(a: FarmMapLine, b: FarmMapLine): bool {
    a.source < b.source
  }

  lemma SourceLessIsStrictWeakOrder()
    ensures Sorting.StrictWeakOrder(SourceLess)
  {
  }

  predicate SortedBySource(lines: seq<FarmMapLine>) {
    forall i, j :: 0 <= i < j < |lines| ==> lines[i].source <= lines[j].source
  }

  /** What `FarmMap::try_from` builds: the parsed rules, stably sorted by source start. */
  function Build(texts: seq<string>): Result<FarmMap, FarmMapParseError>
    requires RulesIndexable(texts)
  {
    var lines :- ParseRules(texts);
    Ok(FarmMap(Sorting.InsertionSort(lines, SourceLess)))
  }

  /** A built map holds exactly the parsed rules, in ascending source order. */
  lemma BuildSorted(texts: seq<string>)
    requires RulesIndexable(texts)
    ensures Build(texts).Ok? <==> ParseRules(texts).Ok?
    ensures Build(texts).Ok? ==> SortedBySource(Build(texts).value.lines)
    ensures Build(texts).Ok? ==> multiset(Build(texts).value.lines) == multiset(ParseRules(texts).value)
  {
    if ParseRules(texts).Ok? {
      var lines := ParseRules(texts).value;
      SourceLessIsStrictWeakOrder();
      Sorting.InsertionSortSorted(lines, SourceLess);
      Sorting.InsertionSortPermutes(lines, SourceLess);
    }
  }

  function Prepend(lines: seq<FarmMapLine>, r: Result<seq<FarmMapLine>, FarmMapParseError>): Result<seq<FarmMapLine>, FarmMapParseError> {
    match r
    case Ok(rest) => Ok(lines + rest)
    case Err(e) => Err(e)
  }

  lemma PrependNothing(r: Result<seq<FarmMapLine>, FarmMapParseError>)
    ensures Prepend([], r) == r
    ensures r.Ok? ==> Prepend(r.value, Ok([])) == r
  {
    match r
    case Ok(v) =>
      assert [] + v == v && v + [] == v;
    case Err(_) =>
  }

  lemma PrependPrepend(a: seq<FarmMapLine>, b: seq<FarmMapLine>, r: Result<seq<FarmMapLine>, FarmMapParseError>)
    ensures Prepend(a, Prepend(b, r)) == Prepend(a + b, r)
  {
    match r
    case Ok(v) =>
      assert a + (b + v) == (a + b) + v;
    case Err(_) =>
  }

  /** One step of `ParseRules`: the first line's error, or its rule before the others. */
  lemma ParseRulesUnfold(texts: seq<string>)
    requires RulesIndexable(texts) && texts != []
    ensures LineIndexable(texts[0])
    ensures ParseLine(texts[0]).Err? ==> ParseRules(texts) == Err(ParseLine(texts[0]).error)
    ensures ParseLine(texts[0]).Ok? ==> RulesIndexable(texts[1..])
    ensures ParseLine(texts[0]).Ok? ==> ParseRules(texts) == Prepend([ParseLine(texts[0]).value], ParseRules(texts[1..]))
  {
  }

  /** Copy the rules into a buffer and sort it in place. */
  method SortBySource(lines: seq<FarmMapLine>) returns (sorted: seq<FarmMapLine>)
    ensures sorted == Sorting.InsertionSort(lines, SourceLess)
  {
    var a := new FarmMapLine[|lines|](i requires 0 <= i < |lines| => lines[i]);
    assert a[..] == lines;
    Sorting.InsertionSortInPlace(a, SourceLess);
    sorted := a[..];
  }

  /** `FarmMap::try_from`: parse every line (each line is parsed twice, as in the source),
      collect the rules, then sort them in place. */
  method TryFrom(texts: seq<string>) returns (r: Result<FarmMap, FarmMapParseError>)
    requires RulesIndexable(texts)
    ensures r == Build(texts)
    ensures r.Ok? ==> SortedBySource(r.value.lines)
    ensures r.Err? ==> r.error.ParseIntError?
  {
    var lines: seq<FarmMapLine> := [];
    assert texts[0..] == texts;
    PrependNothing(ParseRules(texts));
    for k := 0 to |texts|
      invariant RulesIndexable(texts[k..])
      invariant ParseRules(texts) == Prepend(lines, ParseRules(texts[k..]))
    {
      assert texts[k..][1..] == texts[k + 1..];
      ParseRulesUnfold(texts[k..]);
      var ranges := SplitWhitespaceAndParse(texts[k]);
      if ranges.Err? {
        r := Err(ParseIntError(ranges.error));
        BuildOfError(texts, r.error);
        return;
      }
      var line := ParseLine(texts[k]).value;
      PrependPrepend(lines, [line], ParseRules(texts[k + 1..]));
      lines := lines + [line];
    }
    assert texts[|texts|..] == [];
    PrependNothing(Ok(lines));
    var sorted := SortBySource(lines);
    r := Ok(FarmMap(sorted));
    BuildOfRules(texts, lines);
  }

  lemma BuildOfError(texts: seq<string>, e: FarmMapParseError)
    requires RulesIndexable(texts) && ParseRules(texts) == Err(e)
    ensures Build(texts) == Err(e) && e.ParseIntError?
  {
  }

  lemma BuildOfRules(texts: seq<string>, lines: seq<FarmMapLine>)
    requires RulesIndexable(texts) && ParseRules(texts) == Ok(lines)
    ensures Build(texts) == Ok(FarmMap(Sorting.InsertionSort(lines, SourceLess)))
    ensures SortedBySource(Sorting.InsertionSort(lines, SourceLess))
  {
    BuildSorted(texts);
  }

  // ---------------------------------------------------------------- point lookup

  /** The value `correspond` returns: walk the rules until the first one that does not end at
      or before `v`; translate if it covers `v`, otherwise `v` is unmapped. */
  function Lookup(lines: seq<FarmMapLine>, v: nat): nat
    decreases |lines|
  {
    if lines == [] then v
    else if v >= lines[0].SourceEnd() then Lookup(lines[1..], v)
    else if v < lines[0].source then v
    else lines[0].Shift(v)
  }

  /** `FarmMap::correspond`: the iterator over the rules is the index `i`. It never fails. */
  method Correspond(m: FarmMap, value: nat) returns (r: Result<nat, FarmMapParseError>)
    ensures r == Ok(Lookup(m.lines, value))
  {
    var i := 0;
    while i < |m.lines|
      invariant 0 <= i <= |m.lines|
      invariant Lookup(m.lines, value) == Lookup(m.lines[i..], value)
    {
      var line := m.lines[i];
      assert m.lines[i..][1..] == m.lines[i + 1..];
      if value >= line.source + line.length {
        i := i + 1;
        continue;
      }
      if value < line.source {
        return Ok(value);
      }
      return Ok(value + line.destination - line.source);
    }
    return Ok(value);
  }

  /** A value that no rule covers passes through unchanged, whatever the order of the rules. */
  lemma {:induction false} LookupUnmapped(lines: seq<FarmMapLine>, v: nat)
    requires forall k :: 0 <= k < |lines| ==> !lines[k].Covers(v)
    ensures Lookup(lines, v) == v
    decreases |lines|
  {
    if lines != [] {
      assert !lines[0].Covers(v);
      LookupUnmapped(lines[1..], v);
    }
  }

  /** On rules sorted by source start, the value is translated by the first rule that covers it. */
  lemma {:induction false} LookupFirstCovering(lines: seq<FarmMapLine>, v: nat, k: nat)
    requires SortedBySource(lines)
    requires k < |lines| && lines[k].Covers(v)
    requires forall j :: 0 <= j < k ==> !lines[j].Covers(v)
    ensures Lookup(lines, v) == v + lines[k].destination - lines[k].source
    decreases k
  {
    if k == 0 {
    } else {
      assert !lines[0].Covers(v);
      assert lines[0].source <= lines[k].source <= v;
      LookupFirstCovering(lines[1..], v, k - 1);
    }
  }

  predicate Disjoint(lines: seq<FarmMapLine>) {
    forall i, j :: 0 <= i < j < |lines| ==> lines[i].SourceEnd() <= lines[j].source || lines[j].SourceEnd() <= lines[i].source
  }

  /** On sorted, disjoint rules the value is translated by the rule that covers it. */
  lemma LookupCovered(lines: seq<FarmMapLine>, v: nat, k: nat)
    requires SortedBySource(lines) && Disjoint(lines)
    requires k < |lines| && lines[k].Covers(v)
    ensures Lookup(lines, v) == v + lines[k].destination - lines[k].source
  {
    forall j | 0 <= j < k ensures !lines[j].Covers(v) {
    }
    LookupFirstCovering(lines, v, k);
  }

  // ---------------------------------------------------------------- range lookup, as written

  /** A half-open range of numbers `(start, end)`. */
  type Range = (nat, nat)

  /** One iteration of the loop of `correspond_range` on rule `l`: the new cursor and the
      pieces pushed. The rule is skipped when the range ends before its source start (`<`, so a
      range ending exactly at the source start is not skipped) or the cursor is at or past its
      end. Otherwise an untranslated gap before the rule is pushed first; then, when the rule
      ends before the range, the piece `(start + difference, line_end + difference)` with
      `difference = start + destination - source`, and the cursor moves to the rule's end;
      when it does not, the untranslated `(line_end, end)`. */
  function RangeStep(l: FarmMapLine, start: nat, end: nat): (r: (nat, seq<Range>))
    ensures start <= r.0
    ensures |r.1| <= 2
    ensures r.1 == [] <==> end < l.source || start >= l.SourceEnd()
    ensures r.1 == [] ==> r.0 == start
  {
    if end < l.source then (start, [])
    else
      var lineEnd := l.SourceEnd();
      if start >= lineEnd then (start, [])
      else
        var gap: seq<Range> := if start < l.source then [(start, l.source)] else [];
        var cursor := if start < l.source then l.source else start;
        var difference := cursor + l.destination - l.source;
        if lineEnd < end then (lineEnd, gap + [(cursor + difference, lineEnd + difference)])
        else (cursor, gap + [(lineEnd, end)])
  }

  /** The cursor and the pieces after the loop has run over `lines`, starting from cursor
      `start`: rule after rule, each step's pieces appended to those before. */
  function RangeFold(lines: seq<FarmMapLine>, start: nat, end: nat): (nat, seq<Range>)
    decreases |lines|
  {
    if lines == [] then (start, [])
    else
      var before := RangeFold(lines[..|lines| - 1], start, end);
      var step := RangeStep(lines[|lines| - 1], before.0, end);
      (step.0, before.1 + step.1)
  }

  /** What `correspond_range` returns: the pushed pieces, or the input range itself when
      nothing was pushed. */
  function CorrespondRangeSpec(lines: seq<FarmMapLine>, range: Range): seq<Range> {
    var pieces := RangeFold(lines, range.0, range.1).1;
    if pieces == [] then [range] else pieces
  }

  /** The step on a rule that ends before the range does: the gap, then the translated
      piece from the cursor to the rule's end. */
  lemma TranslatedStep(l: FarmMapLine, from: nat, end: nat, cursor: nat, gap: seq<Range>)
    requires l.source <= end && from < l.SourceEnd() < end
    requires cursor == (if from < l.source then l.source else from)
    requires gap == (if from < l.source then [(from, l.source)] else [])
    ensures var difference := cursor + l.destination - l.source;
            RangeStep(l, from, end) == (l.SourceEnd(), gap + [(cursor + difference, l.SourceEnd() + difference)])
  {
  }

  /** The step on a rule that does not end before the range: the gap, then `(line_end, end)`. */
  lemma UntranslatedStep(l: FarmMapLine, from: nat, end: nat, cursor: nat, gap: seq<Range>)
    requires l.source <= end && from < l.SourceEnd() && end <= l.SourceEnd()
    requires cursor == (if from < l.source then l.source else from)
    requires gap == (if from < l.source then [(from, l.source)] else [])
    ensures RangeStep(l, from, end) == (cursor, gap + [(l.SourceEnd(), end)])
  {
  }

  /** `FarmMap::correspond_range`: a cursor `start` and a growing vector of pieces. It never
      fails. */
  method CorrespondRange(m: FarmMap, range: Range) returns (r: Result<seq<Range>, FarmMapParseError>)
    ensures r == Ok(CorrespondRangeSpec(m.lines, range))
  {
    var start: nat := range.0;
    var end: nat := range.1;
    var ranges: seq<Range> := [];
    for i := 0 to |m.lines|
      invariant RangeFold(m.lines[..i], range.0, end) == (start, ranges)
    {
      var line := m.lines[i];
      assert m.lines[..i + 1][..i] == m.lines[..i];
      ghost var step := RangeStep(line, start, end);
      ghost var before := ranges;
      ghost var from := start;
      if end < line.source {
        assert step == (start, []) && ranges + [] == ranges;
        continue;
      }
      var lineEnd := line.source + line.length;
      if start >= lineEnd {
        assert step == (start, []) && ranges + [] == ranges;
        continue;
      }
      ghost var gap: seq<Range> := if start < line.source then [(start, line.source)] else [];
      if start < line.source {
        ranges := ranges + [(start, line.source)];
        start := line.source;
      }
      assert ranges == before + gap;
      var difference := start + line.destination - line.source;
      if lineEnd < end {
        var piece: Range := (start + difference, lineEnd + difference);
        TranslatedStep(line, from, end, start, gap);
        ranges := ranges + [piece];
        start := lineEnd;
        assert before + gap + [piece] == before + (gap + [piece]);
      } else {
        var piece: Range := (lineEnd, end);
        UntranslatedStep(line, from, end, start, gap);
        ranges := ranges + [piece];
        assert before + gap + [piece] == before + (gap + [piece]);
      }
    }
    assert m.lines[..|m.lines|] == m.lines;
    if |ranges| == 0 {
      return Ok([range]);
    }
    return Ok(ranges);
  }

  /** When no rule overlaps the range the result is exactly the input range. */
  lemma NoOverlapIsIdentity(lines: seq<FarmMapLine>, range: Range)
    requires forall k :: 0 <= k < |lines| ==> range.1 < lines[k].source || range.0 >= lines[k].SourceEnd()
    ensures CorrespondRangeSpec(lines, range) == [range]
  {
    NoOverlapPushesNothing(lines, range.0, range.1);
  }

  lemma {:induction false} NoOverlapPushesNothing(lines: seq<FarmMapLine>, start: nat, end: nat)
    requires forall k :: 0 <= k < |lines| ==> end < lines[k].source || start >= lines[k].SourceEnd()
    ensures RangeFold(lines, start, end).0 == start && RangeFold(lines, start, end).1 == []
    decreases |lines|
  {
    if lines != [] {
      var n := |lines| - 1;
      assert end < lines[n].source || start >= lines[n].SourceEnd();
      NoOverlapPushesNothing(lines[..n], start, end);
      assert RangeStep(lines[n], start, end).1 == [];
    }
  }

  /** The cursor never moves back, and each rule adds at most two pieces. */
  lemma {:induction false} RangeFoldBound(lines: seq<FarmMapLine>, start: nat, end: nat)
    ensures start <= RangeFold(lines, start, end).0
    ensures |RangeFold(lines, start, end).1| <= 2 * |lines|
    decreases |lines|
  {
    if lines != [] {
      RangeFoldBound(lines[..|lines| - 1], start, end);
    }
  }

  /** The result holds between one and `max(1, 2 * #rules)` pieces. */
  lemma CorrespondRangeSize(lines: seq<FarmMapLine>, range: Range)
    ensures 1 <= |CorrespondRangeSpec(lines, range)|
    ensures |lines| == 0 ==> |CorrespondRangeSpec(lines, range)| == 1
    ensures |lines| > 0 ==> |CorrespondRangeSpec(lines, range)| <= 2 * |lines|
  {
    RangeFoldBound(lines, range.0, range.1);
  }

  /** A cursor before an overlapping rule's source start pushes the untranslated gap first and
      moves the cursor to the source start (or on to the rule's end). */
  lemma GapBeforeRule(l: FarmMapLine, start: nat, end: nat)
    requires l.source <= end && start < l.source
    ensures RangeStep(l, start, end).1[0] == (start, l.source)
    ensures RangeStep(l, start, end).0 == (if l.SourceEnd() < end then l.SourceEnd() else l.source)
  {
  }

  /** The flaw of `correspond_range`: with a rule that covers the start of the range and does
      not end before its end, the single piece returned is `(line_end, end)`, which is
      untranslated and empty or inverted even though the range holds numbers. */
  lemma CoveredRangeIsLost(l: FarmMapLine, start: nat, end: nat)
    requires l.Covers(start) && start < end <= l.SourceEnd()
    ensures CorrespondRangeSpec([l], (start, end)) == [(l.SourceEnd(), end)]
    ensures l.SourceEnd() >= end
  {
    assert [l][..0] == [];
    assert !(start < l.source) && !(l.SourceEnd() < end);
    assert RangeStep(l, start, end).1 == [(l.SourceEnd(), end)];
    assert RangeFold([l], start, end).1 == [] + [(l.SourceEnd(), end)];
  }

  // ---------------------------------------------------------------- range lookup, corrected

  /** `x` moved into `[lo, hi]`. */
  function Clamp(x: nat, lo: nat, hi: nat): (c: nat)
    requires lo <= hi
    ensures lo <= c <= hi
    ensures lo <= x <= hi ==> c == x
  {
    if x < lo then lo else if x > hi then hi else x
  }

  /** The numbers `a, a + 1, ..., b - 1` (none when `b <= a`). */
  function Interval(a: nat, b: nat): (r: seq<nat>)
    ensures |r| == if a <= b then b - a else 0
  {
    seq(if a <= b then b - a else 0, i => a + i)
  }

  /** The numbers of the pieces, piece after piece. */
  function Points(pieces: seq<Range>): seq<nat>
    decreases |pieces|
  {
    if pieces == [] then [] else Interval(pieces[0].0, pieces[0].1) + Points(pieces[1..])
  }

  /** `correspond` applied to each number. */
  function LookupAll(lines: seq<FarmMapLine>, vs: seq<nat>): (r: seq<nat>)
    ensures |r| == |vs|
  {
    seq(|vs|, i requires 0 <= i < |vs| => Lookup(lines, vs[i]))
  }

  /** The split `correspond_range` evidently intends: with the first rule, the part of the
      range before its source start passes through, the part inside it is shifted, and the
      part after its end goes on to the remaining rules. */
  function SplitRange(lines: seq<FarmMapLine>, start: nat, end: nat): seq<Range>
    decreases |lines|
  {
    if end <= start then []
    else if lines == [] then [(start, end)]
    else
      var l := lines[0];
      var b1 := Clamp(l.source, start, end);
      var b2 := Clamp(l.SourceEnd(), start, end);
      var gap: seq<Range> := if start < b1 then [(start, b1)] else [];
      var mid: seq<Range> := if b1 < b2 then [(l.Shift(b1), l.Shift(b1) + (b2 - b1))] else [];
      gap + mid + SplitRange(lines[1..], b2, end)
  }

  /** Every piece is a non-empty range. */
  predicate NonEmptyPieces(pieces: seq<Range>) {
    forall k :: 0 <= k < |pieces| ==> pieces[k].0 < pieces[k].1
  }

  lemma {:induction false} IntervalSplit(a: nat, m: nat, b: nat)
    requires a <= m <= b
    ensures Interval(a, b) == Interval(a, m) + Interval(m, b)
  {
  }

  lemma {:induction false} PointsAppend(p: seq<Range>, q: seq<Range>)
    ensures Points(p + q) == Points(p) + Points(q)
    decreases |p|
  {
    if p == [] {
      assert p + q == q;
    } else {
      assert (p + q)[1..] == p[1..] + q;
      PointsAppend(p[1..], q);
    }
  }

  lemma LookupAllAppend(lines: seq<FarmMapLine>, vs: seq<nat>, ws: seq<nat>)
    ensures LookupAll(lines, vs + ws) == LookupAll(lines, vs) + LookupAll(lines, ws)
  {
  }

  /** The numbers of the corrected pieces are exactly the images of the range's numbers under
      `correspond`, in order: nothing is lost, duplicated or left untranslated. */
  lemma {:induction false} SplitRangeImage(lines: seq<FarmMapLine>, start: nat, end: nat)
    ensures Points(SplitRange(lines, start, end)) == LookupAll(lines, Interval(start, end))
    decreases |lines|
  {
    if end <= start {
    } else if lines == [] {
      assert Points([(start, end)]) == Interval(start, end) + Points([]);
    } else {
      var l := lines[0];
      var b1 := Clamp(l.source, start, end);
      var b2 := Clamp(l.SourceEnd(), start, end);
      var gap: seq<Range> := if start < b1 then [(start, b1)] else [];
      var mid: seq<Range> := if b1 < b2 then [(l.Shift(b1), l.Shift(b1) + (b2 - b1))] else [];
      var rest := SplitRange(lines[1..], b2, end);
      assert SplitRange(lines, start, end) == gap + mid + rest;
      GapImage(lines, start, b1, end);
      MidImage(lines, start, b1, b2, end);
      RestImage(lines, start, b2, end);
      SplitRangeImage(lines[1..], b2, end);
      PointsAppend(gap + mid, rest);
      PointsAppend(gap, mid);
      assert Points(gap + mid + rest) == Points(gap) + Points(mid) + Points(rest);
      ImagesJoin(lines, start, b1, b2, end);
    }
  }

  /** The images of three adjacent intervals make the image of their union. */
  lemma ImagesJoin(lines: seq<FarmMapLine>, a: nat, m: nat, n: nat, b: nat)
    requires a <= m <= n <= b
    ensures LookupAll(lines, Interval(a, m)) + LookupAll(lines, Interval(m, n)) + LookupAll(lines, Interval(n, b))
         == LookupAll(lines, Interval(a, b))
  {
    IntervalSplit(a, m, b);
    IntervalSplit(m, n, b);
    LookupAllAppend(lines, Interval(m, n), Interval(n, b));
    LookupAllAppend(lines, Interval(a, m), Interval(m, b));
  }

  /** Every corrected piece is a non-empty range. */
  lemma {:induction false} SplitRangeNonEmpty(lines: seq<FarmMapLine>, start: nat, end: nat)
    ensures NonEmptyPieces(SplitRange(lines, start, end))
    decreases |lines|
  {
    if end > start && lines != [] {
      var l := lines[0];
      var b1 := Clamp(l.source, start, end);
      var b2 := Clamp(l.SourceEnd(), start, end);
      var gap: seq<Range> := if start < b1 then [(start, b1)] else [];
      var mid: seq<Range> := if b1 < b2 then [(l.Shift(b1), l.Shift(b1) + (b2 - b1))] else [];
      SplitRangeNonEmpty(lines[1..], b2, end);
      assert SplitRange(lines, start, end) == gap + mid + SplitRange(lines[1..], b2, end);
    }
  }

  lemma GapImage(lines: seq<FarmMapLine>, start: nat, b1: nat, end: nat)
    requires lines != [] && start < end && b1 == Clamp(lines[0].source, start, end)
    ensures Points(if start < b1 then [(start, b1)] else []) == LookupAll(lines, Interval(start, b1))
  {
    if start < b1 {
      assert Points([(start, b1)]) == Interval(start, b1) + Points([]);
    }
  }

  lemma MidImage(lines: seq<FarmMapLine>, start: nat, b1: nat, b2: nat, end: nat)
    requires lines != [] && start < end
    requires b1 == Clamp(lines[0].source, start, end) && b2 == Clamp(lines[0].SourceEnd(), start, end)
    ensures b1 <= b2
    ensures b1 < b2 ==> lines[0].source <= b1
    ensures Points(if b1 < b2 then [(lines[0].Shift(b1), lines[0].Shift(b1) + (b2 - b1))] else [])
         == LookupAll(lines, Interval(b1, b2))
  {
    var l := lines[0];
    if b1 < b2 {
      var p := (l.Shift(b1), l.Shift(b1) + (b2 - b1));
      assert Points([p]) == Interval(p.0, p.1) + Points([]);
    }
  }

  lemma RestImage(lines: seq<FarmMapLine>, start: nat, b2: nat, end: nat)
    requires lines != [] && start < end && b2 == Clamp(lines[0].SourceEnd(), start, end)
    ensures LookupAll(lines, Interval(b2, end)) == LookupAll(lines[1..], Interval(b2, end))
  {
  }

  // ---------------------------------------------------------------- examples of the unit tests

  function FormatRules(ls: seq<FarmMapLine>): seq<string> {
    seq(|ls|, i requires 0 <= i < |ls| => FormatLine(ls[i]))
  }

  /** Rules written one per line are read back as the same rules, in the same order. */
  lemma {:induction false} ParseFormattedRules(ls: seq<FarmMapLine>)
    requires forall i :: 0 <= i < |ls| ==> UsizeLine(ls[i])
    ensures RulesIndexable(FormatRules(ls))
    ensures ParseRules(FormatRules(ls)) == Ok(ls)
    decreases |ls|
  {
    if ls != [] {
      var l := ls[0];
      FormatRulesTail(ls);
      FormatLineParses(l);
      ParseFormattedRules(ls[1..]);
      ParseRulesCons(FormatRules(ls), l, ls[1..]);
      HeadTail(ls);
    }
  }

  lemma FormatLineParses(l: FarmMapLine)
    requires UsizeLine(l)
    ensures LineIndexable(FormatLine(l)) && ParseLine(FormatLine(l)) == Ok(l)
  {
    ParseLineRoundTrip(l, []);
    assert [l.destination, l.source, l.length] + [] == [l.destination, l.source, l.length];
  }

  /** A first line that parses to `l`, before lines that parse to `rest`. */
  lemma ParseRulesCons(texts: seq<string>, l: FarmMapLine, rest: seq<FarmMapLine>)
    requires texts != [] && LineIndexable(texts[0]) && ParseLine(texts[0]) == Ok(l)
    requires RulesIndexable(texts[1..]) && ParseRules(texts[1..]) == Ok(rest)
    ensures RulesIndexable(texts) && ParseRules(texts) == Ok([l] + rest)
  {
  }

  lemma FormatRulesTail(ls: seq<FarmMapLine>)
    requires ls != []
    ensures FormatRules(ls)[0] == FormatLine(ls[0])
    ensures FormatRules(ls)[1..] == FormatRules(ls[1..])
  {
  }

  /** A map built from rules written one per line holds those rules, sorted by source start. */
  lemma BuildFormatted(ls: seq<FarmMapLine>)
    requires forall i :: 0 <= i < |ls| ==> UsizeLine(ls[i])
    ensures RulesIndexable(FormatRules(ls))
    ensures Build(FormatRules(ls)) == Ok(FarmMap(Sorting.InsertionSort(ls, SourceLess)))
  {
    ParseFormattedRules(ls);
  }

  /** The ordering of the first unit test: `52 50 48` comes before `50 98 2`. */
  lemma ExampleASorted()
    ensures Sorting.InsertionSort([FarmMapLine(50, 98, 2), FarmMapLine(52, 50, 48)], SourceLess)
         == [FarmMapLine(52, 50, 48), FarmMapLine(50, 98, 2)]
  {
    var a, b := FarmMapLine(50, 98, 2), FarmMapLine(52, 50, 48);
    assert [a, b][..1] == [a];
    assert [a][..0] == [];
    assert Sorting.InsertionSort([a], SourceLess) == [a];
    assert [a][..|[a]| - 1] == [];
    assert Sorting.Insert(b, [a], SourceLess) == [b, a];
  }

  /** The lookups of the first unit test on the sorted map. */
  lemma ExampleALookups()
    ensures var lines := [FarmMapLine(52, 50, 48), FarmMapLine(50, 98, 2)];
            Lookup(lines, 13) == 13 && Lookup(lines, 14) == 14 && Lookup(lines, 55) == 57 && Lookup(lines, 79) == 81
  {
  }

  /** The ordering of the second unit test: its lines `0 15 37`, `37 52 2`, `39 0 15` are
      stored with `39 0 15` first. */
  lemma ExampleBSorted()
    ensures Sorting.InsertionSort([FarmMapLine(0, 15, 37), FarmMapLine(37, 52, 2), FarmMapLine(39, 0, 15)], SourceLess)
         == [FarmMapLine(39, 0, 15), FarmMapLine(0, 15, 37), FarmMapLine(37, 52, 2)]
  {
    var a, b, c := FarmMapLine(0, 15, 37), FarmMapLine(37, 52, 2), FarmMapLine(39, 0, 15);
    assert [a, b, c][..2] == [a, b] && [a, b][..1] == [a] && [a][..0] == [];
    assert Sorting.InsertionSort([a], SourceLess) == [a];
    assert Sorting.Insert(b, [a], SourceLess) == [a, b];
    assert Sorting.InsertionSort([a, b], SourceLess) == [a, b];
    assert Sorting.Insert(c, [a], SourceLess) == [c, a];
    assert Sorting.Insert(c, [a, b], SourceLess) == [c, a, b];
  }

  /** The lookups of the second unit test, on its rules sorted by source start. */
  lemma ExampleBLookups()
    ensures var lines := [FarmMapLine(39, 0, 15), FarmMapLine(0, 15, 37), FarmMapLine(37, 52, 2)];
            Lookup(lines, 81) == 81 && Lookup(lines, 14) == 53 && Lookup(lines, 57) == 57 && Lookup(lines, 13) == 52
  {
  }

  /** The rules of the third and fourth unit tests, `49 53 8`, `0 11 42`, `42 0 7`, `57 7 4`,
      sorted by source start. */
  const ExampleCRules: seq<FarmMapLine> := [FarmMapLine(42, 0, 7), FarmMapLine(57, 7, 4), FarmMapLine(0, 11, 42), FarmMapLine(49, 53, 8)]

  /** `try_from` stores the lines of the third and fourth unit tests as `ExampleCRules`. */
  lemma ExampleCSorted()
    ensures Sorting.InsertionSort([FarmMapLine(49, 53, 8), FarmMapLine(0, 11, 42), FarmMapLine(42, 0, 7), FarmMapLine(57, 7, 4)], SourceLess)
         == ExampleCRules
  {
    var a, b, c, d := FarmMapLine(49, 53, 8), FarmMapLine(0, 11, 42), FarmMapLine(42, 0, 7), FarmMapLine(57, 7, 4);
    assert [a, b, c, d][..3] == [a, b, c] && [a, b, c][..2] == [a, b] && [a, b][..1] == [a] && [a][..0] == [];
    assert Sorting.InsertionSort([a], SourceLess) == [a];
    assert Sorting.Insert(b, [a], SourceLess) == [b, a];
    assert Sorting.InsertionSort([a, b], SourceLess) == [b, a];
    assert Sorting.Insert(c, [b], SourceLess) == [c, b];
    assert Sorting.Insert(c, [b, a], SourceLess) == [c, b, a];
    assert Sorting.InsertionSort([a, b, c], SourceLess) == [c, b, a];
    assert [c, b, a][..2] == [c, b] && [c, b][..1] == [c];
    assert Sorting.Insert(d, [c], SourceLess) == [c, d];
    assert Sorting.Insert(d, [c, b], SourceLess) == [c, d, b];
    assert Sorting.Insert(d, [c, b, a], SourceLess) == [c, d, b, a];
  }

  lemma ExampleCLookups()
    ensures Lookup(ExampleCRules, 81) == 81 && Lookup(ExampleCRules, 53) == 49
    ensures Lookup(ExampleCRules, 57) == 53 && Lookup(ExampleCRules, 52) == 41
  {
  }

  /** The fourth unit test expects `[(81, 88)]` for the range `(0, 50)`; the code as written
      returns three pieces, the last one inverted. */
  lemma ExampleCRange()
    ensures CorrespondRangeSpec(ExampleCRules, (0, 50)) == [(42, 49), (64, 68), (53, 50)]
    ensures CorrespondRangeSpec(ExampleCRules, (0, 50)) != [(81, 88)]
  {
    var r := ExampleCRules;
    assert r[..1][..0] == [] && r[..2][..1] == r[..1] && r[..3][..2] == r[..2] && r[..4][..3] == r[..3] && r[..4] == r;
    assert RangeStep(r[0], 0, 50).0 == 7 && RangeStep(r[0], 0, 50).1 == [(42, 49)];
    assert RangeStep(r[1], 7, 50).0 == 11 && RangeStep(r[1], 7, 50).1 == [(64, 68)];
    assert RangeStep(r[2], 11, 50).0 == 11 && RangeStep(r[2], 11, 50).1 == [(53, 50)];
    assert RangeStep(r[3], 11, 50).0 == 11 && RangeStep(r[3], 11, 50).1 == [];
    assert RangeFold(r[..1], 0, 50).0 == 7 && RangeFold(r[..1], 0, 50).1 == [(42, 49)];
    assert RangeFold(r[..2], 0, 50).0 == 11 && RangeFold(r[..2], 0, 50).1 == [(42, 49), (64, 68)];
    assert RangeFold(r[..3], 0, 50).0 == 11 && RangeFold(r[..3], 0, 50).1 == [(42, 49), (64, 68), (53, 50)];
    assert RangeFold(r, 0, 50).1 == [(42, 49), (64, 68), (53, 50)];
  }
}
