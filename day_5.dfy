/**
 * tests/day_5.rs: the almanac pipeline. The first line holds the seed numbers after `: `, the
 * next two lines are skipped, and the remaining lines are grouped into stages of rule lines: a
 * line containing `:` is a heading and is skipped, an empty line closes the current stage, and
 * the last stage is closed after the loop. Each stage becomes a `FarmMap`, and a seed (part 1)
 * or a seed range (part 2) is carried through the stages in file order.
 */
module Day5 {
  import opened Results
  import opened Strings
  import opened Utils
  import opened FarmMaps

  // ---------------------------------------------------------------- grouping lines into stages

  /** A line kept as a rule line: neither empty nor a heading. */
  predicate IsRuleLine(line: string) {
    line != "" && !Contains(line, ":")
  }

  /** The stages closed so far and the stage being collected, after the lines `ls`. */
  function Grouping(ls: seq<string>): (seq<seq<string>>, seq<string>)
    decreases |ls|
  {
    if ls == [] then ([], [])
    else
      var g := Grouping(ls[..|ls| - 1]);
      var line := ls[|ls| - 1];
      if Contains(line, ":") then g
      else if line == "" then (g.0 + [g.1], [])
      else (g.0, g.1 + [line])
  }

  /** The stages of the lines: the closed ones and the one still open at the end. */
  function Stages(ls: seq<string>): seq<seq<string>> {
    Grouping(ls).0 + [Grouping(ls).1]
  }

  /** The number of empty lines. */
  function Blanks(ls: seq<string>): nat
    decreases |ls|
  {
    if ls == [] then 0 else Blanks(ls[..|ls| - 1]) + (if ls[|ls| - 1] == "" then 1 else 0)
  }

  /** The rule lines, in order. */
  function RuleLines(ls: seq<string>): seq<string>
    decreases |ls|
  {
    if ls == [] then [] else RuleLines(ls[..|ls| - 1]) + (if IsRuleLine(ls[|ls| - 1]) then [ls[|ls| - 1]] else [])
  }

  function Flatten(xss: seq<seq<string>>): seq<string>
    decreases |xss|
  {
    if xss == [] then [] else Flatten(xss[..|xss| - 1]) + xss[|xss| - 1]
  }

  lemma EmptyHasNoColon()
    ensures !Contains("", ":")
  {
  }

  /** Every empty line closes one stage, and one more stage is closed at the end. */
  lemma {:induction false} StagesCount(ls: seq<string>)
    ensures |Stages(ls)| == Blanks(ls) + 1
    decreases |ls|
  {
    if ls != [] {
      StagesCount(ls[..|ls| - 1]);
      EmptyHasNoColon();
    }
  }

  /** The stages hold exactly the rule lines, in order, and nothing else. */
  lemma {:induction false} StagesKeepRuleLines(ls: seq<string>)
    ensures Flatten(Stages(ls)) == RuleLines(ls)
  {
    GroupingKeepsRuleLines(ls);
    var g := Grouping(ls);
    assert (g.0 + [g.1])[..|g.0|] == g.0;
  }

  lemma {:induction false} GroupingKeepsRuleLines(ls: seq<string>)
    ensures Flatten(Grouping(ls).0) + Grouping(ls).1 == RuleLines(ls)
    decreases |ls|
  {
    if ls != [] {
      var p := ls[..|ls| - 1];
      var line := ls[|ls| - 1];
      var g := Grouping(p);
      GroupingKeepsRuleLines(p);
      EmptyHasNoColon();
      if Contains(line, ":") {
        assert RuleLines(ls) == RuleLines(p) + [];
      } else if line == "" {
        assert (g.0 + [g.1])[..|g.0|] == g.0;
        assert Flatten(g.0 + [g.1]) + [] == Flatten(g.0) + g.1;
        assert RuleLines(ls) == RuleLines(p) + [];
      } else {
        assert Flatten(g.0) + (g.1 + [line]) == (Flatten(g.0) + g.1) + [line];
      }
    }
  }

  // ---------------------------------------------------------------- building the maps

  lemma GroupingStep(ls: seq<string>, k: nat)
    requires k < |ls|
    ensures var before, after := Grouping(ls[..k]), Grouping(ls[..k + 1]);
      && (Contains(ls[k], ":") ==> after.0 == before.0 && after.1 == before.1)
      && (!Contains(ls[k], ":") && ls[k] == "" ==> after.0 == before.0 + [before.1] && after.1 == [])
      && (!Contains(ls[k], ":") && ls[k] != "" ==> after.0 == before.0 && after.1 == before.1 + [ls[k]])
  {
    assert ls[..k + 1][..k] == ls[..k];
  }

  /** `map.try_into().expect(...)` succeeds on the stage. */
  predicate Buildable(texts: seq<string>) {
    RulesIndexable(texts) && Build(texts).Ok?
  }

  predicate BuildableAt(stages: seq<seq<string>>, i: nat)
    requires i < |stages|
  {
    Buildable(stages[i])
  }

  predicate AllBuildable(stages: seq<seq<string>>) {
    forall i: nat | i < |stages| :: BuildableAt(stages, i)
  }

  function BuildAll(stages: seq<seq<string>>): (maps: seq<FarmMap>)
    requires AllBuildable(stages)
    ensures |maps| == |stages|
  {
    seq(|stages|, i requires 0 <= i < |stages| => assert BuildableAt(stages, i); Build(stages[i]).value)
  }

  /** `map.try_into().expect("Should be parsed")`. */
  method BuildStage(stage: seq<string>) returns (m: FarmMap)
    requires Buildable(stage)
    ensures m == Build(stage).value
  {
    var r := TryFrom(stage);
    m := r.value;
  }

  /** The grouping loop: collect rule lines into `stage` and close it at every empty line and
      once more after the last line. */
  method GroupLines(body: seq<string>) returns (stages: seq<seq<string>>)
    ensures stages == Stages(body)
  {
    stages := [];
    var stage: seq<string> := [];
    for k := 0 to |body|
      invariant Grouping(body[..k]).0 == stages && Grouping(body[..k]).1 == stage
    {
      var line := body[k];
      GroupingStep(body, k);
      if Find(line, ":").Some? {
        continue;
      }
      if line == "" {
        stages := stages + [stage];
        stage := [];
        continue;
      }
      stage := stage + [line];
    }
    assert body[..|body|] == body;
    stages := stages + [stage];
  }

  /** The stages of the lines, each turned into a `FarmMap`. */
  method BuildStages(body: seq<string>) returns (farmMaps: seq<FarmMap>)
    requires AllBuildable(Stages(body))
    ensures farmMaps == BuildAll(Stages(body))
  {
    var stages := GroupLines(body);
    farmMaps := BuildEach(stages);
  }

  /** Each closed stage becomes a `FarmMap` through `try_into`. */
  method BuildEach(stages: seq<seq<string>>) returns (farmMaps: seq<FarmMap>)
    requires AllBuildable(stages)
    ensures farmMaps == BuildAll(stages)
  {
    farmMaps := [];
    for k := 0 to |stages|
      invariant |farmMaps| == k
      invariant forall i :: 0 <= i < k ==> BuiltAt(stages, i, farmMaps[i])
    {
      assert BuildableAt(stages, k);
      var m := BuildStage(stages[k]);
      ghost var before := farmMaps;
      farmMaps := farmMaps + [m];
      forall i | 0 <= i < k + 1 ensures BuiltAt(stages, i, farmMaps[i]) {
        if i < k {
          assert farmMaps[i] == before[i];
        }
      }
    }
    BuiltAll(stages, farmMaps);
  }

  /** Stage `i` builds to `m`. */
  predicate BuiltAt(stages: seq<seq<string>>, i: nat, m: FarmMap)
    requires AllBuildable(stages) && i < |stages|
  {
    assert BuildableAt(stages, i);
    m == Build(stages[i]).value
  }

  lemma BuiltAll(stages: seq<seq<string>>, maps: seq<FarmMap>)
    requires AllBuildable(stages) && |maps| == |stages|
    requires forall i :: 0 <= i < |stages| ==> BuiltAt(stages, i, maps[i])
    ensures maps == BuildAll(stages)
  {
  }

  // ---------------------------------------------------------------- the almanac

  /** The seed line exists, holds `: `, and the text after it is numbers. */
  predicate HeaderOk(lines: seq<string>) {
    |lines| >= 1 && Contains(lines[0], ": ") && SplitWhitespaceAndParse(SplitOnce(lines[0], ": ").value.1).Ok?
  }

  function Seeds(lines: seq<string>): seq<nat>
    requires HeaderOk(lines)
  {
    SplitWhitespaceAndParse(SplitOnce(lines[0], ": ").value.1).value
  }

  /** The lines after the seed line and the two skipped ones (`next` on an exhausted iterator
      gives nothing). */
  function Body(lines: seq<string>): (body: seq<string>)
    ensures |lines| <= 3 ==> body == []
    ensures |lines| > 3 ==> |body| == |lines| - 3 && forall i :: 0 <= i < |body| ==> body[i] == lines[i + 3]
  {
    if |lines| <= 3 then [] else lines[3..]
  }

  /** Every `expect` and the stage count assertion of the test pass. */
  predicate AlmanacOk(lines: seq<string>) {
    HeaderOk(lines) && AllBuildable(Stages(Body(lines))) && |Stages(Body(lines))| == 7
  }

  function Maps(lines: seq<string>): seq<FarmMap>
    requires AlmanacOk(lines)
  {
    BuildAll(Stages(Body(lines)))
  }

  // ---------------------------------------------------------------- part 1

  /** The location of a seed: `correspond` of each stage, in order. */
  function Locate(maps: seq<FarmMap>, v: nat): nat
    decreases |maps|
  {
    if maps == [] then v else Locate(maps[1..], Lookup(maps[0].lines, v))
  }

  /** `Iterator::min`. */
  function MinOf(xs: seq<nat>): (m: nat)
    requires |xs| > 0
    ensures m in xs
    ensures forall i :: 0 <= i < |xs| ==> m <= xs[i]
    decreases |xs|
  {
    if |xs| == 1 then xs[0]
    else
      var rest := MinOf(xs[1..]);
      assert forall i :: 1 <= i < |xs| ==> xs[i] == xs[1..][i - 1];
      if xs[0] <= rest then xs[0] else rest
  }

  /** The stage-by-stage loop for one seed. */
  method SeedLocation(maps: seq<FarmMap>, seed: nat) returns (loc: nat)
    ensures loc == Locate(maps, seed)
  {
    loc := seed;
    for k := 0 to |maps|
      invariant Locate(maps, seed) == Locate(maps[k..], loc)
    {
      assert maps[k..][1..] == maps[k + 1..];
      var next := Correspond(maps[k], loc);
      loc := next.value;
    }
  }

  /** The seed numbers after `: ` on the first line. */
  method ReadSeeds(lines: seq<string>) returns (seeds: seq<nat>)
    requires HeaderOk(lines)
    ensures seeds == Seeds(lines)
  {
    var header := SplitOnce(lines[0], ": ").value;
    seeds := SplitWhitespaceAndParse(header.1).value;
  }

  /** The location loop and `min` of part 1. */
  method LowestSeedLocation(maps: seq<FarmMap>, seeds: seq<nat>) returns (answer: nat)
    requires |seeds| > 0
    ensures exists i :: 0 <= i < |seeds| && answer == Locate(maps, seeds[i])
    ensures forall i :: 0 <= i < |seeds| ==> answer <= Locate(maps, seeds[i])
  {
    var locations: seq<nat> := [];
    for k := 0 to |seeds|
      invariant |locations| == k
      invariant forall i :: 0 <= i < k ==> locations[i] == Locate(maps, seeds[i])
    {
      var loc := SeedLocation(maps, seeds[k]);
      locations := locations + [loc];
    }
    answer := MinOf(locations);
  }

  /** `test_day_5_part_1`: the lowest location of any seed. */
  method Part1(lines: seq<string>) returns (answer: nat)
    requires AlmanacOk(lines) && |Seeds(lines)| > 0
    ensures exists i :: 0 <= i < |Seeds(lines)| && answer == Locate(Maps(lines), Seeds(lines)[i])
    ensures forall i :: 0 <= i < |Seeds(lines)| ==> answer <= Locate(Maps(lines), Seeds(lines)[i])
  {
    var seeds := ReadSeeds(lines);
    var farmMaps := BuildStages(Body(lines));
    answer := LowestSeedLocation(farmMaps, seeds);
  }

  // ---------------------------------------------------------------- part 2, as written

  /** The `chunks(2)` loop: `(start, start + length)` for each pair; an odd count would make
      `chunk[1]` panic. */
  function SeedRanges(seeds: seq<nat>): (ranges: seq<Range>)
    requires |seeds| % 2 == 0
    ensures |ranges| == |seeds| / 2
    ensures forall i :: 0 <= i < |ranges| ==> ranges[i] == (seeds[2 * i], seeds[2 * i] + seeds[2 * i + 1])
  {
    seq(|seeds| / 2, i requires 0 <= i < |seeds| / 2 => (seeds[2 * i], seeds[2 * i] + seeds[2 * i + 1]))
  }

  /** The `chunks(2)` loop. */
  method PairUp(seedsAndLen: seq<nat>) returns (seeds: seq<Range>)
    requires |seedsAndLen| % 2 == 0
    ensures seeds == SeedRanges(seedsAndLen)
  {
    seeds := [];
    for c := 0 to |seedsAndLen| / 2
      invariant seeds == SeedRanges(seedsAndLen)[..c]
    {
      seeds := seeds + [(seedsAndLen[2 * c], seedsAndLen[2 * c] + seedsAndLen[2 * c + 1])];
    }
  }

  /** One stage of part 2: the pieces of `correspond_range` of every current piece, in order. */
  function StageRanges(m: FarmMap, locs: seq<Range>): (r: seq<Range>)
    ensures |locs| > 0 ==> |r| > 0
    decreases |locs|
  {
    if locs == [] then []
    else
      CorrespondRangeSize(m.lines, locs[|locs| - 1]);
      StageRanges(m, locs[..|locs| - 1]) + CorrespondRangeSpec(m.lines, locs[|locs| - 1])
  }

  /** The pieces after all stages. */
  function Pipeline(maps: seq<FarmMap>, locs: seq<Range>): (r: seq<Range>)
    ensures |locs| > 0 ==> |r| > 0
    decreases |maps|
  {
    if maps == [] then locs else Pipeline(maps[1..], StageRanges(maps[0], locs))
  }

  /** What part 2 keeps of a seed range: the start of the first piece only. */
  function FirstPieceStart(maps: seq<FarmMap>, range: Range): nat {
    Pipeline(maps, [range])[0].0
  }

  method StageStep(m: FarmMap, locs: seq<Range>) returns (newLoc: seq<Range>)
    ensures newLoc == StageRanges(m, locs)
  {
    newLoc := [];
    for j := 0 to |locs|
      invariant newLoc == StageRanges(m, locs[..j])
    {
      assert locs[..j + 1][..j] == locs[..j];
      var pieces := CorrespondRange(m, locs[j]);
      newLoc := newLoc + pieces.value;
    }
    assert locs[..|locs|] == locs;
  }

  /** The stage-by-stage loop for one seed range: `locs[0]` exists because every stage
      returns at least one piece for each piece it receives. */
  method RangeLocation(maps: seq<FarmMap>, range: Range) returns (start: nat)
    ensures start == FirstPieceStart(maps, range)
  {
    var locs := [range];
    for s := 0 to |maps|
      invariant Pipeline(maps, [range]) == Pipeline(maps[s..], locs)
      invariant |locs| > 0
    {
      assert maps[s..][1..] == maps[s + 1..];
      locs := StageStep(maps[s], locs);
    }
    assert maps[|maps|..] == [];
    start := locs[0].0;
  }

  /** The location loop and `min` of part 2. */
  method LowestFirstPiece(maps: seq<FarmMap>, seeds: seq<Range>) returns (answer: nat)
    requires |seeds| > 0
    ensures exists i :: 0 <= i < |seeds| && answer == FirstPieceStart(maps, seeds[i])
    ensures forall i :: 0 <= i < |seeds| ==> answer <= FirstPieceStart(maps, seeds[i])
  {
    var locations: seq<nat> := [];
    for k := 0 to |seeds|
      invariant |locations| == k
      invariant forall i :: 0 <= i < k ==> locations[i] == FirstPieceStart(maps, seeds[i])
    {
      var loc := RangeLocation(maps, seeds[k]);
      locations := locations + [loc];
    }
    answer := MinOf(locations);
  }

  /** `test_day_5_part_2` as written: each seed range is carried through the stages with
      `correspond_range`, only the first resulting piece is kept, and the answer is the lowest
      start among those pieces. */
  method Part2(lines: seq<string>) returns (answer: nat)
    requires AlmanacOk(lines) && |Seeds(lines)| % 2 == 0 && |Seeds(lines)| > 0
    ensures exists i :: 0 <= i < |SeedRanges(Seeds(lines))|
              && answer == FirstPieceStart(Maps(lines), SeedRanges(Seeds(lines))[i])
    ensures forall i :: 0 <= i < |SeedRanges(Seeds(lines))| ==> answer <= FirstPieceStart(Maps(lines), SeedRanges(Seeds(lines))[i])
  {
    var seedsAndLen := ReadSeeds(lines);
    var seeds := PairUp(seedsAndLen);
    var farmMaps := BuildStages(Body(lines));
    answer := LowestFirstPiece(farmMaps, seeds);
  }

  // ---------------------------------------------------------------- part 2, corrected

  /** One stage with the corrected split. */
  function SplitAll(m: FarmMap, locs: seq<Range>): seq<Range>
    decreases |locs|
  {
    if locs == [] then []
    else SplitAll(m, locs[..|locs| - 1]) + SplitRange(m.lines, locs[|locs| - 1].0, locs[|locs| - 1].1)
  }

  function PipelineSplit(maps: seq<FarmMap>, locs: seq<Range>): seq<Range>
    decreases |maps|
  {
    if maps == [] then locs else PipelineSplit(maps[1..], SplitAll(maps[0], locs))
  }

  /** `Locate` applied to each number. */
  function LocateAll(maps: seq<FarmMap>, vs: seq<nat>): (r: seq<nat>)
    ensures |r| == |vs|
  {
    seq(|vs|, i requires 0 <= i < |vs| => Locate(maps, vs[i]))
  }

  lemma {:induction false} SplitAllImage(m: FarmMap, locs: seq<Range>)
    ensures Points(SplitAll(m, locs)) == LookupAll(m.lines, Points(locs))
    decreases |locs|
  {
    if locs != [] {
      var p := locs[..|locs| - 1];
      var last := locs[|locs| - 1];
      var here := SplitRange(m.lines, last.0, last.1);
      SplitAllImage(m, p);
      SplitRangeImage(m.lines, last.0, last.1);
      PointsOfLast(locs);
      calc {
        Points(SplitAll(m, locs));
        Points(SplitAll(m, p) + here);
        { PointsAppend(SplitAll(m, p), here); }
        Points(SplitAll(m, p)) + Points(here);
        LookupAll(m.lines, Points(p)) + LookupAll(m.lines, Interval(last.0, last.1));
        { LookupAllAppend(m.lines, Points(p), Interval(last.0, last.1)); }
        LookupAll(m.lines, Points(locs));
      }
    }
  }

  lemma PointsOfLast(locs: seq<Range>)
    requires locs != []
    ensures Points(locs) == Points(locs[..|locs| - 1]) + Interval(locs[|locs| - 1].0, locs[|locs| - 1].1)
  {
    var last := locs[|locs| - 1];
    assert locs == locs[..|locs| - 1] + [last];
    PointsAppend(locs[..|locs| - 1], [last]);
    assert Points([last]) == Interval(last.0, last.1) + Points([]);
  }

  lemma {:induction false} SplitAllNonEmpty(m: FarmMap, locs: seq<Range>)
    ensures NonEmptyPieces(SplitAll(m, locs))
    decreases |locs|
  {
    if locs != [] {
      var last := locs[|locs| - 1];
      SplitAllNonEmpty(m, locs[..|locs| - 1]);
      SplitRangeNonEmpty(m.lines, last.0, last.1);
    }
  }

  /** With the corrected split, the numbers of the final pieces are the locations of the
      numbers of the seed ranges, in order; after at least one stage no piece is empty. */
  lemma {:induction false} PipelineSplitImage(maps: seq<FarmMap>, locs: seq<Range>)
    ensures Points(PipelineSplit(maps, locs)) == LocateAll(maps, Points(locs))
    ensures |maps| > 0 ==> NonEmptyPieces(PipelineSplit(maps, locs))
    decreases |maps|
  {
    if maps != [] {
      var next := SplitAll(maps[0], locs);
      SplitAllImage(maps[0], locs);
      SplitAllNonEmpty(maps[0], locs);
      PipelineSplitImage(maps[1..], next);
      if |maps| == 1 {
        assert PipelineSplit(maps[1..], next) == next;
      }
      assert LocateAll(maps[1..], LookupAll(maps[0].lines, Points(locs))) == LocateAll(maps, Points(locs));
    }
  }

  /** Every number of a piece is at least that piece's start, and the start of a non-empty
      piece is one of its numbers. */
  lemma {:induction false} PointsAboveStarts(ps: seq<Range>, i: nat)
    requires i < |Points(ps)|
    ensures exists k :: 0 <= k < |ps| && ps[k].0 <= Points(ps)[i]
    decreases |ps|
  {
    var here := Interval(ps[0].0, ps[0].1);
    if i >= |here| {
      PointsAboveStarts(ps[1..], i - |here|);
      var k :| 0 <= k < |ps[1..]| && ps[1..][k].0 <= Points(ps[1..])[i - |here|];
      assert ps[k + 1].0 <= Points(ps)[i];
    } else {
      assert ps[0].0 <= Points(ps)[i];
    }
  }

  lemma {:induction false} StartIsPoint(ps: seq<Range>, k: nat)
    requires k < |ps| && ps[k].0 < ps[k].1
    ensures ps[k].0 in Points(ps)
    decreases k
  {
    var here := Interval(ps[0].0, ps[0].1);
    if k == 0 {
      assert Points(ps)[0] == here[0];
    } else {
      StartIsPoint(ps[1..], k - 1);
      assert ps[1..][k - 1] == ps[k];
    }
  }

  /** The lowest piece start. */
  function MinStart(ps: seq<Range>): nat
    requires |ps| > 0
  {
    MinOf(seq(|ps|, i requires 0 <= i < |ps| => ps[i].0))
  }

  lemma MinStartIsLowestPoint(ps: seq<Range>)
    requires |ps| > 0 && NonEmptyPieces(ps)
    ensures MinStart(ps) in Points(ps)
    ensures forall i :: 0 <= i < |Points(ps)| ==> MinStart(ps) <= Points(ps)[i]
  {
    var starts := seq(|ps|, i requires 0 <= i < |ps| => ps[i].0);
    var k :| 0 <= k < |ps| && starts[k] == MinStart(ps);
    StartIsPoint(ps, k);
    forall i | 0 <= i < |Points(ps)| ensures MinStart(ps) <= Points(ps)[i] {
      PointsAboveStarts(ps, i);
      var j :| 0 <= j < |ps| && ps[j].0 <= Points(ps)[i];
      assert starts[j] == ps[j].0;
    }
  }

  /** Part 2 as evidently intended: the lowest location of any seed in the seed ranges,
      computed on pieces with the corrected split. */
  function LowestLocation(maps: seq<FarmMap>, ranges: seq<Range>): (r: nat)
    requires |maps| > 0 && |Points(ranges)| > 0
    ensures exists i :: 0 <= i < |Points(ranges)| && r == Locate(maps, Points(ranges)[i])
    ensures forall i :: 0 <= i < |Points(ranges)| ==> r <= Locate(maps, Points(ranges)[i])
  {
    var ps := PipelineSplit(maps, ranges);
    PipelineSplitImage(maps, ranges);
    assert |Points(ps)| > 0;
    assert |ps| > 0;
    MinStartIsLowestPoint(ps);
    assert forall i :: 0 <= i < |Points(ranges)| ==> Points(ps)[i] == Locate(maps, Points(ranges)[i]);
    MinStart(ps)
  }
}
