/**
 * tests/day_6.rs: boat races. Holding the button for `s` milliseconds of a `t` millisecond race
 * gives speed `s` and distance `s * (t - s)`; `calculate` counts the speeds that beat the
 * record, and each part multiplies those counts over the races.
 */
module Day6 {
  import opened Results
  import opened Strings
  import opened Utils

  // ---------------------------------------------------------------- one race

  /** Speed `s` is tried by `calculate` (the range `1..t`) and beats the record `d`. */
  predicate Beats(t: nat, d: nat, s: nat) {
    1 <= s < t && s * (t - s) > d
  }

  /** The speeds below `n` that beat the record. */
  ghost function WinsBelow(t: nat, d: nat, n: nat): set<nat> {
    set s: nat | s < n && Beats(t, d, s)
  }

  /** All the speeds that beat the record. */
  ghost function WinningSpeeds(t: nat, d: nat): set<nat> {
    WinsBelow(t, d, t)
  }

  /** `calculate`: counts, over speeds `1..time`, those whose distance exceeds `distance`. */
  method Calculate(time: nat, distance: nat) returns (times: nat)
    ensures times == |WinningSpeeds(time, distance)|
  {
    times := 0;
    var speed := 1;
    while speed < time
      invariant 1 <= speed && (time >= 1 ==> speed <= time)
      invariant times == |WinsBelow(time, distance, speed)|
    {
      var r := speed * (time - speed);
      ghost var before := WinsBelow(time, distance, speed);
      if r > distance {
        assert WinsBelow(time, distance, speed + 1) == before + {speed};
        times := times + 1;
      } else {
        assert WinsBelow(time, distance, speed + 1) == before;
      }
      speed := speed + 1;
    }
    if time >= 1 {
      assert speed == time;
    } else {
      assert WinsBelow(time, distance, speed) == {} == WinningSpeeds(time, distance);
    }
  }

  /** At most `n - 1` of the speeds below `n` try the button at all. */
  lemma {:induction false} WinsBelowCount(t: nat, d: nat, n: nat)
    ensures n <= 1 ==> WinsBelow(t, d, n) == {}
    ensures n >= 1 ==> |WinsBelow(t, d, n)| <= n - 1
  {
    if n > 1 {
      WinsBelowCount(t, d, n - 1);
      assert WinsBelow(t, d, n) <= WinsBelow(t, d, n - 1) + {n - 1};
      SubsetCount(WinsBelow(t, d, n), WinsBelow(t, d, n - 1) + {n - 1});
    } else {
      assert forall s: nat :: s < n ==> !Beats(t, d, s);
    }
  }

  lemma SubsetCount<T>(a: set<T>, b: set<T>)
    requires a <= b
    ensures |a| <= |b|
  {
    assert b == a + (b - a);
  }

  /** A race of at most one millisecond has no winning speed, and a longer one at most
      `t - 1`. */
  lemma WinsBounded(t: nat, d: nat)
    ensures t <= 1 ==> |WinningSpeeds(t, d)| == 0
    ensures t >= 1 ==> |WinningSpeeds(t, d)| <= t - 1
  {
    WinsBelowCount(t, d, t);
  }

  /** Holding for `s` or for `t - s` covers the same distance, so the winning speeds are
      symmetric about `t / 2`. */
  lemma WinsSymmetric(t: nat, d: nat, s: nat)
    requires s <= t
    ensures s in WinningSpeeds(t, d) <==> (t - s) in WinningSpeeds(t, d)
  {
    assert s * (t - s) == (t - s) * (t - (t - s));
  }

  /** A longer record can only lose winning speeds. */
  lemma WinsShrink(t: nat, d: nat, e: nat)
    requires d <= e
    ensures WinningSpeeds(t, e) <= WinningSpeeds(t, d)
    ensures |WinningSpeeds(t, e)| <= |WinningSpeeds(t, d)|
  {
    SubsetCount(WinningSpeeds(t, e), WinningSpeeds(t, d));
  }

  /** The worked example race: 7 milliseconds against a record of 9 is won by speeds 2 to 5. */
  lemma ExampleRace()
    ensures WinningSpeeds(7, 9) == {2, 3, 4, 5}
  {
    forall s: nat ensures s in WinningSpeeds(7, 9) <==> s in {2, 3, 4, 5} {
      if s < 7 {
        assert s == 0 || s == 1 || s == 2 || s == 3 || s == 4 || s == 5 || s == 6;
      }
    }
  }

  // ---------------------------------------------------------------- all races

  /** Number of winning speeds of race `i`. */
  ghost function RaceCount(times: seq<nat>, distances: seq<nat>, i: nat): nat
    requires i < |times| <= |distances|
  {
    |WinningSpeeds(times[i], distances[i])|
  }

  /** Product of the counts of the first `n` races. */
  ghost function ProductUpTo(times: seq<nat>, distances: seq<nat>, n: nat): nat
    requires n <= |times| <= |distances|
  {
    if n == 0 then 1 else ProductUpTo(times, distances, n - 1) * RaceCount(times, distances, n - 1)
  }

  /** The fold `result = result * calculate(time, distances[i])` from 1; `distances[i]` panics
      when there are fewer distances than times. */
  method RaceProduct(times: seq<nat>, distances: seq<nat>) returns (result: nat)
    requires |times| <= |distances|
    ensures result == ProductUpTo(times, distances, |times|)
  {
    result := 1;
    for i := 0 to |times|
      invariant result == ProductUpTo(times, distances, i)
    {
      var distance := distances[i];
      var count := Calculate(times[i], distance);
      result := result * count;
    }
  }

  /** The product is 0 exactly when some race cannot be won. */
  lemma {:induction false} ProductZero(times: seq<nat>, distances: seq<nat>, n: nat)
    requires n <= |times| <= |distances|
    ensures ProductUpTo(times, distances, n) == 0 <==> exists i :: 0 <= i < n && RaceCount(times, distances, i) == 0
  {
    if n > 0 {
      ProductZero(times, distances, n - 1);
      var p := ProductUpTo(times, distances, n - 1);
      var c := RaceCount(times, distances, n - 1);
      assert p * c == 0 <==> p == 0 || c == 0;
    }
  }

  // ---------------------------------------------------------------- reading the sheet

  /** What follows ": " on a line, as each part prepares it: part 1 trims it, part 2 deletes its
      spaces so that the numbers run together. */
  function RaceText(line: string, merge: bool): string
    requires Contains(line, ": ")
  {
    var values := SplitOnce(line, ": ").value.1;
    if merge then Remove(values, ' ') else Trim(values)
  }

  /** `split_once(": ").expect(..)` and `split_whitespace_and_parse_to_usize(..).expect(..)`
      both succeed on the line. */
  predicate RaceLine(line: string, merge: bool) {
    Contains(line, ": ") && SplitWhitespaceAndParse(RaceText(line, merge)).Ok?
  }

  /** The numbers of a line. */
  function RaceNumbers(line: string, merge: bool): seq<nat>
    requires RaceLine(line, merge)
  {
    SplitWhitespaceAndParse(RaceText(line, merge)).value
  }

  /** Trimming in part 1 keeps the tokens: a line reads as the numbers after its ": ". */
  lemma TrimmedNumbers(line: string)
    requires Contains(line, ": ")
    ensures SplitWhitespaceAndParse(RaceText(line, false)) == SplitWhitespaceAndParse(SplitOnce(line, ": ").value.1)
  {
    TrimKeepsTokens(SplitOnce(line, ": ").value.1);
  }

  /** In part 2 a line of digits and spaces reads as the single number its digits spell, and
      fails to read exactly when that number does not fit in a `usize`. */
  lemma MergedNumber(line: string)
    requires Contains(line, ": ")
    requires var v := SplitOnce(line, ": ").value.1;
      (forall i :: 0 <= i < |v| ==> v[i] == ' ' || IsDigit(v[i])) && exists i :: 0 <= i < |v| && IsDigit(v[i])
    ensures AllDigits(RaceText(line, true)) && RaceText(line, true) != []
    ensures RaceLine(line, true) <==> DecimalValue(RaceText(line, true)) < USIZE_LIMIT
    ensures RaceLine(line, true) ==> RaceNumbers(line, true) == [DecimalValue(RaceText(line, true))]
  {
    var v := SplitOnce(line, ": ").value.1;
    RemoveFromDigits(v, ' ');
    var ds := RaceText(line, true);
    assert ds != [];
    DigitsAreNotWhitespace(ds);
    SingleToken(ds);
    ParseDigits(ds);
  }

  /** The per-line loop: each line is read for its numbers, in order. */
  method ParseSheet(lines: seq<string>, merge: bool) returns (parsed: seq<seq<nat>>)
    requires forall i :: 0 <= i < |lines| ==> RaceLine(lines[i], merge)
    ensures |parsed| == |lines|
    ensures forall i :: 0 <= i < |lines| ==> parsed[i] == RaceNumbers(lines[i], merge)
  {
    parsed := [];
    for i := 0 to |lines|
      invariant |parsed| == i
      invariant forall j :: 0 <= j < i ==> parsed[j] == RaceNumbers(lines[j], merge)
    {
      var numbers := RaceNumbers(lines[i], merge);
      ghost var before := parsed;
      parsed := parsed + [numbers];
      forall j | 0 <= j < i + 1 ensures parsed[j] == RaceNumbers(lines[j], merge) {
        if j < i {
          assert parsed[j] == before[j];
        }
      }
    }
  }

  /** The sheet can be read: every line has its numbers, there is a times and a distances line,
      and no fewer distances than times. */
  predicate Sheet(lines: seq<string>, merge: bool) {
    && |lines| >= 2
    && (forall i :: 0 <= i < |lines| ==> RaceLine(lines[i], merge))
    && |RaceNumbers(lines[0], merge)| <= |RaceNumbers(lines[1], merge)|
  }

  /** `test_day_6_part_1` (`merge` false) and `test_day_6_part_2` (`merge` true): the product of
      the winning counts over the races, with the first line as times and the second as
      distances. */
  method Part(lines: seq<string>, merge: bool) returns (result: nat)
    requires Sheet(lines, merge)
    ensures result == ProductUpTo(RaceNumbers(lines[0], merge), RaceNumbers(lines[1], merge), |RaceNumbers(lines[0], merge)|)
  {
    var parsed := ParseSheet(lines, merge);
    var times := parsed[0];
    var distances := parsed[1];
    result := RaceProduct(times, distances);
  }
}
