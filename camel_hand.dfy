/**
 * src/camel_hand.rs: Camel Cards hands. A hand is a line `<cards> <bid>`; each card has a
 * value, the hand's type comes from how often each card occurs, and hands are ordered by
 * type and then by their cards.
 */
module CamelHands {
  import opened Results
  import opened Strings
  import Sorting

  // ---------------------------------------------------------------- data model

  /** `CamelCard(char, usize)`: the symbol and its value. */
  datatype CamelCard = CamelCard(symbol: char, value: nat)

  /** `CamelHandType`, in declaration order: the derived order makes `FiveOfAKind` least. */
  datatype CamelHandType = FiveOfAKind | FourOfAKind | FullHouse | ThreeOfAKind | TwoPair | OnePair | HighCard

  datatype CamelHand = CamelHand(cards: seq<CamelCard>, firstCard: CamelCard, bid: nat, strength: CamelHandType)

  /** `CamelHandParseError`. `TryFromIntError` is declared but never produced: a decimal
      digit always fits in a `usize`. */
  datatype CamelHandParseError = InvalidInputError | ParseIntError(cause: Strings.ParseIntError) | TryFromIntError

  // ---------------------------------------------------------------- cards

  /** `CamelCard::try_from(char)`. */
  function CardFromChar(c: char): (r: Result<CamelCard, CamelHandParseError>)
    ensures r.Ok? <==> IsDigit(c) || c in "TJQKA"
    ensures r.Err? ==> r.error == InvalidInputError
    ensures r.Ok? ==> r.value.symbol == c && r.value.value <= 14
    ensures IsDigit(c) ==> r == Ok(CamelCard(c, DigitValue(c)))
  {
    if IsDigit(c) then Ok(CamelCard(c, DigitValue(c)))
    else if c == 'T' then Ok(CamelCard(c, 10))
    else if c == 'J' then Ok(CamelCard(c, 11))
    else if c == 'Q' then Ok(CamelCard(c, 12))
    else if c == 'K' then Ok(CamelCard(c, 13))
    else if c == 'A' then Ok(CamelCard(c, 14))
    else Err(InvalidInputError)
  }

  /** The symbol of the card worth `v`. */
  function CardSymbol(v: nat): (c: char)
    requires v <= 14
  {
    if v <= 9 then DigitChar(v) else "TJQKA"[v - 10]
  }

  /** Every value from 0 to 14 has exactly one symbol, so comparing cards by value alone
      (`CamelCard::partial_cmp`) treats two cards as equal only when they are the same card. */
  lemma CardValues(c: char, v: nat)
    ensures (v <= 14 && c == CardSymbol(v)) <==> CardFromChar(c) == Ok(CamelCard(c, v))
  {
  }

  /** `Vec<CamelCard>` compared element by element, each by value. */
  function Values(cards: seq<CamelCard>): (vs: seq<nat>)
    ensures |vs| == |cards|
    ensures forall i :: 0 <= i < |cards| ==> vs[i] == cards[i].value
  {
    seq(|cards|, i requires 0 <= i < |cards| => cards[i].value)
  }

  // ---------------------------------------------------------------- counting

  /** `cards.iter().filter(|c| c.0 == symbol).count()`. */
  function Occurrences(cards: seq<CamelCard>, symbol: char): (n: nat)
    ensures n <= |cards|
  {
    if cards == [] then 0
    else (if cards[0].symbol == symbol then 1 else 0) + Occurrences(cards[1..], symbol)
  }

  /** The distinct symbols of `cards`, in order of first occurrence: the keys of
      `card_count`, in the order the loop inserts them. */
  function DistinctSymbols(cards: seq<CamelCard>): seq<char>
  {
    if cards == [] then []
    else
      var p := DistinctSymbols(cards[..|cards| - 1]);
      var c := cards[|cards| - 1].symbol;
      if c in p then p else p + [c]
  }

  /** Each symbol of the hand once, and nothing else. */
  lemma {:induction false} DistinctSymbolsSpec(cards: seq<CamelCard>)
    ensures forall i, j :: 0 <= i < j < |DistinctSymbols(cards)| ==> DistinctSymbols(cards)[i] != DistinctSymbols(cards)[j]
    ensures forall c :: c in DistinctSymbols(cards) <==> exists k :: 0 <= k < |cards| && cards[k].symbol == c
  {
    if cards != [] {
      var front := cards[..|cards| - 1];
      var p := DistinctSymbols(front);
      var last := cards[|cards| - 1].symbol;
      DistinctSymbolsSpec(front);
      assert forall k :: 0 <= k < |front| ==> front[k] == cards[k];
      forall c ensures c in DistinctSymbols(cards) <==> exists k :: 0 <= k < |cards| && cards[k].symbol == c {
        if c in DistinctSymbols(cards) && c != last {
          assert c in p;
          var k :| 0 <= k < |front| && front[k].symbol == c;
          assert cards[k].symbol == c;
        }
      }
    }
  }

  /** The occurrence count of each distinct symbol: the values of `card_count`. */
  function Counts(cards: seq<CamelCard>): (cs: seq<nat>)
    ensures |cs| == |DistinctSymbols(cards)|
  {
    var ds := DistinctSymbols(cards);
    seq(|ds|, i requires 0 <= i < |ds| => Occurrences(cards, ds[i]))
  }

  /** The order `sort_by(|a, b| b.0.cmp(&a.0))` sorts by: larger counts first. */
  predicate MoreFrequent(a: nat, b: nat) {
    a > b
  }

  lemma MoreFrequentIsStrictWeakOrder()
    ensures Sorting.StrictWeakOrder(MoreFrequent)
  {
  }

  /** `counted_cards` after the sort: the counts, largest first. */
  function SortedCounts(cards: seq<CamelCard>): (cs: seq<nat>)
    ensures |cs| == |DistinctSymbols(cards)|
  {
    Sorting.InsertionSort(Counts(cards), MoreFrequent)
  }

  /** The `match` on the sorted counts; `None` where no arm matches. */
  function Classify(cs: seq<nat>): (t: Option<CamelHandType>)
    ensures t.Some? <==> cs != [] && 1 <= cs[0] <= 5
  {
    if cs == [] then None
    else if cs[0] == 5 then Some(FiveOfAKind)
    else if cs[0] == 4 then Some(FourOfAKind)
    else if cs[0] == 3 && |cs| >= 2 && cs[1] == 2 then Some(FullHouse)
    else if cs[0] == 3 then Some(ThreeOfAKind)
    else if cs[0] == 2 && |cs| >= 2 && cs[1] == 2 then Some(TwoPair)
    else if cs[0] == 2 then Some(OnePair)
    else if cs[0] == 1 then Some(HighCard)
    else None
  }

  /** The type of a hand, or `None` when its counts match no arm. */
  function HandTypeOf(cards: seq<CamelCard>): Option<CamelHandType> {
    Classify(SortedCounts(cards))
  }

  // ---------------------------------------------------------------- facts about the counts

  lemma {:induction false} OccurrencesPositive(cards: seq<CamelCard>, k: nat)
    requires k < |cards|
    ensures Occurrences(cards, cards[k].symbol) >= 1
  {
    if k > 0 {
      OccurrencesPositive(cards[1..], k - 1);
    }
  }

  /** A symbol that occurs as often as there are cards is every card's symbol. */
  lemma {:induction false} OccurrencesAll(cards: seq<CamelCard>, c: char, k: nat)
    requires k < |cards| && Occurrences(cards, c) == |cards|
    ensures cards[k].symbol == c
  {
    if k > 0 {
      OccurrencesAll(cards[1..], c, k - 1);
    }
  }

  /** Two different symbols share the cards between them. */
  lemma {:induction false} OccurrencesOfTwo(cards: seq<CamelCard>, c: char, d: char)
    requires c != d
    ensures Occurrences(cards, c) + Occurrences(cards, d) <= |cards|
  {
    if cards != [] {
      OccurrencesOfTwo(cards[1..], c, d);
    }
  }

  /** The first sorted count is the largest number of times any symbol occurs. */
  lemma LargestCount(cards: seq<CamelCard>)
    requires cards != []
    ensures SortedCounts(cards) != []
    ensures forall k :: 0 <= k < |cards| ==> Occurrences(cards, cards[k].symbol) <= SortedCounts(cards)[0]
    ensures exists k :: 0 <= k < |cards| && Occurrences(cards, cards[k].symbol) == SortedCounts(cards)[0]
  {
    var ds := DistinctSymbols(cards);
    var cs := Counts(cards);
    var sc := SortedCounts(cards);
    DistinctSymbolsSpec(cards);
    assert cards[0].symbol in ds;
    MoreFrequentIsStrictWeakOrder();
    Sorting.InsertionSortSorted(cs, MoreFrequent);
    Sorting.InsertionSortPermutes(cs, MoreFrequent);
    forall k | 0 <= k < |cards| ensures Occurrences(cards, cards[k].symbol) <= sc[0] {
      assert cards[k].symbol in ds;
      var i :| 0 <= i < |ds| && ds[i] == cards[k].symbol;
      assert cs[i] in multiset(sc);
      var j :| 0 <= j < |sc| && sc[j] == cs[i];
      if j > 0 {
        assert !MoreFrequent(sc[j], sc[0]);
      }
    }
    assert sc[0] in multiset(cs);
    var i :| 0 <= i < |cs| && cs[i] == sc[0];
    assert ds[i] in ds;
    var k :| 0 <= k < |cards| && cards[k].symbol == ds[i];
    assert Occurrences(cards, cards[k].symbol) == sc[0];
  }

  /** Every non-empty hand of at most five cards has a type. */
  lemma SmallHandHasType(cards: seq<CamelCard>)
    requires 1 <= |cards| <= 5
    ensures HandTypeOf(cards).Some?
  {
    LargestCount(cards);
    var k :| 0 <= k < |cards| && Occurrences(cards, cards[k].symbol) == SortedCounts(cards)[0];
    OccurrencesPositive(cards, k);
  }

  /** A symbol occurring more than five times leaves the counts matching no arm. */
  lemma TooManyAlike(cards: seq<CamelCard>, k: nat)
    requires k < |cards| && Occurrences(cards, cards[k].symbol) > 5
    ensures HandTypeOf(cards) == None
  {
    LargestCount(cards);
  }

  /** The type of a five-card hand in terms of how often its symbols occur. */
  lemma FiveCardTypes(cards: seq<CamelCard>)
    requires |cards| == 5
    ensures HandTypeOf(cards) == Some(FiveOfAKind)
            <==> exists k :: 0 <= k < 5 && Occurrences(cards, cards[k].symbol) == 5
    ensures HandTypeOf(cards) == Some(FourOfAKind)
            <==> exists k :: 0 <= k < 5 && Occurrences(cards, cards[k].symbol) == 4
    ensures HandTypeOf(cards) in {Some(FullHouse), Some(ThreeOfAKind)}
            <==> exists k :: 0 <= k < 5 && Occurrences(cards, cards[k].symbol) == 3
    ensures HandTypeOf(cards) in {Some(TwoPair), Some(OnePair)}
            <==> (exists k :: 0 <= k < 5 && Occurrences(cards, cards[k].symbol) == 2)
                 && forall k :: 0 <= k < 5 ==> Occurrences(cards, cards[k].symbol) <= 2
    ensures HandTypeOf(cards) == Some(HighCard)
            <==> forall k :: 0 <= k < 5 ==> Occurrences(cards, cards[k].symbol) == 1
  {
    LargestCount(cards);
    var m := SortedCounts(cards)[0];
    var top :| 0 <= top < 5 && Occurrences(cards, cards[top].symbol) == m;
    OccurrencesPositive(cards, top);
    // Any symbol other than the most frequent one occurs at most `5 - m` times.
    forall k | 0 <= k < 5 && cards[k].symbol != cards[top].symbol
      ensures Occurrences(cards, cards[k].symbol) <= 5 - m
    {
      OccurrencesOfTwo(cards, cards[k].symbol, cards[top].symbol);
    }
    forall k | 0 <= k < 5 ensures Occurrences(cards, cards[k].symbol) >= 1 {
      OccurrencesPositive(cards, k);
    }
  }

  // ---------------------------------------------------------------- from_str

  /** `CamelHand::from_str`: split at the first space, read every character as a card,
      take the first card, count the symbols, then parse the bid before the type is
      checked, so a bad bid wins over counts that match no arm. */
  function ParseHand(s: string): (r: Result<CamelHand, CamelHandParseError>)
    ensures !Contains(s, " ") ==> r == Err(InvalidInputError)
    ensures r.Ok? ==> SplitOnce(s, " ").Some?
    ensures r.Ok? ==> Collect(SplitOnce(s, " ").value.0, CardFromChar) == Ok(r.value.cards)
    ensures r.Ok? ==> ParseUsize(SplitOnce(s, " ").value.1) == Ok(r.value.bid)
    ensures r.Ok? ==> r.value.cards != [] && r.value.firstCard == r.value.cards[0]
    ensures r.Ok? ==> HandTypeOf(r.value.cards) == Some(r.value.strength)
  {
    match SplitOnce(s, " ")
    case None => Err(InvalidInputError)
    case Some((hand, bid)) =>
      var cards :- Collect(hand, CardFromChar);
      if cards == [] then Err(InvalidInputError)
      else
        var bidValue :- ParseUsize(bid).MapError(e => ParseIntError(e));
        match HandTypeOf(cards)
        case None => Err(InvalidInputError)
        case Some(strength) => Ok(CamelHand(cards, cards[0], bidValue, strength))
  }

  /** The symbols of the cards, as they are written in a hand. */
  function Symbols(cards: seq<CamelCard>): (s: string)
    ensures |s| == |cards|
    ensures forall i :: 0 <= i < |cards| ==> s[i] == cards[i].symbol
  {
    seq(|cards|, i requires 0 <= i < |cards| => cards[i].symbol)
  }

  /** A card is never written with a space. */
  predicate ValidCards(cards: seq<CamelCard>) {
    forall i :: 0 <= i < |cards| ==> CardFromChar(cards[i].symbol) == Ok(cards[i])
  }

  lemma ValidSymbols(cards: seq<CamelCard>)
    requires ValidCards(cards)
    ensures Avoids(Symbols(cards), ' ')
    ensures Collect(Symbols(cards), CardFromChar) == Ok(cards)
  {
    var s := Symbols(cards);
    assert forall i :: 0 <= i < |s| ==> CardFromChar(s[i]) == Ok(cards[i]);
    var r := Collect(s, CardFromChar);
    assert r.Ok?;
    assert r.value == cards;
  }

  /** A line known to be the written form of these cards and this bid. */
  lemma ValidLine(cards: seq<CamelCard>, bid: nat, s: string)
    requires ValidCards(cards) && HandTypeOf(cards).Some? && cards != []
    requires bid < USIZE_LIMIT && s == Symbols(cards) + " " + NatToString(bid)
    ensures ParseHand(s) == Ok(CamelHand(cards, cards[0], bid, HandTypeOf(cards).value))
  {
    ParseFormattedHand(cards, bid);
  }

  /** A hand written as its symbols, a space and its bid reads back as that hand. */
  lemma ParseFormattedHand(cards: seq<CamelCard>, bid: nat)
    requires ValidCards(cards) && HandTypeOf(cards).Some? && cards != [] && bid < USIZE_LIMIT
    ensures ParseHand(Symbols(cards) + " " + NatToString(bid))
            == Ok(CamelHand(cards, cards[0], bid, HandTypeOf(cards).value))
  {
    ValidSymbols(cards);
    SplitOnceJoined(Symbols(cards), " ", NatToString(bid));
    ParseFormatted(bid);
  }

  /** Nothing before the space: no first card. */
  lemma EmptyHandFails(bid: string)
    ensures ParseHand(" " + bid) == Err(InvalidInputError)
  {
    SplitOnceJoined("", " ", bid);
  }

  /** A bid that is not a number fails, whatever the cards' counts. */
  lemma BadBidFails(cards: seq<CamelCard>, bid: string)
    requires ValidCards(cards) && cards != [] && ParseUsize(bid).Err?
    ensures ParseHand(Symbols(cards) + " " + bid) == Err(ParseIntError(ParseUsize(bid).error))
  {
    ValidSymbols(cards);
    SplitOnceJoined(Symbols(cards), " ", bid);
  }

  /** A symbol occurring six times or more makes an otherwise well-formed line fail. */
  lemma SixAlikeFails(cards: seq<CamelCard>, k: nat, bid: nat)
    requires ValidCards(cards) && k < |cards| && Occurrences(cards, cards[k].symbol) > 5 && bid < USIZE_LIMIT
    ensures ParseHand(Symbols(cards) + " " + NatToString(bid)) == Err(InvalidInputError)
  {
    TooManyAlike(cards, k);
    ValidSymbols(cards);
    SplitOnceJoined(Symbols(cards), " ", NatToString(bid));
    ParseFormatted(bid);
  }

  /** The loop over the cards that fills `card_count` with each symbol's count, then the
      in-place sort of the counts and the `match` on them. */
  method HandStrength(cards: seq<CamelCard>) returns (strength: Option<CamelHandType>)
    ensures strength == HandTypeOf(cards)
  {
    var cardCount: map<char, nat> := map[];
    var keys: seq<char> := [];  // the iteration order of `card_count`, taken as insertion order
    for i := 0 to |cards|
      invariant keys == DistinctSymbols(cards[..i])
      invariant forall c :: c in cardCount <==> c in keys
      invariant forall c :: c in cardCount ==> cardCount[c] == Occurrences(cards, c)
    {
      assert cards[..i + 1][..i] == cards[..i];
      var symbol := cards[i].symbol;
      if symbol in cardCount {
        continue;
      }
      cardCount := cardCount[symbol := Occurrences(cards, symbol)];
      keys := keys + [symbol];
    }
    assert cards[..|cards|] == cards;
    var countedCards := new nat[|keys|](j requires 0 <= j < |keys| => cardCount[keys[j]]);
    assert countedCards[..] == Counts(cards);
    Sorting.InsertionSortInPlace(countedCards, MoreFrequent);
    strength := Classify(countedCards[..]);
  }

  /** `CamelHand::from_str` step by step. */
  method FromStr(s: string) returns (r: Result<CamelHand, CamelHandParseError>)
    ensures r == ParseHand(s)
  {
    var parts := SplitOnce(s, " ");
    if parts.None? {
      return Err(InvalidInputError);
    }
    var (hand, bid) := parts.value;
    var cards := Collect(hand, CardFromChar);
    if cards.Err? {
      return Err(cards.error);
    }
    if cards.value == [] {
      return Err(InvalidInputError);
    }
    var strength := HandStrength(cards.value);
    var bidValue := ParseUsize(bid);
    if bidValue.Err? {
      return Err(ParseIntError(bidValue.error));
    }
    if strength.None? {
      return Err(InvalidInputError);
    }
    return Ok(CamelHand(cards.value, cards.value[0], bidValue.value, strength.value));
  }

  // ---------------------------------------------------------------- ordering

  datatype Ordering = Less | Equal | Greater

  function Reverse(o: Ordering): Ordering {
    match o
    case Less => Greater
    case Equal => Equal
    case Greater => Less
  }

  function CompareNat(a: nat, b: nat): Ordering {
    if a < b then Less else if a == b then Equal else Greater
  }

  /** Position in the declaration, which the derived `PartialOrd` compares. */
  function Rank(t: CamelHandType): nat {
    match t
    case FiveOfAKind => 0
    case FourOfAKind => 1
    case FullHouse => 2
    case ThreeOfAKind => 3
    case TwoPair => 4
    case OnePair => 5
    case HighCard => 6
  }

  /** `Vec::partial_cmp` on card values: the first difference decides, and a proper prefix
      is less. */
  function CompareValues(a: seq<nat>, b: seq<nat>): Ordering {
    if a == [] then (if b == [] then Equal else Less)
    else if b == [] then Greater
    else if a[0] != b[0] then CompareNat(a[0], b[0])
    else CompareValues(a[1..], b[1..])
  }

  /** `CamelHand::partial_cmp`: the type first; between equal types the cards compare with
      the two hands swapped. */
  function CompareHands(x: CamelHand, y: CamelHand): Ordering {
    var result := CompareNat(Rank(x.strength), Rank(y.strength));
    if result == Equal then CompareValues(Values(y.cards), Values(x.cards)) else result
  }

  /** `PartialOrd::lt`, which `sort` uses. */
  predicate HandLess(x: CamelHand, y: CamelHand) {
    CompareHands(x, y) == Less
  }

  lemma {:induction false} CompareValuesEqual(a: seq<nat>, b: seq<nat>)
    ensures CompareValues(a, b) == Equal <==> a == b
  {
    if a != [] && b != [] && a[0] == b[0] {
      CompareValuesEqual(a[1..], b[1..]);
      assert a == [a[0]] + a[1..] && b == [b[0]] + b[1..];
    }
  }

  lemma {:induction false} CompareValuesFlip(a: seq<nat>, b: seq<nat>)
    ensures CompareValues(b, a) == Reverse(CompareValues(a, b))
  {
    if a != [] && b != [] && a[0] == b[0] {
      CompareValuesFlip(a[1..], b[1..]);
    }
  }

  lemma {:induction false} CompareValuesTransitive(a: seq<nat>, b: seq<nat>, c: seq<nat>)
    requires CompareValues(a, b) == Less && CompareValues(b, c) == Less
    ensures CompareValues(a, c) == Less
  {
    if a != [] && a[0] == b[0] && b[0] == c[0] {
      CompareValuesTransitive(a[1..], b[1..], c[1..]);
    }
  }

  /** Hands compare as the pair (type, cards reversed), a total order on those keys. */
  lemma HandLessIsStrictWeakOrder()
    ensures Sorting.StrictWeakOrder(HandLess)
  {
    forall a ensures !HandLess(a, a) {
      CompareValuesEqual(Values(a.cards), Values(a.cards));
    }
    forall a, b, c | HandLess(a, b) && HandLess(b, c) ensures HandLess(a, c) {
      if Rank(a.strength) == Rank(b.strength) == Rank(c.strength) {
        CompareValuesTransitive(Values(c.cards), Values(b.cards), Values(a.cards));
      }
    }
    forall a, b, c | HandLess(a, c) ensures HandLess(a, b) || HandLess(b, c) {
      if Rank(a.strength) == Rank(b.strength) == Rank(c.strength) {
        var va, vb, vc := Values(a.cards), Values(b.cards), Values(c.cards);
        CompareValuesFlip(vb, va);
        CompareValuesFlip(vc, vb);
        CompareValuesEqual(vb, va);
        CompareValuesEqual(vc, vb);
        if CompareValues(vb, va) != Less && va != vb {
          CompareValuesTransitive(vc, va, vb);
        }
      }
    }
  }

  /** Stronger types come first; between equal types, the hand whose cards are higher at the
      first difference comes first. */
  lemma HandOrder(x: CamelHand, y: CamelHand)
    ensures HandLess(x, y) <==> Rank(x.strength) < Rank(y.strength)
                                || (Rank(x.strength) == Rank(y.strength) && LexBelow(Values(y.cards), Values(x.cards)))
  {
    if Rank(x.strength) == Rank(y.strength) {
      FirstDifference(Values(y.cards), Values(x.cards));
    }
  }

  /** `a` is below `b` in the lexicographic order: smaller at the first difference, or a
      proper prefix. */
  ghost predicate LexBelow(a: seq<nat>, b: seq<nat>) {
    || (exists k :: 0 <= k < |a| && k < |b| && a[..k] == b[..k] && a[k] < b[k])
    || (|a| < |b| && a == b[..|a|])
  }

  lemma {:induction false} CompareAtDifference(a: seq<nat>, b: seq<nat>, k: nat)
    requires k < |a| && k < |b| && a[..k] == b[..k] && a[k] < b[k]
    ensures CompareValues(a, b) == Less
  {
    if k > 0 {
      assert a[0] == a[..k][0] && b[0] == b[..k][0];
      assert a[1..][..k - 1] == a[..k][1..] && b[1..][..k - 1] == b[..k][1..];
      CompareAtDifference(a[1..], b[1..], k - 1);
    }
  }

  lemma {:induction false} CompareOfPrefix(a: seq<nat>, b: seq<nat>)
    requires |a| < |b| && a == b[..|a|]
    ensures CompareValues(a, b) == Less
  {
    if a != [] {
      assert a[0] == b[0];
      assert a[1..] == b[1..][..|a| - 1];
      CompareOfPrefix(a[1..], b[1..]);
    }
  }

  lemma {:induction false} CompareLessBelow(a: seq<nat>, b: seq<nat>)
    requires CompareValues(a, b) == Less
    ensures LexBelow(a, b)
  {
    if a == [] {
      assert a == b[..0];
    } else if a[0] != b[0] {
      assert a[..0] == b[..0];
    } else {
      CompareLessBelow(a[1..], b[1..]);
      if exists k :: 0 <= k < |a[1..]| && k < |b[1..]| && a[1..][..k] == b[1..][..k] && a[1..][k] < b[1..][k] {
        var k :| 0 <= k < |a[1..]| && k < |b[1..]| && a[1..][..k] == b[1..][..k] && a[1..][k] < b[1..][k];
        assert a[..k + 1] == [a[0]] + a[1..][..k] && b[..k + 1] == [b[0]] + b[1..][..k];
        assert a[k + 1] < b[k + 1];
      } else {
        assert a == [a[0]] + a[1..] && b[..|a|] == [b[0]] + b[1..][..|a| - 1];
      }
    }
  }

  /** `CompareValues(a, b) == Less` is exactly the lexicographic order. */
  lemma FirstDifference(a: seq<nat>, b: seq<nat>)
    ensures CompareValues(a, b) == Less <==> LexBelow(a, b)
  {
    if CompareValues(a, b) == Less {
      CompareLessBelow(a, b);
    } else if exists k :: 0 <= k < |a| && k < |b| && a[..k] == b[..k] && a[k] < b[k] {
      var k :| 0 <= k < |a| && k < |b| && a[..k] == b[..k] && a[k] < b[k];
      CompareAtDifference(a, b, k);
    } else if |a| < |b| && a == b[..|a|] {
      CompareOfPrefix(a, b);
    }
  }

  /** `hands.sort()`: stable, by `HandLess`. The result is sorted and a permutation. */
  lemma SortHands(hands: seq<CamelHand>)
    ensures Sorting.SortedBy(Sorting.InsertionSort(hands, HandLess), HandLess)
    ensures multiset(Sorting.InsertionSort(hands, HandLess)) == multiset(hands)
  {
    HandLessIsStrictWeakOrder();
    Sorting.InsertionSortSorted(hands, HandLess);
    Sorting.InsertionSortPermutes(hands, HandLess);
  }

  // ---------------------------------------------------------------- examples

  /** The written form and validity of literal cards. */
  lemma ExampleSymbols(cards: seq<CamelCard>, hand: string)
    requires |hand| == 5 && |cards| == 5
    requires forall i :: 0 <= i < 5 ==> CardFromChar(hand[i]) == Ok(cards[i])
    ensures ValidCards(cards) && Symbols(cards) == hand
  {
  }

  /** One more card adds its symbol unless it was seen before. */
  lemma DistinctSymbolsStep(cards: seq<CamelCard>, n: nat)
    requires n < |cards|
    ensures DistinctSymbols(cards[..n + 1])
            == if cards[n].symbol in DistinctSymbols(cards[..n]) then DistinctSymbols(cards[..n])
               else DistinctSymbols(cards[..n]) + [cards[n].symbol]
  {
    assert cards[..n + 1][..n] == cards[..n];
  }

  /** How often a symbol occurs among five cards, card by card. */
  lemma FiveOccurrences(cards: seq<CamelCard>, c: char)
    requires |cards| == 5
    ensures Occurrences(cards, c) == (if cards[0].symbol == c then 1 else 0) + (if cards[1].symbol == c then 1 else 0)
      + (if cards[2].symbol == c then 1 else 0) + (if cards[3].symbol == c then 1 else 0) + (if cards[4].symbol == c then 1 else 0)
  {
    var c1 := cards[1..];
    var c2 := c1[1..];
    var c3 := c2[1..];
    var c4 := c3[1..];
    assert c4[1..] == [];
    assert c1[0] == cards[1] && c2[0] == cards[2] && c3[0] == cards[3] && c4[0] == cards[4];
    assert Occurrences(c4, c) == if cards[4].symbol == c then 1 else 0;
    assert Occurrences(c3, c) == (if cards[3].symbol == c then 1 else 0) + Occurrences(c4, c);
    assert Occurrences(c2, c) == (if cards[2].symbol == c then 1 else 0) + Occurrences(c3, c);
    assert Occurrences(c1, c) == (if cards[1].symbol == c then 1 else 0) + Occurrences(c2, c);
  }

  /** The counts, given the distinct symbols and how often each occurs. */
  lemma CountsAre(cards: seq<CamelCard>, ds: seq<char>, counts: seq<nat>)
    requires DistinctSymbols(cards) == ds && |counts| == |ds|
    requires forall i :: 0 <= i < |ds| ==> Occurrences(cards, ds[i]) == counts[i]
    ensures Counts(cards) == counts
  {
  }

  /** `sorted` is `counts` ordered largest first. */
  lemma SortedPermutation(counts: seq<nat>, sorted: seq<nat>)
    requires |counts| == 3 && |sorted| == 3
    requires multiset{counts[0], counts[1], counts[2]} == multiset{sorted[0], sorted[1], sorted[2]}
    requires sorted[0] >= sorted[1] >= sorted[2]
    ensures Sorting.SortedBy(sorted, MoreFrequent) && multiset(counts) == multiset(sorted)
  {
    assert counts == [counts[0], counts[1], counts[2]];
    assert sorted == [sorted[0], sorted[1], sorted[2]];
  }

  /** The sorted counts are the sorted permutation of the counts, and they decide the type. */
  lemma SortedCountsAre(cards: seq<CamelCard>, counts: seq<nat>, sorted: seq<nat>)
    requires Counts(cards) == counts
    requires Sorting.SortedBy(sorted, MoreFrequent) && multiset(counts) == multiset(sorted)
    ensures SortedCounts(cards) == sorted
    ensures HandTypeOf(cards) == Classify(sorted)
  {
    MoreFrequentIsStrictWeakOrder();
    Sorting.InsertionSortSorted(counts, MoreFrequent);
    Sorting.InsertionSortPermutes(counts, MoreFrequent);
    Sorting.SortedPermutationsEqual(SortedCounts(cards), sorted, MoreFrequent);
  }

  lemma ExampleOnePairSymbols(cards: seq<CamelCard>)
    requires |cards| == 5 && cards[0] == CamelCard('3', 3) && cards[1] == CamelCard('2', 2) && cards[2] == CamelCard('T', 10) && cards[3] == CamelCard('3', 3) && cards[4] == CamelCard('K', 13)
    ensures DistinctSymbols(cards) == ['3', '2', 'T', 'K']
  {
    assert cards[..0] == [];
    DistinctSymbolsStep(cards, 0);
    DistinctSymbolsStep(cards, 1);
    DistinctSymbolsStep(cards, 2);
    DistinctSymbolsStep(cards, 3);
    DistinctSymbolsStep(cards, 4);
    assert cards[..5] == cards;
  }

  /** How often each symbol of the example hand occurs. */
  lemma ExampleOnePairCounts(cards: seq<CamelCard>)
    requires |cards| == 5 && cards[0] == CamelCard('3', 3) && cards[1] == CamelCard('2', 2) && cards[2] == CamelCard('T', 10) && cards[3] == CamelCard('3', 3) && cards[4] == CamelCard('K', 13)
    ensures Counts(cards) == [2, 1, 1, 1]
  {
    ExampleOnePairSymbols(cards);
    FiveOccurrences(cards, '3');
    FiveOccurrences(cards, '2');
    FiveOccurrences(cards, 'T');
    FiveOccurrences(cards, 'K');
    var counts: seq<nat> := [2, 1, 1, 1];
    CountsAre(cards, ['3', '2', 'T', 'K'], counts);
  }

  /** `"32T3K"` is `OnePair`. */
  lemma ExampleOnePairType(cards: seq<CamelCard>)
    requires |cards| == 5 && cards[0] == CamelCard('3', 3) && cards[1] == CamelCard('2', 2) && cards[2] == CamelCard('T', 10) && cards[3] == CamelCard('3', 3) && cards[4] == CamelCard('K', 13)
    ensures HandTypeOf(cards) == Some(OnePair)
  {
    ExampleOnePairCounts(cards);
    var counts: seq<nat> := [2, 1, 1, 1];
    Sorting.InsertionSortOfSorted(counts, MoreFrequent);
  }

  /** The line `"32T3K 765"` parses to its cards, its first card, the bid and the type. */
  lemma ExampleOnePairLine(s: string, cards: seq<CamelCard>)
    requires s == "32T3K 765" && |cards| == 5 && cards[0] == CamelCard('3', 3) && cards[1] == CamelCard('2', 2) && cards[2] == CamelCard('T', 10) && cards[3] == CamelCard('3', 3) && cards[4] == CamelCard('K', 13)
    ensures ParseHand(s) == Ok(CamelHand(cards, cards[0], 765, OnePair))
  {
    ExampleOnePairType(cards);
    ExampleSymbols(cards, "32T3K");
    assert NatToString(765) == "765";
    ValidLine(cards, 765, s);
  }

  lemma ExampleThreeOfAKindSymbols(cards: seq<CamelCard>)
    requires |cards| == 5 && cards[0] == CamelCard('T', 10) && cards[1] == CamelCard('5', 5) && cards[2] == CamelCard('5', 5) && cards[3] == CamelCard('J', 11) && cards[4] == CamelCard('5', 5)
    ensures DistinctSymbols(cards) == ['T', '5', 'J']
  {
    assert cards[..0] == [];
    DistinctSymbolsStep(cards, 0);
    DistinctSymbolsStep(cards, 1);
    DistinctSymbolsStep(cards, 2);
    DistinctSymbolsStep(cards, 3);
    DistinctSymbolsStep(cards, 4);
    assert cards[..5] == cards;
  }

  /** How often each symbol of the example hand occurs. */
  lemma ExampleThreeOfAKindCounts(cards: seq<CamelCard>)
    requires |cards| == 5 && cards[0] == CamelCard('T', 10) && cards[1] == CamelCard('5', 5) && cards[2] == CamelCard('5', 5) && cards[3] == CamelCard('J', 11) && cards[4] == CamelCard('5', 5)
    ensures Counts(cards) == [1, 3, 1]
  {
    ExampleThreeOfAKindSymbols(cards);
    FiveOccurrences(cards, 'T');
    FiveOccurrences(cards, '5');
    FiveOccurrences(cards, 'J');
    var counts: seq<nat> := [1, 3, 1];
    CountsAre(cards, ['T', '5', 'J'], counts);
  }

  /** `"T55J5"` is `ThreeOfAKind`. */
  lemma ExampleThreeOfAKindType(cards: seq<CamelCard>)
    requires |cards| == 5 && cards[0] == CamelCard('T', 10) && cards[1] == CamelCard('5', 5) && cards[2] == CamelCard('5', 5) && cards[3] == CamelCard('J', 11) && cards[4] == CamelCard('5', 5)
    ensures HandTypeOf(cards) == Some(ThreeOfAKind)
  {
    ExampleThreeOfAKindCounts(cards);
    var counts: seq<nat> := [1, 3, 1];
    var sorted: seq<nat> := [3, 1, 1];
    SortedPermutation(counts, sorted);
    SortedCountsAre(cards, counts, sorted);
  }

  /** The line `"T55J5 684"` parses to its cards, its first card, the bid and the type. */
  lemma ExampleThreeOfAKindLine(s: string, cards: seq<CamelCard>)
    requires s == "T55J5 684" && |cards| == 5 && cards[0] == CamelCard('T', 10) && cards[1] == CamelCard('5', 5) && cards[2] == CamelCard('5', 5) && cards[3] == CamelCard('J', 11) && cards[4] == CamelCard('5', 5)
    ensures ParseHand(s) == Ok(CamelHand(cards, cards[0], 684, ThreeOfAKind))
  {
    ExampleThreeOfAKindType(cards);
    ExampleSymbols(cards, "T55J5");
    assert NatToString(684) == "684";
    ValidLine(cards, 684, s);
  }

  lemma ExampleAcesSymbols(cards: seq<CamelCard>)
    requires |cards| == 5 && cards[0] == CamelCard('A', 14) && cards[1] == CamelCard('5', 5) && cards[2] == CamelCard('5', 5) && cards[3] == CamelCard('J', 11) && cards[4] == CamelCard('5', 5)
    ensures DistinctSymbols(cards) == ['A', '5', 'J']
  {
    assert cards[..0] == [];
    DistinctSymbolsStep(cards, 0);
    DistinctSymbolsStep(cards, 1);
    DistinctSymbolsStep(cards, 2);
    DistinctSymbolsStep(cards, 3);
    DistinctSymbolsStep(cards, 4);
    assert cards[..5] == cards;
  }

  /** How often each symbol of the example hand occurs. */
  lemma ExampleAcesCounts(cards: seq<CamelCard>)
    requires |cards| == 5 && cards[0] == CamelCard('A', 14) && cards[1] == CamelCard('5', 5) && cards[2] == CamelCard('5', 5) && cards[3] == CamelCard('J', 11) && cards[4] == CamelCard('5', 5)
    ensures Counts(cards) == [1, 3, 1]
  {
    ExampleAcesSymbols(cards);
    FiveOccurrences(cards, 'A');
    FiveOccurrences(cards, '5');
    FiveOccurrences(cards, 'J');
    var counts: seq<nat> := [1, 3, 1];
    CountsAre(cards, ['A', '5', 'J'], counts);
  }

  /** `"A55J5"` is `ThreeOfAKind`. */
  lemma ExampleAcesType(cards: seq<CamelCard>)
    requires |cards| == 5 && cards[0] == CamelCard('A', 14) && cards[1] == CamelCard('5', 5) && cards[2] == CamelCard('5', 5) && cards[3] == CamelCard('J', 11) && cards[4] == CamelCard('5', 5)
    ensures HandTypeOf(cards) == Some(ThreeOfAKind)
  {
    ExampleAcesCounts(cards);
    var counts: seq<nat> := [1, 3, 1];
    var sorted: seq<nat> := [3, 1, 1];
    SortedPermutation(counts, sorted);
    SortedCountsAre(cards, counts, sorted);
  }

  /** The line `"A55J5 684"` parses to its cards, its first card, the bid and the type. */
  lemma ExampleAcesLine(s: string, cards: seq<CamelCard>)
    requires s == "A55J5 684" && |cards| == 5 && cards[0] == CamelCard('A', 14) && cards[1] == CamelCard('5', 5) && cards[2] == CamelCard('5', 5) && cards[3] == CamelCard('J', 11) && cards[4] == CamelCard('5', 5)
    ensures ParseHand(s) == Ok(CamelHand(cards, cards[0], 684, ThreeOfAKind))
  {
    ExampleAcesType(cards);
    ExampleSymbols(cards, "A55J5");
    assert NatToString(684) == "684";
    ValidLine(cards, 684, s);
  }

  lemma ExampleTwoPairSymbols(cards: seq<CamelCard>)
    requires |cards| == 5 && cards[0] == CamelCard('K', 13) && cards[1] == CamelCard('K', 13) && cards[2] == CamelCard('6', 6) && cards[3] == CamelCard('7', 7) && cards[4] == CamelCard('7', 7)
    ensures DistinctSymbols(cards) == ['K', '6', '7']
  {
    assert cards[..0] == [];
    DistinctSymbolsStep(cards, 0);
    DistinctSymbolsStep(cards, 1);
    DistinctSymbolsStep(cards, 2);
    DistinctSymbolsStep(cards, 3);
    DistinctSymbolsStep(cards, 4);
    assert cards[..5] == cards;
  }

  /** How often each symbol of the example hand occurs. */
  lemma ExampleTwoPairCounts(cards: seq<CamelCard>)
    requires |cards| == 5 && cards[0] == CamelCard('K', 13) && cards[1] == CamelCard('K', 13) && cards[2] == CamelCard('6', 6) && cards[3] == CamelCard('7', 7) && cards[4] == CamelCard('7', 7)
    ensures Counts(cards) == [2, 1, 2]
  {
    ExampleTwoPairSymbols(cards);
    FiveOccurrences(cards, 'K');
    FiveOccurrences(cards, '6');
    FiveOccurrences(cards, '7');
    var counts: seq<nat> := [2, 1, 2];
    CountsAre(cards, ['K', '6', '7'], counts);
  }

  /** `"KK677"` is `TwoPair`. */
  lemma ExampleTwoPairType(cards: seq<CamelCard>)
    requires |cards| == 5 && cards[0] == CamelCard('K', 13) && cards[1] == CamelCard('K', 13) && cards[2] == CamelCard('6', 6) && cards[3] == CamelCard('7', 7) && cards[4] == CamelCard('7', 7)
    ensures HandTypeOf(cards) == Some(TwoPair)
  {
    ExampleTwoPairCounts(cards);
    var counts: seq<nat> := [2, 1, 2];
    var sorted: seq<nat> := [2, 2, 1];
    SortedPermutation(counts, sorted);
    SortedCountsAre(cards, counts, sorted);
  }

  /** The line `"KK677 28"` parses to its cards, its first card, the bid and the type. */
  lemma ExampleTwoPairLine(s: string, cards: seq<CamelCard>)
    requires s == "KK677 28" && |cards| == 5 && cards[0] == CamelCard('K', 13) && cards[1] == CamelCard('K', 13) && cards[2] == CamelCard('6', 6) && cards[3] == CamelCard('7', 7) && cards[4] == CamelCard('7', 7)
    ensures ParseHand(s) == Ok(CamelHand(cards, cards[0], 28, TwoPair))
  {
    ExampleTwoPairType(cards);
    ExampleSymbols(cards, "KK677");
    assert NatToString(28) == "28";
    ValidLine(cards, 28, s);
  }

  /** The four hands of the sorting example, sorted: the two three-of-a-kinds (the one
      starting with an ace first), then the two pairs, then the one pair. */
  lemma ExampleSort(hands: seq<CamelHand>)
    requires hands == [CamelHand([CamelCard('3', 3), CamelCard('2', 2), CamelCard('T', 10), CamelCard('3', 3), CamelCard('K', 13)], CamelCard('3', 3), 765, OnePair),
                      CamelHand([CamelCard('T', 10), CamelCard('5', 5), CamelCard('5', 5), CamelCard('J', 11), CamelCard('5', 5)], CamelCard('T', 10), 684, ThreeOfAKind),
                      CamelHand([CamelCard('A', 14), CamelCard('5', 5), CamelCard('5', 5), CamelCard('J', 11), CamelCard('5', 5)], CamelCard('A', 14), 684, ThreeOfAKind),
                      CamelHand([CamelCard('K', 13), CamelCard('K', 13), CamelCard('6', 6), CamelCard('7', 7), CamelCard('7', 7)], CamelCard('K', 13), 28, TwoPair)]
    ensures Sorting.InsertionSort(hands, HandLess) == [hands[2], hands[1], hands[3], hands[0]]
  {
    assert hands[..0] == [];
    Sorting.InsertionSortStep(hands, 0, HandLess);
    Sorting.InsertionSortStep(hands, 1, HandLess);
    assert HandLess(hands[1], hands[0]);
    assert Sorting.InsertionSort(hands[..2], HandLess) == [hands[1], hands[0]];
    Sorting.InsertionSortStep(hands, 2, HandLess);
    assert HandLess(hands[2], hands[0]);
    assert CompareValues(Values(hands[1].cards), Values(hands[2].cards)) == Less;
    assert HandLess(hands[2], hands[1]);
    assert [hands[1], hands[0]][..1] == [hands[1]];
    assert Sorting.Insert(hands[2], [hands[1]], HandLess) == [hands[2], hands[1]];
    assert Sorting.InsertionSort(hands[..3], HandLess) == [hands[2], hands[1], hands[0]];
    Sorting.InsertionSortStep(hands, 3, HandLess);
    assert HandLess(hands[3], hands[0]);
    assert !HandLess(hands[3], hands[1]);
    assert [hands[2], hands[1], hands[0]][..2] == [hands[2], hands[1]];
    assert hands[..4] == hands;
  }
}
