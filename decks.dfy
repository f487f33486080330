/**
  The endless 52-card deck and hand scoring (app/store/game/decks.py).

  A card is the string "<rank> <suit>". Scoring reads the first
  whitespace-separated word of every card and looks it up in the rank table;
  any word that does not map to a number (the ace, and every unknown word)
  is counted as an ace.
 */
module Decks {
  import opened Wrappers

  type Card = string

  /** A value of the rank table: a number of points, or the ace marker. */
  datatype RankValue = Pips(points: nat) | AceMark

  /** The rank table, keys in the source's order. */
  const Ranks: seq<string> :=
    ["2", "3", "4", "5", "6", "7", "8", "9", "10", "Валет", "Дама", "Король", "Туз"]

  const Suits: seq<string> := ["♠", "♣", "♥", "♦"]

  const CardValues: map<string, RankValue> :=
    map["2" := Pips(2), "3" := Pips(3), "4" := Pips(4), "5" := Pips(5),
        "6" := Pips(6), "7" := Pips(7), "8" := Pips(8), "9" := Pips(9),
        "10" := Pips(10), "Валет" := Pips(10), "Дама" := Pips(10),
        "Король" := Pips(10), "Туз" := AceMark]

  // ---------------------------------------------------------------------
  // Splitting a card into words, as Python's str.split() does.
  // ---------------------------------------------------------------------

  /** The characters Python's str.split() treats as whitespace. */
  predicate IsSpace(c: char) {
    c == ' ' || c == '\t' || c == '\n' || c == '\r' || c == '\U{000B}' || c == '\U{000C}'
    || ('\U{001C}' <= c <= '\U{001F}') || c == '\U{0085}' || c == '\U{00A0}'
    || c == '\U{1680}' || ('\U{2000}' <= c <= '\U{200A}') || c == '\U{2028}'
    || c == '\U{2029}' || c == '\U{202F}' || c == '\U{205F}' || c == '\U{3000}'
  }

  /** The string has a first word, so that `split()[0]` does not raise. */
  predicate HasWord(s: string) {
    exists i :: 0 <= i < |s| && !IsSpace(s[i])
  }

  /** A hand every card of which can be scored. */
  predicate IsHand(cards: seq<Card>) {
    forall i :: 0 <= i < |cards| ==> HasWord(cards[i])
  }

  function SkipSpaces(s: string): (r: string)
    ensures |r| <= |s|
  {
    if s != [] && IsSpace(s[0]) then SkipSpaces(s[1..]) else s
  }

  function TakeWord(s: string): string {
    if s == [] || IsSpace(s[0]) then [] else [s[0]] + TakeWord(s[1..])
  }

  /** `card.split()[0]`. */
  function FirstWord(s: string): string {
    TakeWord(SkipSpaces(s))
  }

  /** A string without whitespace that is not empty: a single word. */
  predicate IsWord(w: string) {
    w != [] && forall i :: 0 <= i < |w| ==> !IsSpace(w[i])
  }

  lemma {:induction false} TakeWordOfWord(w: string, rest: string)
    requires forall i :: 0 <= i < |w| ==> !IsSpace(w[i])
    requires rest == [] || IsSpace(rest[0])
    ensures TakeWord(w + rest) == w
  {
    if w != [] {
      assert (w + rest)[0] == w[0];
      assert (w + rest)[1..] == w[1..] + rest;
      TakeWordOfWord(w[1..], rest);
    } else {
      assert w + rest == rest;
    }
  }

  /** The first word of "<word> <anything>" is the word. */
  lemma FirstWordOfCard(w: string, suit: string)
    requires IsWord(w)
    ensures HasWord(w + " " + suit)
    ensures FirstWord(w + " " + suit) == w
  {
    var s := w + " " + suit;
    assert s[0] == w[0] && !IsSpace(s[0]);
    assert SkipSpaces(s) == s;
    assert s == w + (" " + suit);
    TakeWordOfWord(w, " " + suit);
  }

  // ---------------------------------------------------------------------
  // Drawing a card.
  // ---------------------------------------------------------------------

  /** The card with the rank and suit of the given positions in the two tables. */
  function MakeCard(rank: nat, suit: nat): Card
    requires rank < |Ranks| && suit < |Suits|
  {
    Ranks[rank] + " " + Suits[suit]
  }

  predicate IsDeckCard(c: Card) {
    exists rank: nat, suit: nat :: rank < |Ranks| && suit < |Suits| && c == MakeCard(rank, suit)
  }

  lemma RanksAreWords(rank: nat)
    requires rank < |Ranks|
    ensures IsWord(Ranks[rank])
    ensures Ranks[rank] in CardValues
  {
  }

  /** `take_a_card`: some rank of the table followed by a space and some suit. */
  method TakeACard() returns (card: Card)
    ensures IsDeckCard(card) && HasWord(card)
  {
    var rank: nat :| rank < |Ranks|;
    var suit: nat :| suit < |Suits|;
    card := MakeCard(rank, suit);
    RanksAreWords(rank);
    FirstWordOfCard(Ranks[rank], Suits[suit]);
  }

  // ---------------------------------------------------------------------
  // Scoring.
  // ---------------------------------------------------------------------

  /** `type(card_values.get(word)) is int`: the word scores a fixed number of points. */
  function PipsOf(word: string): Option<nat> {
    if word in CardValues && CardValues[word].Pips? then Some(CardValues[word].points) else None
  }

  /** Appending a card adds its base and, for an ace, one to the count. */
  lemma AppendCard(cards: seq<Card>, c: Card)
    ensures NonAceSum(cards + [c]) == NonAceSum(cards) + BaseOf(c)
    ensures AceCount(cards + [c]) == AceCount(cards) + (if IsAceCard(c) then 1 else 0)
  {
    assert (cards + [c])[..|cards|] == cards;
  }

  /** The points a card adds before the aces are placed (0 for a card counted as an ace). */
  function BaseOf(card: Card): nat {
    PipsOf(FirstWord(card)).GetOr(0)
  }

  function IsAceCard(card: Card): bool {
    PipsOf(FirstWord(card)).None?
  }

  /** Sum of the non-ace cards (the first loop's `points`). */
  function NonAceSum(cards: seq<Card>): nat {
    if cards == [] then 0 else NonAceSum(cards[..|cards| - 1]) + BaseOf(cards[|cards| - 1])
  }

  /** Number of cards counted as aces (the first loop's `aces`). */
  function AceCount(cards: seq<Card>): nat {
    if cards == [] then 0
    else AceCount(cards[..|cards| - 1]) + (if IsAceCard(cards[|cards| - 1]) then 1 else 0)
  }

  /** The second loop: each ace adds 11 while that keeps the total at most 21, else 1. */
  function AddAces(points: int, aces: nat): int
    decreases aces
  {
    if aces == 0 then points
    else AddAces(if points + 11 > 21 then points + 1 else points + 11, aces - 1)
  }

  /** The points `count_points` returns for a hand. */
  function HandValue(cards: seq<Card>): int {
    AddAces(NonAceSum(cards), AceCount(cards))
  }

  /** `count_points`, with its two loops. */
  method CountPoints(cards: seq<Card>) returns (points: int)
    requires IsHand(cards)
    ensures points == HandValue(cards)
  {
    points := 0;
    var aces := 0;
    for i := 0 to |cards|
      invariant points == NonAceSum(cards[..i])
      invariant aces == AceCount(cards[..i])
    {
      assert cards[..i + 1][..i] == cards[..i];
      var weight := PipsOf(FirstWord(cards[i]));
      if weight.Some? {
        points := points + weight.value;
      } else {
        aces := aces + 1;
      }
    }
    assert cards[..|cards|] == cards;
    if aces == 0 {
      return;
    }
    for ace := 0 to aces
      invariant AddAces(points, aces - ace) == HandValue(cards)
    {
      if points + 11 > 21 {
        points := points + 1;
      } else {
        points := points + 11;
      }
    }
  }

  /** `is_blackjack`: exactly two cards worth 21 points. */
  predicate IsBlackjack(cards: seq<Card>) {
    |cards| == 2 && HandValue(cards) == 21
  }

  // ---------------------------------------------------------------------
  // What the scoring rule computes.
  // ---------------------------------------------------------------------

  /** Closed form of the greedy ace rule: at most one ace counts 11, and only when the
      non-ace sum is at most 10; every other ace counts 1. */
  lemma {:induction false} AddAcesClosedForm(points: int, aces: nat)
    requires points >= 0
    ensures AddAces(points, aces) == points + aces + (if aces > 0 && points <= 10 then 10 else 0)
    decreases aces
  {
    if aces > 0 {
      if points + 11 > 21 {
        assert AddAces(points, aces) == AddAces(points + 1, aces - 1);
        AddAcesClosedForm(points + 1, aces - 1);
      } else {
        assert AddAces(points, aces) == AddAces(points + 11, aces - 1);
        AddAcesClosedForm(points + 11, aces - 1);
      }
    }
  }

  /** The total is the non-ace sum, plus one per ace, plus 10 when some ace fits as 11. */
  lemma HandValueClosedForm(cards: seq<Card>)
    ensures HandValue(cards) ==
      NonAceSum(cards) + AceCount(cards) + (if AceCount(cards) > 0 && NonAceSum(cards) <= 10 then 10 else 0)
  {
    AddAcesClosedForm(NonAceSum(cards), AceCount(cards));
  }

  /** A hand without aces scores the plain sum of its rank weights. */
  lemma {:induction false} NoAcesPlainSum(cards: seq<Card>)
    requires forall i :: 0 <= i < |cards| ==> !IsAceCard(cards[i])
    ensures AceCount(cards) == 0
    ensures HandValue(cards) == NonAceSum(cards)
  {
    if cards != [] {
      NoAcesPlainSum(cards[..|cards| - 1]);
    }
  }

  lemma PipsAtLeastTwo(word: string)
    ensures PipsOf(word).Some? ==> 2 <= PipsOf(word).value <= 10
  {
  }

  lemma {:induction false} BasePlusAcesAtLeastCount(cards: seq<Card>)
    ensures NonAceSum(cards) + AceCount(cards) >= |cards|
    ensures NonAceSum(cards) <= 10 * |cards|
  {
    if cards != [] {
      BasePlusAcesAtLeastCount(cards[..|cards| - 1]);
      PipsAtLeastTwo(FirstWord(cards[|cards| - 1]));
    }
  }

  /** Every card contributes at least one point. */
  lemma HandValueAtLeastCount(cards: seq<Card>)
    ensures HandValue(cards) >= |cards|
  {
    BasePlusAcesAtLeastCount(cards);
    HandValueClosedForm(cards);
  }

  /** A card whose first word is not a rank of the table is scored as an ace: 11 alone. */
  lemma UnknownRankCountsAsAce(card: Card)
    requires FirstWord(card) !in CardValues
    ensures IsAceCard(card)
    ensures HandValue([card]) == 11
  {
    assert [card][..0] == [];
    HandValueClosedForm([card]);
  }

  /** The points of a single card of rank `Ranks[rank]`. */
  function RankPoints(rank: nat): nat
    requires rank < |Ranks|
  {
    if Ranks[rank] == "Туз" then 11 else CardValues[Ranks[rank]].points
  }

  /** Format/parse round trip: the card `take_a_card` builds is scored by its rank. */
  lemma DeckCardScore(rank: nat, suit: nat)
    requires rank < |Ranks| && suit < |Suits|
    ensures HasWord(MakeCard(rank, suit))
    ensures FirstWord(MakeCard(rank, suit)) == Ranks[rank]
    ensures HandValue([MakeCard(rank, suit)]) == RankPoints(rank)
  {
    RanksAreWords(rank);
    FirstWordOfCard(Ranks[rank], Suits[suit]);
    var c := MakeCard(rank, suit);
    assert [c][..0] == [];
    HandValueClosedForm([c]);
  }

  /** A value of ten: a "10" or a picture card. */
  predicate IsTenCard(card: Card) {
    PipsOf(FirstWord(card)) == Some(10)
  }

  lemma {:induction false} TwoCardCounts(a: Card, b: Card)
    ensures NonAceSum([a, b]) == BaseOf(a) + BaseOf(b)
    ensures AceCount([a, b]) == (if IsAceCard(a) then 1 else 0) + (if IsAceCard(b) then 1 else 0)
  {
    AppendCard([], a);
    assert [] + [a] == [a];
    AppendCard([a], b);
    assert [a] + [b] == [a, b];
  }

  lemma CardBounds(c: Card)
    ensures IsAceCard(c) ==> BaseOf(c) == 0
    ensures !IsAceCard(c) ==> 2 <= BaseOf(c) <= 10
    ensures IsTenCard(c) <==> !IsAceCard(c) && BaseOf(c) == 10
  {
    PipsAtLeastTwo(FirstWord(c));
  }

  /** A blackjack is an ace together with a ten-valued card, in either order. */
  lemma {:induction false} BlackjackIsAceAndTen(cards: seq<Card>)
    ensures IsBlackjack(cards) <==>
      |cards| == 2 && ((IsAceCard(cards[0]) && IsTenCard(cards[1])) || (IsTenCard(cards[0]) && IsAceCard(cards[1])))
  {
    if |cards| == 2 {
      var a, b := cards[0], cards[1];
      assert cards == [a, b];
      TwoCardCounts(a, b);
      CardBounds(a);
      CardBounds(b);
      HandValueClosedForm(cards);
    }
  }

  /** Two cards never overflow: at most an ace and a ten. */
  lemma TwoCardsAtMost21(a: Card, b: Card)
    ensures HandValue([a, b]) <= 21
  {
    TwoCardCounts(a, b);
    HandValueClosedForm([a, b]);
    PipsAtLeastTwo(FirstWord(a));
    PipsAtLeastTwo(FirstWord(b));
  }

  /** Any hand of a size other than two is not a blackjack, whatever it scores. */
  lemma NotBlackjackUnlessTwoCards(cards: seq<Card>)
    requires |cards| != 2
    ensures !IsBlackjack(cards)
  {
  }

  lemma AceWord(ace: Card)
    requires FirstWord(ace) == "Туз"
    ensures IsAceCard(ace) && BaseOf(ace) == 0
  {
  }

  lemma KingWord(king: Card)
    requires FirstWord(king) == "Король"
    ensures !IsAceCard(king) && BaseOf(king) == 10
  {
  }

  /** Four aces score 11 + 1 + 1 + 1. */
  lemma {:induction false} FourAces(ace: Card)
    requires FirstWord(ace) == "Туз"
    ensures HandValue([ace, ace, ace, ace]) == 14
  {
    AceWord(ace);
    AppendCard([], ace);
    assert [] + [ace] == [ace];
    AppendCard([ace], ace);
    AppendCard([ace, ace], ace);
    AppendCard([ace, ace, ace], ace);
    assert [ace] + [ace] == [ace, ace] && [ace, ace] + [ace] == [ace, ace, ace];
    assert [ace, ace, ace] + [ace] == [ace, ace, ace, ace];
    HandValueClosedForm([ace, ace, ace, ace]);
  }

  // ---------------------------------------------------------------------
  // The greedy rule against the usual soft-total rule.
  // ---------------------------------------------------------------------

  /** The usual rule: start with every ace at 11 and take 10 off per ace while over 21. */
  function SoftReduce(total: int, aces: nat): int
    decreases aces
  {
    if total > 21 && aces > 0 then SoftReduce(total - 10, aces - 1) else total
  }

  /** The total the usual soft-total rule gives a hand. */
  function SoftTotal(cards: seq<Card>): int {
    SoftReduce(NonAceSum(cards) + 11 * AceCount(cards), AceCount(cards))
  }

  /** With `k` aces still at 11 over a hard total `x` that counts every ace as one, the
      usual rule keeps one ace at 11 exactly when that fits within 21. */
  lemma {:induction false} SoftReduceClosedForm(x: int, k: nat)
    requires x >= k
    ensures SoftReduce(x + 10 * k, k) == x + (if k > 0 && x + 10 <= 21 then 10 else 0)
    decreases k
  {
    if k >= 2 {
      assert x + 10 * k == (x + 10 * (k - 1)) + 10;
      SoftReduceClosedForm(x, k - 1);
    } else if k == 1 {
      assert SoftReduce(x + 10, 1) == (if x + 10 > 21 then SoftReduce(x, 0) else x + 10);
    }
  }

  /** The greedy rule of `count_points` agrees with the usual rule except on hands with an
      ace whose non-ace sum is at most 10 and whose hard total (aces at one) is above 11:
      there the usual rule counts every ace as one, while the greedy rule keeps one ace at
      11 and goes over 21. */
  lemma GreedyAgainstSoftTotal(cards: seq<Card>)
    ensures var b, a := NonAceSum(cards), AceCount(cards);
      HandValue(cards) == SoftTotal(cards) + (if a > 0 && b <= 10 && b + a > 11 then 10 else 0)
    ensures AceCount(cards) > 0 && NonAceSum(cards) <= 10 && NonAceSum(cards) + AceCount(cards) > 11 ==>
      HandValue(cards) > 21 && SoftTotal(cards) == NonAceSum(cards) + AceCount(cards)
  {
    var b, a := NonAceSum(cards), AceCount(cards);
    HandValueClosedForm(cards);
    assert b + 11 * a == (b + a) + 10 * a;
    SoftReduceClosedForm(b + a, a);
  }

  /** King, ace, ace scores 22: both aces are placed after the king, the first as 11
      (10 + 11 = 21) and the second as 1; the usual rule would give 12. */
  lemma {:induction false} KingAceAce(ace: Card, king: Card)
    requires FirstWord(ace) == "Туз" && FirstWord(king) == "Король"
    ensures HandValue([king, ace, ace]) == 22
    ensures SoftTotal([king, ace, ace]) == 12
  {
    GreedyAgainstSoftTotal([king, ace, ace]);
    AceWord(ace);
    KingWord(king);
    AppendCard([], king);
    assert [] + [king] == [king];
    AppendCard([king], ace);
    AppendCard([king, ace], ace);
    assert [king] + [ace] == [king, ace] && [king, ace] + [ace] == [king, ace, ace];
    HandValueClosedForm([king, ace, ace]);
  }
}
