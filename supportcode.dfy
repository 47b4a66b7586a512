/** The playing-card support code of the tutorials: the deck, the hand helpers and the enums. */
module SupportCode {

  /** A card: its glyph and its blackjack value. */
  datatype Card = Card(glyph: string, value: int)

  datatype HandError = Busted(points: int)

  datatype UserSession = LoggedIn | LoggedOut

  datatype LoginError = InvalidCredentials

  /** The 52-card deck in the order of the `cards` array of SupportCode.swift, suit by suit, aces counted as 11. */
  const Cards: seq<Card> := Spades + Hearts + Diamonds + Clubs

  const Spades: seq<Card> := [
    Card("\U{1F0A1}", 11), Card("\U{1F0A2}", 2), Card("\U{1F0A3}", 3), Card("\U{1F0A4}", 4), Card("\U{1F0A5}", 5),
    Card("\U{1F0A6}", 6), Card("\U{1F0A7}", 7), Card("\U{1F0A8}", 8), Card("\U{1F0A9}", 9), Card("\U{1F0AA}", 10),
    Card("\U{1F0AB}", 10), Card("\U{1F0AD}", 10), Card("\U{1F0AE}", 10)
  ]

  const Hearts: seq<Card> := [
    Card("\U{1F0B1}", 11), Card("\U{1F0B2}", 2), Card("\U{1F0B3}", 3), Card("\U{1F0B4}", 4), Card("\U{1F0B5}", 5),
    Card("\U{1F0B6}", 6), Card("\U{1F0B7}", 7), Card("\U{1F0B8}", 8), Card("\U{1F0B9}", 9), Card("\U{1F0BA}", 10),
    Card("\U{1F0BB}", 10), Card("\U{1F0BD}", 10), Card("\U{1F0BE}", 10)
  ]

  const Diamonds: seq<Card> := [
    Card("\U{1F0C1}", 11), Card("\U{1F0C2}", 2), Card("\U{1F0C3}", 3), Card("\U{1F0C4}", 4), Card("\U{1F0C5}", 5),
    Card("\U{1F0C6}", 6), Card("\U{1F0C7}", 7), Card("\U{1F0C8}", 8), Card("\U{1F0C9}", 9), Card("\U{1F0CA}", 10),
    Card("\U{1F0CB}", 10), Card("\U{1F0CD}", 10), Card("\U{1F0CE}", 10)
  ]

  const Clubs: seq<Card> := [
    Card("\U{1F0D1}", 11), Card("\U{1F0D2}", 2), Card("\U{1F0D3}", 3), Card("\U{1F0D4}", 4), Card("\U{1F0D5}", 5),
    Card("\U{1F0D6}", 6), Card("\U{1F0D7}", 7), Card("\U{1F0D8}", 8), Card("\U{1F0D9}", 9), Card("\U{1F0DA}", 10),
    Card("\U{1F0DB}", 10), Card("\U{1F0DD}", 10), Card("\U{1F0DE}", 10)
  ]

  /** `cardString(for:)`: the glyphs joined without separator. */
  function CardString(hand: seq<Card>): string {
    if hand == [] then "" else hand[0].glyph + CardString(hand[1..])
  }

  /** `points(for:)`: the values summed from 0. */
  function Points(hand: seq<Card>): int {
    if hand == [] then 0 else hand[0].value + Points(hand[1..])
  }

  lemma {:induction false} PointsAppend(a: seq<Card>, b: seq<Card>)
    ensures Points(a + b) == Points(a) + Points(b)
    ensures Points([]) == 0
    decreases |a|
  {
    if a == [] {
      assert a + b == b;
    } else {
      assert (a + b)[1..] == a[1..] + b;
      PointsAppend(a[1..], b);
    }
  }

  lemma {:induction false} CardStringAppend(a: seq<Card>, b: seq<Card>)
    ensures CardString(a + b) == CardString(a) + CardString(b)
    ensures CardString([]) == ""
    decreases |a|
  {
    if a == [] {
      assert a + b == b;
    } else {
      assert (a + b)[1..] == a[1..] + b;
      CardStringAppend(a[1..], b);
    }
  }

  /** The glyphs of a hand appear in hand order, one character per card. */
  lemma {:induction false} CardStringGlyphs(hand: seq<Card>)
    requires forall c :: c in hand ==> |c.glyph| == 1
    ensures |CardString(hand)| == |hand|
    ensures forall i :: 0 <= i < |hand| ==> CardString(hand)[i] == hand[i].glyph[0]
    decreases |hand|
  {
    if hand != [] {
      CardStringGlyphs(hand[1..]);
    }
  }

  /** 52 cards with one-character glyphs, values 2 to 11, four of them worth 11 (the aces). */
  lemma DeckFacts()
    ensures |Cards| == 52
    ensures forall i :: 0 <= i < |Cards| ==> 2 <= Cards[i].value <= 11 && |Cards[i].glyph| == 1
    ensures (set i | 0 <= i < |Cards| && Cards[i].value == 11) == {0, 13, 26, 39}
  {
    forall i | 0 <= i < |Cards|
      ensures 2 <= Cards[i].value <= 11 && |Cards[i].glyph| == 1
      ensures Cards[i].value == 11 <==> i in {0, 13, 26, 39}
    {
      if i < 13 {
        assert Cards[i] == Spades[i];
      } else if i < 26 {
        assert Cards[i] == Hearts[i - 13];
      } else if i < 39 {
        assert Cards[i] == Diamonds[i - 26];
      } else {
        assert Cards[i] == Clubs[i - 39];
      }
    }
  }

  /** The aces are four cards. */
  lemma FourAces()
    ensures |set i | 0 <= i < |Cards| && Cards[i].value == 11| == 4
  {
    DeckFacts();
  }
}
