/** solutions/day7.go: Camel Cards. Each hand of five cards has a type from
    its card multiplicities (with an optional joker rule), hands are kept in
    a singly linked list sorted by type and then card ranks, and the
    winnings add up each hand's bid times its rank in that list. */
module CamelCards {
  import opened Wrappers
  import Strconv
  import GoStrings
  import Collections

  // ---------------------------------------------------------------------
  // Cards
  // ---------------------------------------------------------------------

  datatype CamelCard = CamelCard(rank: int, symbol: char)

  const Ace := CamelCard(14, 'A')
  const King := CamelCard(13, 'K')
  const Queen := CamelCard(12, 'Q')
  const Jack := CamelCard(11, 'J')
  const Ten := CamelCard(10, 'T')
  const Nine := CamelCard(9, '9')
  const Eight := CamelCard(8, '8')
  const Seven := CamelCard(7, '7')
  const Six := CamelCard(6, '6')
  const Five := CamelCard(5, '5')
  const Four := CamelCard(4, '4')
  const Three := CamelCard(3, '3')
  const Two := CamelCard(2, '2')
  const Joker := CamelCard(1, 'J')
  /** The zero `CamelCard{}`: what a hand's array holds where no byte was
      read. */
  const NoCard := CamelCard(0, 0 as char)

  /** The card symbols from the weakest to the strongest (without the joker
      rule). */
  const Order := "23456789TJQKA"

  /** `newCamelCard`: the card of a symbol; `J` is the Jack, or the Joker
      under the joker rule; any other byte is fatal. */
  function NewCamelCard(b: char, jokerRule: bool): (c: Option<CamelCard>)
    ensures c.Some? <==> b in Order
    ensures c.Some? ==> c.value.symbol == b
    ensures c.Some? ==> (c.value == Joker <==> jokerRule && b == 'J')
    ensures c.Some? && c.value != Joker ==> 2 <= c.value.rank <= 14
  {
    match b
    case 'A' => Some(Ace)
    case 'K' => Some(King)
    case 'Q' => Some(Queen)
    case 'J' => if jokerRule then Some(Joker) else Some(Jack)
    case 'T' => Some(Ten)
    case '9' => Some(Nine)
    case '8' => Some(Eight)
    case '7' => Some(Seven)
    case '6' => Some(Six)
    case '5' => Some(Five)
    case '4' => Some(Four)
    case '3' => Some(Three)
    case '2' => Some(Two)
    case _ => None
  }

  /** Without the joker rule the i-th symbol of `Order` ranks i + 2, so the
      ranks grow along `Order` from 2 to 14; under it the Joker ranks 1,
      below every other card. */
  lemma RanksFollowOrder(i: nat)
    requires i < |Order|
    ensures NewCamelCard(Order[i], false).value.rank == i + 2
    ensures NewCamelCard(Order[i], true).value.rank == if Order[i] == 'J' then 1 else i + 2
  {
    assert Order[i] in Order;
    assert Order == ['2', '3', '4', '5', '6', '7', '8', '9', 'T', 'J', 'Q', 'K', 'A'];
  }

  // ---------------------------------------------------------------------
  // Hands and their order
  // ---------------------------------------------------------------------

  /** `[5]CamelCard`. */
  type Cards = s: seq<CamelCard> | |s| == 5 witness [NoCard, NoCard, NoCard, NoCard, NoCard]

  /** The hand types, from `HighCard` = 1 to `FiveOfAKind` = 7. */
  const HighCard := 1
  const OnePair := 2
  const TwoPairs := 3
  const ThreeOfAKind := 4
  const FullHouse := 5
  const FourOfAKind := 6
  const FiveOfAKind := 7

  /** The value of a `CamelHand`: its cards, its bid and its type. */
  datatype Hand = Hand(cards: Cards, bid: int, strength: int)

  /** The card comparison of `Less`: the first position where the ranks
      differ decides; equal ranks throughout are not less. */
  function RanksLess(x: seq<CamelCard>, y: seq<CamelCard>): bool
    requires |x| == |y|
  {
    if |x| == 0 then false
    else if x[0].rank < y[0].rank then true
    else if x[0].rank > y[0].rank then false
    else RanksLess(x[1..], y[1..])
  }

  /** `Less` on two hands: the type first, then the card ranks. */
  predicate HandLess(h: Hand, hand: Hand) {
    h.strength < hand.strength || (h.strength == hand.strength && RanksLess(h.cards, hand.cards))
  }

  /** `Less`: the type first, then the card ranks from left to right. */
  method Less(h: Hand, hand: Hand) returns (less: bool)
    ensures less == HandLess(h, hand)
  {
    if h.strength < hand.strength {
      return true;
    }
    if h.strength > hand.strength {
      return false;
    }
    for i := 0 to |h.cards|
      invariant RanksLess(h.cards, hand.cards) == RanksLess(h.cards[i..], hand.cards[i..])
    {
      assert h.cards[i..][1..] == h.cards[i + 1..] && hand.cards[i..][1..] == hand.cards[i + 1..];
      var ourCard, theirCard := h.cards[i], hand.cards[i];
      if ourCard.rank < theirCard.rank {
        return true;
      }
      if ourCard.rank > theirCard.rank {
        return false;
      }
    }
    return false;
  }

  /** Equal ranks at every position. */
  predicate SameRanks(x: seq<CamelCard>, y: seq<CamelCard>)
    requires |x| == |y|
  {
    forall i :: 0 <= i < |x| ==> x[i].rank == y[i].rank
  }

  /** The card comparison is a strict total order on rank sequences:
      irreflexive, transitive, and two sequences that are not less either
      way have the same ranks. */
  lemma {:induction false} RanksLessOrder(x: seq<CamelCard>, y: seq<CamelCard>, z: seq<CamelCard>)
    requires |x| == |y| == |z|
    ensures !RanksLess(x, x)
    ensures RanksLess(x, y) && RanksLess(y, z) ==> RanksLess(x, z)
    ensures !RanksLess(x, y) && !RanksLess(y, x) <==> SameRanks(x, y)
    ensures SameRanks(x, y) ==> (RanksLess(x, z) <==> RanksLess(y, z)) && (RanksLess(z, x) <==> RanksLess(z, y))
  {
    if |x| > 0 {
      RanksLessOrder(x[1..], y[1..], z[1..]);
      if SameRanks(x[1..], y[1..]) && x[0].rank == y[0].rank {
        forall i | 0 <= i < |x|
          ensures x[i].rank == y[i].rank
        {
          if i > 0 {
            assert x[1..][i - 1] == x[i] && y[1..][i - 1] == y[i];
          }
        }
      }
      if SameRanks(x, y) {
        forall i | 0 <= i < |x| - 1
          ensures x[1..][i].rank == y[1..][i].rank
        {
          assert x[1..][i] == x[i + 1] && y[1..][i] == y[i + 1];
        }
      }
    }
  }

  /** Equal ranks and equal type: neither hand is less than the other. */
  predicate Tied(a: Hand, b: Hand) {
    a.strength == b.strength && SameRanks(a.cards, b.cards)
  }

  /** `Less` is irreflexive and transitive, and hands that are not less
      either way are tied, and ties compare alike. */
  lemma HandLessOrder(a: Hand, b: Hand, c: Hand)
    ensures !HandLess(a, a)
    ensures HandLess(a, b) && HandLess(b, c) ==> HandLess(a, c)
    ensures !HandLess(a, b) && !HandLess(b, a) <==> Tied(a, b)
    ensures Tied(a, b) ==> (HandLess(a, c) <==> HandLess(b, c)) && (HandLess(c, a) <==> HandLess(c, b))
  {
    RanksLessOrder(a.cards, b.cards, c.cards);
    RanksLessOrder(a.cards, a.cards, a.cards);
  }

  /** A hand less than b is less than every hand that b is not greater than. */
  lemma LessThenNotLess(a: Hand, b: Hand, c: Hand)
    requires HandLess(a, b) && !HandLess(c, b)
    ensures HandLess(a, c)
  {
    HandLessOrder(a, b, c);
    HandLessOrder(b, c, a);
    if !HandLess(b, c) {
      HandLessOrder(b, c, a);
      HandLessOrder(a, b, c);
    }
  }

  // ---------------------------------------------------------------------
  // Card multiplicities and hand types
  // ---------------------------------------------------------------------

  /** `determineType` on the counts that `matchCards` lists (`utils.Contains`
      is membership in the list). */
  function DetermineType(matchedCards: seq<int>): (strength: int)
    ensures HighCard <= strength <= FiveOfAKind
  {
    if 5 in matchedCards then FiveOfAKind
    else if 4 in matchedCards then FourOfAKind
    else if 3 in matchedCards && 2 in matchedCards then FullHouse
    else if 3 in matchedCards then ThreeOfAKind
    else if 2 in matchedCards && |matchedCards| == 3 then TwoPairs
    else if 2 in matchedCards then OnePair
    else HighCard
  }

  /** Some card occurs exactly v times. */
  ghost predicate HasCount(m: multiset<CamelCard>, v: int) {
    exists c :: c in m && m[c] == v
  }

  /** The number of different cards. */
  ghost function KeyCount(m: multiset<CamelCard>): nat {
    |set c | c in m|
  }

  /** The type of a hand whose cards occur as `m` says: `determineType` with
      membership in the list of counts read as "some card occurs that often"
      and the length of the list as the number of different cards. */
  ghost function TypeOf(m: multiset<CamelCard>): int {
    if HasCount(m, 5) then FiveOfAKind
    else if HasCount(m, 4) then FourOfAKind
    else if HasCount(m, 3) && HasCount(m, 2) then FullHouse
    else if HasCount(m, 3) then ThreeOfAKind
    else if HasCount(m, 2) && KeyCount(m) == 3 then TwoPairs
    else if HasCount(m, 2) then OnePair
    else HighCard
  }

  /** `keys` lists each card of `m` once. */
  ghost predicate ListsKeys(keys: seq<CamelCard>, m: multiset<CamelCard>) {
    (forall c :: c in m <==> c in keys) &&
    (forall i, j :: 0 <= i < j < |keys| ==> keys[i] != keys[j])
  }

  /** `occurrences` holds the count of each card of `m` once, in some order:
      what ranging over a Go count map gives. */
  ghost predicate ListsCounts(occurrences: seq<int>, keys: seq<CamelCard>, m: multiset<CamelCard>) {
    ListsKeys(keys, m) && |occurrences| == |keys| &&
    forall i :: 0 <= i < |keys| ==> occurrences[i] == m[keys[i]]
  }

  /** Whatever order the counts come in, `determineType` gives the type of
      the multiset. */
  lemma DetermineTypeOfListing(occurrences: seq<int>, keys: seq<CamelCard>, m: multiset<CamelCard>)
    requires ListsCounts(occurrences, keys, m)
    ensures DetermineType(occurrences) == TypeOf(m)
  {
    forall v
      ensures v in occurrences <==> HasCount(m, v)
    {
      if v in occurrences {
        var i :| 0 <= i < |occurrences| && occurrences[i] == v;
        assert keys[i] in m;
      }
      if HasCount(m, v) {
        var c :| c in m && m[c] == v;
        var i :| 0 <= i < |keys| && keys[i] == c;
        assert occurrences[i] == v;
      }
    }
    DistinctKeys(keys);
    assert (set c | c in m) == (set i | 0 <= i < |keys| :: keys[i]);
  }

  /** A list without repetitions has as many elements as its set. */
  lemma {:induction false} DistinctKeys(keys: seq<CamelCard>)
    requires forall i, j :: 0 <= i < j < |keys| ==> keys[i] != keys[j]
    ensures |set i | 0 <= i < |keys| :: keys[i]| == |keys|
  {
    if |keys| > 0 {
      var front := keys[..|keys| - 1];
      DistinctKeys(front);
      var last := keys[|keys| - 1];
      assert (set i | 0 <= i < |keys| :: keys[i]) == (set i | 0 <= i < |front| :: front[i]) + {last};
      assert last !in (set i | 0 <= i < |front| :: front[i]);
    }
  }

  /** A card that can receive the jokers: a most frequent card other than
      the Joker, or the zero card when there is none. */
  ghost predicate IsMaxCard(m: multiset<CamelCard>, c: CamelCard) {
    c != Joker &&
    if exists d :: d in m && d != Joker then
      c in m && forall d :: d in m && d != Joker ==> m[d] <= m[c]
    else c == NoCard
  }

  /** The counts after the jokers join card `c` and their own entry is
      deleted. */
  function Joined(m: multiset<CamelCard>, c: CamelCard): multiset<CamelCard> {
    if m[Joker] == 0 then m else m[c := m[c] + m[Joker]][Joker := 0]
  }

  /** Which most frequent card receives the jokers does not change the
      type. */
  lemma TypeOfChoiceFree(m: multiset<CamelCard>, c1: CamelCard, c2: CamelCard)
    requires IsMaxCard(m, c1) && IsMaxCard(m, c2)
    ensures TypeOf(Joined(m, c1)) == TypeOf(Joined(m, c2))
  {
    if m[Joker] > 0 && c1 != c2 {
      var j1, j2 := Joined(m, c1), Joined(m, c2);
      assert m[c1] == m[c2];
      forall v
        ensures HasCount(j1, v) <==> HasCount(j2, v)
      {
        if HasCount(j1, v) {
          var d :| d in j1 && j1[d] == v;
          if d == c1 {
            assert c2 in j2 && j2[c2] == v;
          } else if d == c2 {
            assert c1 in j2 && j2[c1] == v;
          } else {
            assert d in j2 && j2[d] == v;
          }
        }
        if HasCount(j2, v) {
          var d :| d in j2 && j2[d] == v;
          if d == c2 {
            assert c1 in j1 && j1[c1] == v;
          } else if d == c1 {
            assert c2 in j1 && j1[c2] == v;
          } else {
            assert d in j1 && j1[d] == v;
          }
        }
      }
      assert (set c | c in j1) == (set c | c in j2);
    }
  }

  /** A most frequent card other than the Joker exists. */
  lemma MaxCardExists(m: multiset<CamelCard>)
    ensures exists c :: IsMaxCard(m, c)
  {
    var others := set d | d in m && d != Joker;
    assert forall d :: d in m && d != Joker ==> d in others;
    if others == {} {
      assert IsMaxCard(m, NoCard);
    } else {
      var c := MaxOf(m, others);
      assert IsMaxCard(m, c);
    }
  }

  lemma {:induction false} MaxOf(m: multiset<CamelCard>, s: set<CamelCard>) returns (c: CamelCard)
    requires s != {}
    ensures c in s && forall d :: d in s ==> m[d] <= m[c]
    decreases |s|
  {
    Collections.HasElement(s);
    var x :| x in s;
    if s == {x} {
      c := x;
    } else {
      var y := MaxOf(m, s - {x});
      c := if m[x] >= m[y] then x else y;
    }
  }

  /** The type of a hand: from its card counts, or under the joker rule
      from the counts after the jokers joined a most frequent card. */
  ghost function HandStrength(cards: Cards, joker: bool): int {
    var m := multiset(cards);
    if !joker then TypeOf(m) else TypeOf(Joined(m, ChosenMaxCard(m)))
  }

  /** One most frequent card other than the Joker. */
  ghost function ChosenMaxCard(m: multiset<CamelCard>): (c: CamelCard)
    ensures IsMaxCard(m, c)
  {
    MaxCardExists(m);
    var c :| IsMaxCard(m, c);
    c
  }

  /** `matchCards`: counts the cards; under the joker rule the jokers'
      count is added to a most frequent other card (the zero card when the
      hand holds only jokers) and their entry is deleted; then the counts are
      listed in the map's order. */
  method MatchCards(cards: Cards, joker: bool) returns (occurrences: seq<int>, ghost matched: multiset<CamelCard>, ghost maxCard: CamelCard, ghost keys: seq<CamelCard>)
    ensures !joker ==> matched == multiset(cards)
    ensures joker ==> IsMaxCard(multiset(cards), maxCard) && matched == Joined(multiset(cards), maxCard)
    ensures ListsCounts(occurrences, keys, matched)
    ensures Collections.Sum(occurrences) == 5
    ensures joker && multiset(cards)[Joker] == 5 ==> occurrences == [5]
  {
    var matchedCards: multiset<CamelCard> := multiset{};
    for i := 0 to |cards|
      invariant matchedCards == multiset(cards[..i])
    {
      assert cards[..i + 1] == cards[..i] + [cards[i]];
      matchedCards := matchedCards[cards[i] := matchedCards[cards[i]] + 1];
    }
    assert cards[..|cards|] == cards;
    ghost var counted := matchedCards;
    maxCard := NoCard;
    if joker {
      var max, best := FindMaxCard(matchedCards);
      maxCard := best;
      var val := matchedCards[Joker];
      if val > 0 {
        matchedCards := matchedCards[best := matchedCards[best] + val];
        matchedCards := matchedCards[Joker := 0];
      }
      JoinedSize(counted, best);
    }
    matched := matchedCards;
    occurrences, keys := ListCounts(matchedCards);
    if joker && counted[Joker] == 5 {
      AllJokers(counted, maxCard, occurrences, keys);
    }
  }

  /** Moving the jokers' count keeps the number of cards. */
  lemma JoinedSize(m: multiset<CamelCard>, c: CamelCard)
    requires c != Joker
    ensures |Joined(m, c)| == |m|
  {
    if m[Joker] > 0 {
      Collections.CardUpdate(m, c, m[c] + m[Joker]);
      Collections.CardUpdate(m[c := m[c] + m[Joker]], Joker, 0);
    }
  }

  /** Five jokers join the zero card, and the only count is 5. */
  lemma AllJokers(m: multiset<CamelCard>, c: CamelCard, occurrences: seq<int>, keys: seq<CamelCard>)
    requires |m| == 5 && m[Joker] == 5 && IsMaxCard(m, c)
    requires ListsCounts(occurrences, keys, Joined(m, c))
    ensures occurrences == [5]
  {
    Collections.CardUpdate(m, Joker, 0);
    assert m[Joker := 0] == multiset{};
    assert forall d :: d != Joker ==> m[Joker := 0][d] == m[d];
    assert forall d :: d in m ==> d == Joker;
    assert c == NoCard;
    var j := Joined(m, c);
    assert forall d :: d in j ==> d == NoCard;
    assert NoCard in keys;
    assert forall i :: 0 <= i < |keys| ==> keys[i] == NoCard;
    DistinctKeys(keys);
    assert (set i | 0 <= i < |keys| :: keys[i]) == {NoCard};
    assert keys == [NoCard];
  }

  /** The first loop of the joker rule: a most frequent card other than the
      Joker and its count, or the zero card and 0 when there is none. */
  method FindMaxCard(matchedCards: multiset<CamelCard>) returns (max: nat, maxCard: CamelCard)
    ensures IsMaxCard(matchedCards, maxCard)
    ensures max == if maxCard in matchedCards then matchedCards[maxCard] else 0
  {
    max, maxCard := 0, NoCard;
    var rest := set c | c in matchedCards;
    while rest != {}
      invariant forall c :: c in rest ==> c in matchedCards
      invariant max == 0 ==> maxCard == NoCard && forall d :: d in matchedCards && d !in rest ==> d == Joker
      invariant max > 0 ==> maxCard in matchedCards && maxCard != Joker && matchedCards[maxCard] == max
      invariant forall d :: d in matchedCards && d != Joker && d !in rest ==> matchedCards[d] <= max
      decreases |rest|
    {
      Collections.HasElement(rest);
      var s :| s in rest;
      var v := matchedCards[s];
      if v > max && s != Joker {
        max, maxCard := v, s;
      }
      rest := rest - {s};
    }
  }

  /** The last loop of `matchCards`: the count of every card, once each. */
  method ListCounts(matchedCards: multiset<CamelCard>) returns (occurrences: seq<int>, ghost keys: seq<CamelCard>)
    ensures ListsCounts(occurrences, keys, matchedCards)
    ensures Collections.Sum(occurrences) == |matchedCards|
  {
    occurrences, keys := [], [];
    var rest := set c | c in matchedCards;
    ghost var left := matchedCards;
    while rest != {}
      invariant forall c :: c in rest <==> c in left
      invariant forall c :: c in rest ==> left[c] == matchedCards[c]
      invariant Collections.Sum(occurrences) + |left| == |matchedCards|
      invariant |occurrences| == |keys| && forall i :: 0 <= i < |keys| ==> occurrences[i] == matchedCards[keys[i]]
      invariant forall c :: c in matchedCards <==> c in keys || c in rest
      invariant forall i :: 0 <= i < |keys| ==> keys[i] !in rest
      invariant forall i, j :: 0 <= i < j < |keys| ==> keys[i] != keys[j]
      decreases |rest|
    {
      Collections.HasElement(rest);
      var k :| k in rest;
      assert (occurrences + [matchedCards[k]])[..|occurrences|] == occurrences;
      occurrences := occurrences + [matchedCards[k]];
      keys := keys + [k];
      Collections.CardUpdate(left, k, 0);
      left := left[k := 0];
      rest := rest - {k};
    }
    assert left == multiset{};
  }

  /** The cards that bytes `bs` put into a hand's `[5]CamelCard`, from the
      left, with zero cards after them; nothing when there are more than
      five bytes or a byte is no card. */
  function CardsOf(bs: string, jokerRule: bool): Option<Cards> {
    if |bs| > 5 || exists i :: 0 <= i < |bs| && NewCamelCard(bs[i], jokerRule).None? then None
    else Some(seq(5, i requires 0 <= i < 5 => if i < |bs| then NewCamelCard(bs[i], jokerRule).value else NoCard))
  }

  /** `newCamelHand`: the bytes fill the card array from the left (a sixth
      byte indexes past the array, which is fatal, and so is a byte that is
      no card); the type comes from `matchCards` and `determineType`, and
      does not depend on the order in which the count map is ranged over. */
  method NewCamelHand(bs: string, variant: bool) returns (cards: Cards, strength: int, ok: bool)
    ensures ok <==> CardsOf(bs, variant).Some?
    ensures ok ==> cards == CardsOf(bs, variant).value && strength == HandStrength(cards, variant)
  {
    cards, ok := FillCards(bs, variant);
    if !ok {
      return cards, 0, false;
    }
    var occurrences, matched, maxCard, keys := MatchCards(cards, variant);
    strength := DetermineType(occurrences);
    DetermineTypeOfListing(occurrences, keys, matched);
    if variant {
      TypeOfChoiceFree(multiset(cards), maxCard, ChosenMaxCard(multiset(cards)));
    }
  }

  /** The loop of `newCamelHand` over the bytes. */
  method FillCards(bs: string, variant: bool) returns (cards: Cards, ok: bool)
    ensures ok <==> CardsOf(bs, variant).Some?
    ensures ok ==> cards == CardsOf(bs, variant).value
  {
    var a := new CamelCard[5](_ => NoCard);
    for i := 0 to |bs|
      invariant i <= 5
      invariant forall k :: 0 <= k < i ==> NewCamelCard(bs[k], variant).Some? && a[k] == NewCamelCard(bs[k], variant).value
      invariant forall k :: i <= k < 5 ==> a[k] == NoCard
    {
      if i >= 5 {
        return a[..], false;
      }
      var card := NewCamelCard(bs[i], variant);
      if card.None? {
        return a[..], false;
      }
      a[i] := card.value;
    }
    cards, ok := a[..], true;
  }

  // ---------------------------------------------------------------------
  // The sorted list of hands
  // ---------------------------------------------------------------------

  /** Where `InsertHand` puts a hand: before the first hand it is less
      than, or at the end. */
  function InsertPos(hands: seq<Hand>, hand: Hand): (p: nat)
    ensures p <= |hands|
    ensures forall j :: 0 <= j < p ==> !HandLess(hand, hands[j])
    ensures p < |hands| ==> HandLess(hand, hands[p])
  {
    if |hands| == 0 || HandLess(hand, hands[0]) then 0 else 1 + InsertPos(hands[1..], hand)
  }

  /** The hands after `InsertHand`. */
  function Inserted(hands: seq<Hand>, hand: Hand): seq<Hand> {
    var p := InsertPos(hands, hand);
    hands[..p] + [hand] + hands[p..]
  }

  /** No hand is less than a hand before it. */
  predicate Sorted(hands: seq<Hand>) {
    forall i, j :: 0 <= i < j < |hands| ==> !HandLess(hands[j], hands[i])
  }

  /** Inserting adds exactly the new hand. */
  lemma InsertedContents(hands: seq<Hand>, hand: Hand)
    ensures multiset(Inserted(hands, hand)) == multiset(hands) + multiset{hand}
    ensures |Inserted(hands, hand)| == |hands| + 1
  {
    var p := InsertPos(hands, hand);
    assert hands == hands[..p] + hands[p..];
  }

  /** Inserting is stable: the new hand comes after every hand it is not
      less than and before every hand it is less than. */
  lemma InsertStable(hands: seq<Hand>, hand: Hand)
    requires Sorted(hands)
    ensures forall j :: 0 <= j < |hands| ==>
      (HandLess(hand, hands[j]) <==> j >= InsertPos(hands, hand))
  {
    var p := InsertPos(hands, hand);
    forall j | p < j < |hands|
      ensures HandLess(hand, hands[j])
    {
      LessThenNotLess(hand, hands[p], hands[j]);
    }
  }

  /** Inserting keeps the list sorted. */
  lemma InsertSorted(hands: seq<Hand>, hand: Hand)
    requires Sorted(hands)
    ensures Sorted(Inserted(hands, hand))
  {
    var p := InsertPos(hands, hand);
    var r := Inserted(hands, hand);
    InsertStable(hands, hand);
    forall i, j | 0 <= i < j < |r|
      ensures !HandLess(r[j], r[i])
    {
      if j < p {
        assert r[i] == hands[i] && r[j] == hands[j];
      } else if j == p {
        assert r[i] == hands[i] && r[j] == hand;
      } else if i == p {
        assert r[j] == hands[j - 1];
        HandLessOrder(hands[j - 1], hand, hands[j - 1]);
      } else if i < p {
        assert r[i] == hands[i] && r[j] == hands[j - 1];
      } else {
        assert r[i] == hands[i - 1] && r[j] == hands[j - 1];
      }
    }
  }

  // ---------------------------------------------------------------------
  // Winnings

  /** The rank `Winnings` gives the hand at position i: a hand with the same
      cards as the one before it shares that one's rank, any other hand
      ranks by its position from 1. */
  function Rank(hands: seq<Hand>, i: nat): nat
    requires i < |hands|
  {
    if i > 0 && hands[i].cards == hands[i - 1].cards then Rank(hands, i - 1) else i + 1
  }

  /** The rank is the position, from 1, where the run of equal cards that
      holds position i starts. */
  lemma {:induction false} RankStartsRun(hands: seq<Hand>, i: nat)
    requires i < |hands|
    ensures 1 <= Rank(hands, i) <= i + 1
    ensures forall m :: Rank(hands, i) - 1 <= m <= i ==> hands[m].cards == hands[i].cards
    ensures Rank(hands, i) == 1 || hands[Rank(hands, i) - 2].cards != hands[Rank(hands, i) - 1].cards
  {
    if i > 0 && hands[i].cards == hands[i - 1].cards {
      RankStartsRun(hands, i - 1);
    }
  }

  /** What the loop of `Winnings` adds up: bid times rank over the first n
      hands. */
  function PrefixWinnings(hands: seq<Hand>, n: nat): int
    requires n <= |hands|
  {
    if n == 0 then 0 else PrefixWinnings(hands, n - 1) + hands[n - 1].bid * Rank(hands, n - 1)
  }

  /** `Winnings`: the hands before the last by bid times rank, the last by
      bid times the count of hands, whatever its cards; nothing for no
      hands. */
  function WinningsOf(hands: seq<Hand>, length: int): int {
    if |hands| == 0 then 0 else PrefixWinnings(hands, |hands| - 1) + hands[|hands| - 1].bid * length
  }

  /** Bid times position from 1, summed over the first n hands. */
  function PositionWinnings(hands: seq<Hand>, n: nat): int
    requires n <= |hands|
  {
    if n == 0 then 0 else PositionWinnings(hands, n - 1) + hands[n - 1].bid * n
  }

  /** No two neighbours with the same cards. */
  predicate NoTies(hands: seq<Hand>) {
    forall m :: 0 < m < |hands| ==> hands[m].cards != hands[m - 1].cards
  }

  /** Without ties every hand's rank is its position. */
  lemma {:induction false} PrefixWinningsNoTies(hands: seq<Hand>, n: nat)
    requires n <= |hands| && NoTies(hands)
    ensures PrefixWinnings(hands, n) == PositionWinnings(hands, n)
  {
    if n > 0 {
      PrefixWinningsNoTies(hands, n - 1);
    }
  }

  /** Without ties and with `length` the number of hands, the winnings are
      the sum of bid times position. */
  lemma {:induction false} WinningsNoTies(hands: seq<Hand>)
    requires NoTies(hands)
    ensures WinningsOf(hands, |hands|) == PositionWinnings(hands, |hands|)
  {
    if |hands| > 0 {
      PrefixWinningsNoTies(hands, |hands| - 1);
    }
  }

  /** Ties share a rank except at the last hand, which always counts the
      whole length: two hands with equal cards win their first bid once and
      their second twice. */
  lemma LastHandIgnoresTie(a: Hand, b: Hand)
    requires a.cards == b.cards
    ensures Rank([a, b], 1) == 1
    ensures WinningsOf([a, b], 2) == a.bid + 2 * b.bid
  {
    assert PrefixWinnings([a, b], 1) == a.bid * Rank([a, b], 0);
  }

  // ---------------------------------------------------------------------
  // Parsing

  /** `parseHand`: the first field gives the cards, the second the bid; a
      missing field, a bad card or a bid that is no integer is fatal. */
  ghost function HandOf(line: string, variant: bool): Option<Hand> {
    var fields := GoStrings.Fields(line);
    if |fields| < 2 then None
    else match CardsOf(fields[0], variant)
      case None => None
      case Some(cards) =>
        match Strconv.Atoi(fields[1])
        case None => None
        case Some(bid) => Some(Hand(cards, bid, HandStrength(cards, variant)))
  }

  /** The hands of the lines, or nothing when a line is fatal. */
  ghost function HandsOf(lines: seq<string>, variant: bool): Option<seq<Hand>> {
    if |lines| == 0 then Some([])
    else
      var front :- HandsOf(lines[..|lines| - 1], variant);
      var hand :- HandOf(lines[|lines| - 1], variant);
      Some(front + [hand])
  }

  /** One fatal line makes the whole input fail. */
  lemma {:induction false} HandsOfFails(lines: seq<string>, variant: bool, i: nat)
    requires i < |lines| && HandOf(lines[i], variant).None?
    ensures HandsOf(lines, variant).None?
  {
    if i < |lines| - 1 {
      var front := lines[..|lines| - 1];
      assert front[i] == lines[i];
      HandsOfFails(front, variant, i);
    }
  }

  /** Reading one more line inserts one more hand. */
  lemma HandsStep(lines: seq<string>, variant: bool, l: nat, hands: seq<Hand>, hand: Hand)
    requires l < |lines| && HandsOf(lines[..l], variant) == Some(hands) && HandOf(lines[l], variant) == Some(hand)
    ensures HandsOf(lines[..l + 1], variant) == Some(hands + [hand])
    ensures InsertAll(hands + [hand]) == Inserted(InsertAll(hands), hand)
  {
    assert lines[..l + 1][..l] == lines[..l];
    assert (hands + [hand])[..|hands|] == hands;
  }

  /** The list after inserting the hands one by one into an empty game. */
  function InsertAll(hands: seq<Hand>): seq<Hand> {
    if |hands| == 0 then [] else Inserted(InsertAll(hands[..|hands| - 1]), hands[|hands| - 1])
  }

  /** The game's list is sorted and holds exactly the inserted hands. */
  lemma {:induction false} InsertAllSorted(hands: seq<Hand>)
    ensures Sorted(InsertAll(hands)) && multiset(InsertAll(hands)) == multiset(hands)
  {
    if |hands| > 0 {
      var front := hands[..|hands| - 1];
      InsertAllSorted(front);
      InsertSorted(InsertAll(front), hands[|hands| - 1]);
      InsertedContents(InsertAll(front), hands[|hands| - 1]);
      assert hands == front + [hands[|hands| - 1]];
    }
  }

  // ---------------------------------------------------------------------
  // The game as a linked list

  /** The insertion position is the one place with no greater hand before
      it and a greater hand (or the end) at it. */
  lemma {:induction false} InsertPosUnique(hands: seq<Hand>, hand: Hand, p: nat)
    requires p <= |hands| && forall j :: 0 <= j < p ==> !HandLess(hand, hands[j])
    requires p < |hands| ==> HandLess(hand, hands[p])
    ensures InsertPos(hands, hand) == p
  {
    if |hands| > 0 && !HandLess(hand, hands[0]) {
      assert p > 0;
      assert forall j :: 0 <= j < p - 1 ==> hands[1..][j] == hands[j + 1];
      InsertPosUnique(hands[1..], hand, p - 1);
    }
  }

  /** The hands after `InsertHand`, with the position known. */
  lemma InsertedAt(hands: seq<Hand>, hand: Hand, p: nat)
    requires InsertPos(hands, hand) == p
    ensures Inserted(hands, hand) == hands[..p] + [hand] + hands[p..]
  {
  }

  /** `nodes` are the nodes from `head` along `Next` up to nil, each once. */
  ghost predicate Chain(head: CamelHand?, nodes: seq<CamelHand>)
    reads nodes
  {
    head == (if |nodes| == 0 then null else nodes[0]) &&
    (forall i :: 0 <= i < |nodes| - 1 ==> nodes[i].next == nodes[i + 1]) &&
    (|nodes| > 0 ==> nodes[|nodes| - 1].next == null) &&
    Distinct(nodes)
  }

  /** No element occurs twice. */
  ghost predicate Distinct<T>(s: seq<T>) {
    forall i, j :: 0 <= i < j < |s| ==> s[i] != s[j]
  }

  /** Where the elements of a sequence go when `x` is spliced in at `p`. */
  lemma SpliceAt<T>(s: seq<T>, p: nat, x: T)
    requires p <= |s|
    ensures |s[..p] + [x] + s[p..]| == |s| + 1 && (s[..p] + [x] + s[p..])[p] == x
    ensures forall i :: 0 <= i < p ==> (s[..p] + [x] + s[p..])[i] == s[i]
    ensures forall i :: p < i <= |s| ==> (s[..p] + [x] + s[p..])[i] == s[i - 1]
  {
  }

  /** Splicing a new element into a sequence without duplicates keeps it so. */
  lemma SpliceDistinct<T>(s: seq<T>, p: nat, x: T)
    requires p <= |s| && Distinct(s) && x !in s
    ensures Distinct(s[..p] + [x] + s[p..])
  {
    var r := s[..p] + [x] + s[p..];
    forall i, j | 0 <= i < j < |r|
      ensures r[i] != r[j]
    {
      if j < p {
        assert r[i] == s[i] && r[j] == s[j];
      } else if i > p {
        assert r[i] == s[i - 1] && r[j] == s[j - 1];
      } else if i < p {
        assert r[i] == s[i];
        assert j == p || r[j] == s[j - 1];
      } else {
        assert r[i] == x && r[j] == s[j - 1];
      }
    }
  }

  /** The values of the nodes. */
  ghost function ValuesOf(nodes: seq<CamelHand>): (hs: seq<Hand>)
    ensures |hs| == |nodes| && forall i :: 0 <= i < |nodes| ==> hs[i] == nodes[i].Value()
  {
    seq(|nodes|, i requires 0 <= i < |nodes| => nodes[i].Value())
  }

  /** Splicing a node into the list splices its value into the values. */
  lemma ValuesOfSplice(nodes: seq<CamelHand>, p: nat, hand: CamelHand)
    requires p <= |nodes|
    ensures ValuesOf(nodes[..p] + [hand] + nodes[p..]) == ValuesOf(nodes)[..p] + [hand.Value()] + ValuesOf(nodes)[p..]
  {
  }

  /** A hand of the game: its value and the `Next` pointer. */
  class CamelHand {
    const cards: Cards
    const bid: int
    const strength: int
    var next: CamelHand?

    function Value(): Hand {
      Hand(cards, bid, strength)
    }

    constructor (cards: Cards, bid: int, strength: int)
      ensures Value() == Hand(cards, bid, strength) && next == null
    {
      this.cards, this.bid, this.strength := cards, bid, strength;
      next := null;
    }
  }

  /** `CamelGame`: the number of hands and the head of their list. */
  class CamelGame {
    var length: int
    var head: CamelHand?
    /** The nodes from the head along `Next`. */
    ghost var nodes: seq<CamelHand>
    ghost var Repr: set<object>

    /** The nodes form a list from `head` that ends in nil, each node once,
        and `length` counts them. */
    ghost predicate Valid()
      reads this, Repr
    {
      this in Repr && (forall i :: 0 <= i < |nodes| ==> nodes[i] in Repr) &&
      Chain(head, nodes) && length == |nodes|
    }

    /** The hands in list order. */
    ghost function Hands(): seq<Hand>
      reads this
    {
      ValuesOf(nodes)
    }

    constructor ()
      ensures Valid() && fresh(Repr) && Hands() == [] && length == 0
    {
      length, head := 0, null;
      nodes, Repr := [], {this};
    }

    /** `Winnings`: walks the list with the previous node, the position i
        and the rank j of the last hand that did not tie its predecessor. */
    method Winnings() returns (sum: int)
      requires Valid()
      ensures sum == WinningsOf(Hands(), length)
    {
      ghost var hs := Hands();
      var prev: CamelHand? := null;
      var curr := head;
      if curr == null {
        return 0;
      }
      sum := 0;
      var i, j := 1, 1;
      ghost var k := 0;
      while curr.next != null
        invariant 0 <= k < |nodes| && curr == nodes[k] && i == k + 1
        invariant k + 1 < |nodes| ==> curr.next == nodes[k + 1]
        invariant prev == if k == 0 then null else nodes[k - 1]
        invariant k > 0 ==> j == Rank(hs, k - 1)
        invariant sum == PrefixWinnings(hs, k)
        decreases |nodes| - k
      {
        if prev != null && curr.cards == prev.cards {
          sum := sum + curr.bid * j;
        } else {
          sum := sum + curr.bid * i;
          j := i;
        }
        i := i + 1;
        prev := curr;
        curr := curr.next;
        k := k + 1;
      }
      assert k == |nodes| - 1 && hs[k] == curr.Value();
      sum := sum + curr.bid * length;
    }

    /** `InsertHand`: counts the hand and links it in before the first hand
        it is less than, or at the end. */
    method InsertHand(hand: CamelHand)
      requires Valid() && hand !in Repr && hand.next == null
      modifies Repr, hand
      ensures Valid() && Repr == old(Repr) + {hand}
      ensures length == old(length) + 1
      ensures Hands() == Inserted(old(Hands()), hand.Value())
    {
      length := length + 1;
      var curr := head;
      if curr == null {
        head := hand;
        nodes, Repr := [hand], Repr + {hand};
        InsertedAt(old(Hands()), hand.Value(), 0);
        return;
      }
      InsertIntoList(hand);
    }

    /** The part of `InsertHand` for a list with a head: before the head if
        the hand is less than it, else after the node `Locate` stops at. */
    method InsertIntoList(hand: CamelHand)
      requires Chain(head, nodes) && |nodes| > 0 && hand !in nodes && hand.next == null
      requires this in Repr && forall i :: 0 <= i < |nodes| ==> nodes[i] in Repr
      modifies this, Repr, hand
      ensures length == old(length) && Repr == old(Repr) + {hand}
      ensures Chain(head, nodes) && this in Repr && forall i :: 0 <= i < |nodes| ==> nodes[i] in Repr
      ensures ValuesOf(nodes) == Inserted(ValuesOf(old(nodes)), hand.Value())
    {
      ghost var hs, hv := ValuesOf(nodes), hand.Value();
      var less := Less(hand.Value(), head.Value());
      if less {
        LinkFirst(hand);
        ValuesOfSplice(old(nodes), 0, hand);
        InsertedAt(hs, hv, 0);
        return;
      }
      var after, k := Locate(hand);
      LinkAfter(after, hand, k);
      ValuesOfSplice(old(nodes), k + 1, hand);
      InsertedAt(hs, hv, k + 1);
    }

    /** The walk of `InsertHand` past the head: from the head along `Next`
        while the hand is not less than the next one, stopping at the last
        node. The hand goes right after the node it stops at. */
    method Locate(hand: CamelHand) returns (curr: CamelHand, ghost k: nat)
      requires Chain(head, nodes) && |nodes| > 0
      requires !HandLess(hand.Value(), nodes[0].Value())
      ensures k < |nodes| && curr == nodes[k]
      ensures InsertPos(ValuesOf(nodes), hand.Value()) == k + 1
    {
      ghost var hs := ValuesOf(nodes);
      curr, k := head, 0;
      var less := false;
      while curr.next != null && !less
        invariant 0 <= k < |nodes| && curr == nodes[k]
        invariant forall j :: 0 <= j <= k ==> !HandLess(hand.Value(), hs[j])
        invariant less ==> k + 1 < |nodes| && HandLess(hand.Value(), hs[k + 1])
        decreases |nodes| - k, if less then 0 else 1
      {
        less := Less(hand.Value(), curr.next.Value());
        if !less {
          curr := curr.next;
          k := k + 1;
        }
      }
      InsertPosUnique(hs, hand.Value(), k + 1);
    }

    /** `hand.Next = curr; g.head = hand`: the hand becomes the head. */
    method LinkFirst(hand: CamelHand)
      requires Chain(head, nodes) && |nodes| > 0 && hand !in nodes && hand.next == null
      requires this in Repr && forall i :: 0 <= i < |nodes| ==> nodes[i] in Repr
      modifies this, hand
      ensures length == old(length) && Repr == old(Repr) + {hand}
      ensures nodes == [hand] + old(nodes) && Chain(head, nodes)
      ensures this in Repr && forall i :: 0 <= i < |nodes| ==> nodes[i] in Repr
    {
      ghost var before := nodes;
      assert forall i :: 0 <= i < |before| ==> before[i] != hand;
      hand.next := head;
      head := hand;
      nodes, Repr := [hand] + nodes, Repr + {hand};
      SpliceDistinct(before, 0, hand);
      assert nodes == before[..0] + [hand] + before[0..];
      forall i | 0 < i < |nodes| - 1
        ensures nodes[i].next == nodes[i + 1]
      {
        assert nodes[i] == before[i - 1] && nodes[i + 1] == before[i];
      }
      assert nodes[|nodes| - 1] == before[|before| - 1];
    }

    /** `hand.Next = curr.Next; curr.Next = hand` with `curr` the k-th node
        (at the end of the list the first assignment stores the nil that
        `hand.Next` already holds). */
    method LinkAfter(curr: CamelHand, hand: CamelHand, ghost k: nat)
      requires Chain(head, nodes) && k < |nodes| && curr == nodes[k]
      requires hand !in nodes && hand.next == null
      requires this in Repr && forall i :: 0 <= i < |nodes| ==> nodes[i] in Repr
      modifies this, curr, hand
      ensures head == old(head) && length == old(length) && Repr == old(Repr) + {hand}
      ensures nodes == old(nodes)[..k + 1] + [hand] + old(nodes)[k + 1..]
      ensures Chain(head, nodes)
      ensures this in Repr && forall i :: 0 <= i < |nodes| ==> nodes[i] in Repr
    {
      ghost var before := nodes;
      assert forall i :: 0 <= i < |before| && i != k ==> before[i] != curr;
      assert forall i :: 0 <= i < |before| ==> before[i] != hand;
      hand.next := curr.next;
      curr.next := hand;
      nodes, Repr := nodes[..k + 1] + [hand] + nodes[k + 1..], Repr + {hand};
      SpliceDistinct(before, k + 1, hand);
      SpliceAt(before, k + 1, hand);
      forall i | 0 <= i < |nodes| - 1
        ensures nodes[i].next == nodes[i + 1]
      {
        if i < k {
          assert nodes[i] == before[i] && nodes[i + 1] == before[i + 1];
        } else if i > k + 1 {
          assert nodes[i] == before[i - 1] && nodes[i + 1] == before[i];
        }
      }
      if k + 1 < |before| {
        assert nodes[|nodes| - 1] == before[|before| - 1];
      }
    }
  }

  /** `parseHand` on values: the node is allocated by the caller. */
  method ParseHand(line: string, variant: bool) returns (cards: Cards, bid: int, strength: int, ok: bool)
    ensures ok <==> HandOf(line, variant).Some?
    ensures ok ==> HandOf(line, variant).value == Hand(cards, bid, strength)
  {
    var fields := GoStrings.Fields(line);
    if |fields| == 0 {
      return [NoCard, NoCard, NoCard, NoCard, NoCard], 0, 0, false;
    }
    cards, strength, ok := NewCamelHand(fields[0], variant);
    if !ok || |fields| < 2 {
      return cards, 0, strength, false;
    }
    var parsed := Strconv.Atoi(fields[1]);
    if parsed.None? {
      return cards, 0, strength, false;
    }
    bid := parsed.value;
  }

  /** The loop body of `Parse`: `parseHand` on line l, then a new node for
      the hand, inserted into the game. */
  method ReadLine(game: CamelGame, lines: seq<string>, l: nat, variant: bool, ghost hands: seq<Hand>)
      returns (ok: bool, ghost read: seq<Hand>)
    requires l < |lines| && HandsOf(lines[..l], variant) == Some(hands)
    requires game.Valid() && game.Hands() == InsertAll(hands)
    modifies game.Repr
    ensures game.Valid() && fresh(game.Repr - old(game.Repr))
    ensures ok <==> HandOf(lines[l], variant).Some?
    ensures !ok ==> HandsOf(lines, variant).None?
    ensures ok ==> HandsOf(lines[..l + 1], variant) == Some(read) && game.Hands() == InsertAll(read)
    ensures game.length == old(game.length) + (if ok then 1 else 0)
  {
    var cards, bid, strength;
    cards, bid, strength, ok := ParseHand(lines[l], variant);
    if !ok {
      HandsOfFails(lines, variant, l);
      return ok, hands;
    }
    HandsStep(lines, variant, l, hands, Hand(cards, bid, strength));
    var hand := new CamelHand(cards, bid, strength);
    game.InsertHand(hand);
    read := hands + [hand.Value()];
  }

  /** `Parse`: a new game with the hand of every line inserted in turn. */
  method Parse(lines: seq<string>, variant: bool) returns (game: CamelGame, ok: bool)
    ensures game.Valid() && fresh(game.Repr)
    ensures ok <==> HandsOf(lines, variant).Some?
    ensures ok ==> game.Hands() == InsertAll(HandsOf(lines, variant).value) && game.length == |lines|
  {
    game := new CamelGame();
    ghost var hands: seq<Hand> := [];
    var l := 0;
    ok := true;
    while ok && l < |lines|
      invariant 0 <= l <= |lines| && game.Valid() && fresh(game.Repr)
      invariant ok ==> HandsOf(lines[..l], variant) == Some(hands) && game.Hands() == InsertAll(hands) && game.length == l
      invariant !ok ==> HandsOf(lines, variant).None?
    {
      ok, hands := ReadLine(game, lines, l, variant, hands);
      l := l + 1;
    }
    if ok {
      assert lines[..l] == lines;
    }
  }

  /** `Day7`: the winnings of the game the lines make. */
  method Day7(lines: seq<string>, variant: bool) returns (winnings: int, ok: bool)
    ensures ok <==> HandsOf(lines, variant).Some?
    ensures ok ==> winnings == WinningsOf(InsertAll(HandsOf(lines, variant).value), |lines|)
  {
    var game;
    game, ok := Parse(lines, variant);
    if !ok {
      return 0, false;
    }
    winnings := game.Winnings();
  }
}
