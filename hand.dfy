/**
 * The pure pieces of the per-player selection engine (Assets/Scripts/GameManager.cs):
 * hand cards with an identity, the (type, id) order the hand is kept in, the
 * sub-list of cards that may still be played, the highlight each hand card is
 * drawn with, and the seat arithmetic of the three-player circle.
 */
module Hand {
  import opened Options
  import opened Cards

  /**
   * A card object held in a player's hand. `uid` stands for the object's
   * identity: the game compares hand cards and selection slots by reference,
   * so two copies of the same catalog card are different hand cards.
   */
  datatype HandCard = HandCard(uid: nat, card: Card)

  /** True when a selection slot holds this very card object. */
  predicate Holds(slot: Option<HandCard>, c: HandCard) {
    slot.Some? && slot.value.uid == c.uid
  }

  /** No two cards of the hand are the same object. */
  predicate UidsDistinct(hand: seq<HandCard>) {
    forall i, j :: 0 <= i < j < |hand| ==> hand[i].uid != hand[j].uid
  }

  /** In such a hand, the object number of a card determines the card. */
  lemma SameObjectSameCard(hand: seq<HandCard>, x: HandCard)
    requires UidsDistinct(hand) && x in hand
    ensures forall c :: c in hand && c.uid == x.uid ==> c == x
  {
    var i :| 0 <= i < |hand| && hand[i] == x;
    forall c | c in hand && c.uid == x.uid ensures c == x {
      var j :| 0 <= j < |hand| && hand[j] == c;
      assert !(i < j) && !(j < i);
    }
  }

  // ---------------------------------------------------------------------------
  // Hand order: by card type in declaration order, then by id.

  /** The underlying value of the CardType enum, which CompareTo orders by. */
  function TypeRank(t: CardType): (r: nat)
    ensures r < 4
  {
    match t
    case Green => 0
    case Blue => 1
    case Red => 2
    case Yellow => 3
  }

  /**
   * The comparator of SortHand says `a` may come before `b`: by type first,
   * then by id. It is total: `a` may come first exactly when `b` need not.
   */
  predicate KeyLe(a: HandCard, b: HandCard): (r: bool)
    ensures r <==> !KeyLt(b, a)
  {
    TypeRank(a.card.cardType) < TypeRank(b.card.cardType) ||
    (TypeRank(a.card.cardType) == TypeRank(b.card.cardType) && a.card.id <= b.card.id)
  }

  /** The comparator of SortHand says `a` must come before `b`. */
  predicate KeyLt(a: HandCard, b: HandCard) {
    TypeRank(a.card.cardType) < TypeRank(b.card.cardType) ||
    (TypeRank(a.card.cardType) == TypeRank(b.card.cardType) && a.card.id < b.card.id)
  }

  /** Ascending by (type, id); cards with equal keys may come in either order. */
  predicate SortedByKey(s: seq<HandCard>) {
    forall i, j :: 0 <= i < j < |s| ==> KeyLe(s[i], s[j])
  }

  /** Ascending by (type, id) with no two cards sharing a key. */
  predicate StrictlySortedByKey(s: seq<HandCard>) {
    forall i, j :: 0 <= i < j < |s| ==> KeyLt(s[i], s[j])
  }

  /** Places `x` into a sorted hand, keeping it sorted and losing nothing. */
  function Insert(x: HandCard, s: seq<HandCard>): (r: seq<HandCard>)
    requires SortedByKey(s)
    ensures SortedByKey(r)
    ensures multiset(r) == multiset(s) + multiset{x}
  {
    if s == [] then [x]
    else if KeyLe(x, s[0]) then [x] + s
    else
      assert s == [s[0]] + s[1..];
      var rest := Insert(x, s[1..]);
      InsertBelow(x, s[1..], rest, s[0]);
      [s[0]] + rest
  }

  /** Whatever was inserted into the tail stays above a head that is below both. */
  lemma InsertBelow(x: HandCard, tail: seq<HandCard>, rest: seq<HandCard>, head: HandCard)
    requires multiset(rest) == multiset(tail) + multiset{x}
    requires SortedByKey(rest) && KeyLe(head, x)
    requires forall c :: c in tail ==> KeyLe(head, c)
    ensures SortedByKey([head] + rest)
  {
    forall c | c in rest ensures KeyLe(head, c) {
      assert c in multiset(rest);
    }
  }

  /** Inserting a card object that is not yet in a hand keeps its objects distinct. */
  lemma {:induction false} InsertKeepsUidsDistinct(x: HandCard, s: seq<HandCard>)
    requires SortedByKey(s) && UidsDistinct(s)
    requires forall c :: c in s ==> c.uid != x.uid
    ensures UidsDistinct(Insert(x, s))
  {
    if s != [] && !KeyLe(x, s[0]) {
      assert s == [s[0]] + s[1..];
      InsertKeepsUidsDistinct(x, s[1..]);
      var rest := Insert(x, s[1..]);
      forall c | c in rest ensures c.uid != s[0].uid {
        assert c in multiset(rest);
      }
    }
  }

  /**
   * SortHand's List.Sort: the hand comes back as a permutation of itself
   * ordered ascending by (type, id), and no card object is duplicated.
   */
  method SortCards(hand: seq<HandCard>) returns (sorted: seq<HandCard>)
    ensures SortedByKey(sorted)
    ensures multiset(sorted) == multiset(hand)
    ensures UidsDistinct(hand) ==> UidsDistinct(sorted)
  {
    sorted := [];
    var i := 0;
    while i < |hand|
      invariant 0 <= i <= |hand|
      invariant SortedByKey(sorted)
      invariant multiset(sorted) == multiset(hand[..i])
      invariant UidsDistinct(hand) ==> UidsDistinct(sorted)
    {
      if UidsDistinct(hand) {
        forall c | c in sorted ensures c.uid != hand[i].uid {
          assert c in multiset(hand[..i]);
        }
        InsertKeepsUidsDistinct(hand[i], sorted);
      }
      sorted := Insert(hand[i], sorted);
      assert hand[..i + 1] == hand[..i] + [hand[i]];
      i := i + 1;
    }
    assert hand[..|hand|] == hand;
  }

  /**
   * When the keys of a hand are all different, the sorted order is unique:
   * any sorted permutation of a strictly sorted hand is that hand.
   */
  lemma {:induction false} SortedPermutationUnique(a: seq<HandCard>, b: seq<HandCard>)
    requires StrictlySortedByKey(a) && SortedByKey(b)
    requires multiset(a) == multiset(b)
    ensures a == b
  {
    if a == [] {
      assert |b| == |multiset(b)| == 0;
    } else {
      assert |b| == |multiset(b)| == |multiset(a)| == |a|;
      assert a[0] in multiset(b);
      var j :| 0 <= j < |b| && b[j] == a[0];
      assert b[0] in multiset(a);
      var i :| 0 <= i < |a| && a[i] == b[0];
      assert i == 0;
      assert a[0] == b[0];
      assert a == [a[0]] + a[1..];
      assert b == [b[0]] + b[1..];
      assert multiset(a) == multiset{a[0]} + multiset(a[1..]);
      assert multiset(b) == multiset{b[0]} + multiset(b[1..]);
      assert multiset(a[1..]) == multiset(a) - multiset{a[0]};
      assert multiset(b[1..]) == multiset(b) - multiset{b[0]};
      SortedPermutationUnique(a[1..], b[1..]);
    }
  }

  // ---------------------------------------------------------------------------
  // The cards a forced selection may draw from.

  /** The non-exhausted cards of the hand, in hand order. */
  function Available(hand: seq<HandCard>): (r: seq<HandCard>)
    ensures |r| <= |hand|
    ensures forall c :: c in r <==> c in hand && !c.card.isExhausted
  {
    if hand == [] then []
    else
      var last := hand[|hand| - 1];
      assert hand == hand[..|hand| - 1] + [last];
      Available(hand[..|hand| - 1]) + (if last.card.isExhausted then [] else [last])
  }

  /** SelectRandomCards' first loop: collects the cards that are not exhausted. */
  method CollectAvailable(hand: seq<HandCard>) returns (available: seq<HandCard>)
    ensures available == Available(hand)
  {
    available := [];
    for i := 0 to |hand|
      invariant available == Available(hand[..i])
    {
      assert hand[..i + 1][..i] == hand[..i];
      if !hand[i].card.isExhausted {
        available := available + [hand[i]];
      }
    }
    assert hand[..|hand|] == hand;
  }

  /**
   * The outcomes the forced selection allows for one slot: a slot that is
   * already set, or a hand with nothing playable, is left as it was; otherwise
   * the slot receives some playable card of the hand, any one of them.
   */
  ghost predicate ForcedFill(hand: seq<HandCard>, before: Option<HandCard>, after: Option<HandCard>): (r: bool)
    ensures r && before.Some? ==> after == before
    ensures r && after.Some? ==> after == before || (after.value in hand && !after.value.card.isExhausted)
    ensures r ==> (after.None? <==> before.None? && forall c :: c in hand ==> c.card.isExhausted)
  {
    if before.Some? || Available(hand) == [] then after == before
    else after.Some? && after.value in hand && !after.value.card.isExhausted
  }

  /**
   * The two slots are filled independently, so the forced selection may put
   * the same card in both: with one playable card and both slots empty, it must.
   */
  lemma ForcedFillMayRepeat(hand: seq<HandCard>, c: HandCard, left: Option<HandCard>, right: Option<HandCard>)
    requires Available(hand) == [c]
    requires ForcedFill(hand, None, left) && ForcedFill(hand, None, right)
    ensures left == right == Some(c)
  {
  }

  /** With something playable in the hand, the forced selection leaves no slot empty. */
  lemma ForcedFillCompletes(hand: seq<HandCard>, l0: Option<HandCard>, l1: Option<HandCard>,
                            r0: Option<HandCard>, r1: Option<HandCard>)
    requires exists c :: c in hand && !c.card.isExhausted
    requires ForcedFill(hand, l0, l1) && ForcedFill(hand, r0, r1)
    ensures l1.Some? && r1.Some?
  {
    var c :| c in hand && !c.card.isExhausted;
    assert c in Available(hand);
  }

  // ---------------------------------------------------------------------------
  // How UpdateHandDisplay draws each hand card.

  /** Grey for an exhausted card, dimmed for a selected one, white otherwise. */
  datatype Highlight = Exhausted | Dimmed | Normal

  /**
   * The highlight of a hand card: exhaustion wins over selection, selection
   * (for either neighbour) wins over the normal look.
   */
  function HighlightOf(c: HandCard, left: Option<HandCard>, right: Option<HandCard>): (h: Highlight)
    ensures h == Exhausted <==> c.card.isExhausted
    ensures h == Dimmed <==> !c.card.isExhausted && (Holds(left, c) || Holds(right, c))
    ensures h == Normal <==> !c.card.isExhausted && !Holds(left, c) && !Holds(right, c)
  {
    if c.card.isExhausted then Exhausted
    else if Holds(left, c) || Holds(right, c) then Dimmed
    else Normal
  }

  // ---------------------------------------------------------------------------
  // Seats: three players sit in a circle, positions 0, 1 and 2.

  /** The previous player in the circle, shown as the left neighbour. */
  function LeftNeighbour(p: nat): (q: nat)
    ensures q < 3 && q != p % 3
  {
    (p + 2) % 3
  }

  /** The next player in the circle, shown as the right neighbour. */
  function RightNeighbour(p: nat): (q: nat)
    ensures q < 3 && q != p % 3 && q != LeftNeighbour(p)
  {
    (p + 1) % 3
  }

  /** A player and its two neighbours are the whole table, and the neighbours face each other. */
  lemma SeatsCoverTable(p: nat)
    requires p < 3
    ensures {p, LeftNeighbour(p), RightNeighbour(p)} == {0, 1, 2}
    ensures RightNeighbour(LeftNeighbour(p)) == p && LeftNeighbour(RightNeighbour(p)) == p
  {
  }

  /** InitializeGameWithBots: with `bots` bots the highest seats are the bots. */
  predicate IsBotSeat(i: int, bots: int) {
    i >= 3 - bots
  }

  /** The bot seats among 0, 1 and 2. */
  function BotSeats(bots: int): (s: set<int>)
    ensures forall i :: i in s ==> 0 <= i < 3
  {
    set i | 0 <= i < 3 && IsBotSeat(i, bots)
  }

  /**
   * With 0 to 3 bots there are exactly that many bot seats, and they are the
   * last ones; seat 0 stays human unless all three seats are bots.
   */
  lemma {:induction false} BotSeatCount(bots: int)
    requires 0 <= bots <= 3
    ensures |BotSeats(bots)| == bots
    ensures forall i, j :: 0 <= i <= j < 3 && i in BotSeats(bots) ==> j in BotSeats(bots)
    ensures bots < 3 ==> 0 !in BotSeats(bots)
  {
    if bots == 0 {
      assert BotSeats(bots) == {};
    } else if bots == 1 {
      assert BotSeats(bots) == {2};
    } else if bots == 2 {
      assert BotSeats(bots) == {1, 2};
    } else {
      assert BotSeats(bots) == {0, 1, 2};
    }
  }
}
