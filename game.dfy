/**
 * The per-player selection engine of Assets/Scripts/GameManager.cs: the two
 * neighbour slots, the hand, the round phase and the planning countdown, and
 * the operations that change them.
 */
module Game {
  import opened Options
  import opened Cards
  import opened Hand

  datatype GamePhase = Waiting | Planning | Revealing | Resolving | Refresh

  /** The ReceiveCardSelection broadcast: who played, and the ids of the card for each neighbour. */
  datatype Submission = Submission(actorNumber: int, leftCardId: int, rightCardId: int)

  /** The countdown, in ticks, at or below which the master client plays for the bots. */
  const BotThreshold: int := 25

  /** The default length of a planning phase, in ticks. */
  const DefaultTurnTimer: int := 60

  /** The smaller of two integers. */
  function Min(a: int, b: int): (m: int)
    ensures m <= a && m <= b && (m == a || m == b)
  {
    if a <= b then a else b
  }

  /**
   * The hand InitializeGame deals: fresh copies of catalog cards 1 to 4, as new
   * objects numbered from `base`. Their keys are all different and already in
   * (type, id) order.
   */
  function StartingHand(base: nat, catalog: map<int, Card>): (hand: seq<HandCard>)
    requires IsBasicCatalog(catalog)
    ensures |hand| == 4 && StrictlySortedByKey(hand) && UidsDistinct(hand)
    ensures forall k :: 0 <= k < 4 ==> hand[k].card == catalog[k + 1] && hand[k].uid == base + k
  {
    [HandCard(base, catalog[1]), HandCard(base + 1, catalog[2]),
     HandCard(base + 2, catalog[3]), HandCard(base + 3, catalog[4])]
  }

  /** The dealt cards are new objects: their numbers are `base` to `base + 3`. */
  lemma StartingHandFresh(base: nat, catalog: map<int, Card>)
    requires IsBasicCatalog(catalog)
    ensures forall c :: c in StartingHand(base, catalog) ==> base <= c.uid < base + 4
  {
    var hand := StartingHand(base, catalog);
    forall c | c in hand ensures base <= c.uid < base + 4 {
      var k :| 0 <= k < 4 && hand[k] == c;
    }
  }

  /** The dealt hand is already in (type, id) order, so sorting it changes nothing. */
  lemma SortingKeepsStartingHand(base: nat, catalog: map<int, Card>, sorted: seq<HandCard>)
    requires IsBasicCatalog(catalog)
    requires SortedByKey(sorted) && multiset(sorted) == multiset(StartingHand(base, catalog))
    ensures sorted == StartingHand(base, catalog)
  {
    SortedPermutationUnique(StartingHand(base, catalog), sorted);
  }

  /**
   * The four `playerHand.Add(CreateCardCopy(id))` calls: copies of Farmer,
   * Wall, Raider and Merchant, as new objects numbered from `base`.
   */
  method DealStartingHand(catalog: CardData, base: nat) returns (hand: seq<HandCard>)
    requires IsBasicCatalog(catalog.allCards)
    ensures hand == StartingHand(base, catalog.allCards)
  {
    CopyOfStoredCard(catalog, 1);
    CopyOfStoredCard(catalog, 2);
    CopyOfStoredCard(catalog, 3);
    CopyOfStoredCard(catalog, 4);
    var farmer := catalog.CreateCardCopy(1);
    var wall := catalog.CreateCardCopy(2);
    var raider := catalog.CreateCardCopy(3);
    var merchant := catalog.CreateCardCopy(4);
    hand := [HandCard(base, farmer.value), HandCard(base + 1, wall.value),
             HandCard(base + 2, raider.value), HandCard(base + 3, merchant.value)];
  }

  /** The actor numbers (seat + 1) of the seats flagged as bots, in seat order. */
  function BotActors(flags: seq<bool>): (actors: seq<int>)
    ensures forall a :: a in actors <==> 1 <= a <= |flags| && flags[a - 1]
    ensures forall k, l :: 0 <= k < l < |actors| ==> actors[k] < actors[l]
  {
    if flags == [] then []
    else
      var n := |flags|;
      var earlier := BotActors(flags[..n - 1]);
      assert forall k :: 0 <= k < |earlier| ==> earlier[k] in earlier;
      earlier + (if flags[n - 1] then [n] else [])
  }

  /** Who sent each submission of a list. */
  function ActorsOf(sent: seq<Submission>): (actors: seq<int>)
    ensures |actors| == |sent|
    ensures forall k :: 0 <= k < |sent| ==> actors[k] == sent[k].actorNumber
  {
    seq(|sent|, k requires 0 <= k < |sent| => sent[k].actorNumber)
  }

  class GameManager {
    var currentPhase: GamePhase
    var playerPosition: int
    /** The local player's network actor number (1, 2 or 3 in a full room). */
    var actorNumber: int
    var turnTimer: int
    var currentTimer: int
    var botCount: int
    var isBot: array<bool>
    var playerHand: seq<HandCard>
    var selectedLeft: Option<HandCard>
    var selectedRight: Option<HandCard>
    /** Numbers new card objects: every card object dealt so far has a smaller uid. */
    var nextUid: nat

    /**
     * The hand holds each card object once, no object is numbered ahead of the
     * counter, and a slot holding a hand card's object holds that very card.
     */
    ghost predicate Valid()
      reads this
    {
      isBot.Length == 3 &&
      UidsDistinct(playerHand) &&
      (forall c :: c in playerHand ==> c.uid < nextUid) &&
      (selectedLeft.Some? ==> selectedLeft.value.uid < nextUid) &&
      (selectedRight.Some? ==> selectedRight.value.uid < nextUid) &&
      (forall c :: c in playerHand && Holds(selectedLeft, c) ==> selectedLeft.value == c) &&
      (forall c :: c in playerHand && Holds(selectedRight, c) ==> selectedRight.value == c)
    }

    /** Everything but the hand and the two slots. */
    ghost function Settings(): (s: (GamePhase, int, int, int, int, int, array<bool>, nat))
      reads this
    {
      (currentPhase, playerPosition, actorNumber, turnTimer, currentTimer, botCount, isBot, nextUid)
    }

    /** The two slots never hold the same card object. */
    predicate SlotsDistinct()
      reads this
    {
      !(selectedLeft.Some? && selectedRight.Some? && selectedLeft.value.uid == selectedRight.value.uid)
    }

    /** A card is chosen for each neighbour. */
    predicate HasSelectedBothCards()
      reads this
    {
      selectedLeft.Some? && selectedRight.Some?
    }

    /** The field initialisers: waiting, a 60-tick budget, no bots, no hand, nothing selected. */
    constructor ()
      ensures Valid() && fresh(isBot)
      ensures currentPhase == Waiting && turnTimer == DefaultTurnTimer && botCount == 0
      ensures playerHand == [] && selectedLeft == None && selectedRight == None
      ensures forall i :: 0 <= i < 3 ==> !isBot[i]
    {
      currentPhase := Waiting;
      playerPosition := 0;
      actorNumber := 0;
      turnTimer := DefaultTurnTimer;
      currentTimer := 0;
      botCount := 0;
      isBot := new bool[3](_ => false);
      playerHand := [];
      selectedLeft := None;
      selectedRight := None;
      nextUid := 0;
    }

    /**
     * Drops the card at `cardIndex` on the left neighbour. An index past the
     * hand or an exhausted card changes nothing. Choosing the card already on
     * the left takes it back; choosing the card on the right moves it to the
     * left (whatever was on the left is dropped); any other card replaces the
     * left choice. Afterwards the slots never share a card, and the card is
     * drawn as the display derivation says.
     */
    method SelectCardForLeft(cardIndex: nat)
      requires Valid()
      modifies this
      ensures Valid() && Settings() == old(Settings()) && playerHand == old(playerHand)
      ensures cardIndex >= |playerHand| || playerHand[cardIndex].card.isExhausted ==>
        selectedLeft == old(selectedLeft) && selectedRight == old(selectedRight)
      ensures cardIndex < |playerHand| && !playerHand[cardIndex].card.isExhausted ==>
        var c := playerHand[cardIndex];
        && SlotsDistinct()
        && (Holds(old(selectedLeft), c) ==>
              selectedLeft == None && selectedRight == old(selectedRight) &&
              (old(SlotsDistinct()) ==> HighlightOf(c, selectedLeft, selectedRight) == Normal))
        && (!Holds(old(selectedLeft), c) && Holds(old(selectedRight), c) ==>
              selectedLeft == old(selectedRight) && selectedRight == None &&
              HighlightOf(c, selectedLeft, selectedRight) == Dimmed)
        && (!Holds(old(selectedLeft), c) && !Holds(old(selectedRight), c) ==>
              selectedLeft == Some(c) && selectedRight == old(selectedRight) &&
              HighlightOf(c, selectedLeft, selectedRight) == Dimmed &&
              (old(selectedLeft).Some? && old(SlotsDistinct()) && !old(selectedLeft).value.card.isExhausted ==>
                 HighlightOf(old(selectedLeft).value, selectedLeft, selectedRight) == Normal))
    {
      if cardIndex >= |playerHand| || playerHand[cardIndex].card.isExhausted {
        return;
      }
      var c := playerHand[cardIndex];
      if Holds(selectedLeft, c) {
        selectedLeft := None;
        return;
      }
      if Holds(selectedRight, c) {
        selectedLeft := selectedRight;
        selectedRight := None;
        return;
      }
      selectedLeft := Some(c);
    }

    /** The mirror image of SelectCardForLeft, for the right neighbour. */
    method SelectCardForRight(cardIndex: nat)
      requires Valid()
      modifies this
      ensures Valid() && Settings() == old(Settings()) && playerHand == old(playerHand)
      ensures cardIndex >= |playerHand| || playerHand[cardIndex].card.isExhausted ==>
        selectedLeft == old(selectedLeft) && selectedRight == old(selectedRight)
      ensures cardIndex < |playerHand| && !playerHand[cardIndex].card.isExhausted ==>
        var c := playerHand[cardIndex];
        && SlotsDistinct()
        && (Holds(old(selectedRight), c) ==>
              selectedRight == None && selectedLeft == old(selectedLeft) &&
              (old(SlotsDistinct()) ==> HighlightOf(c, selectedLeft, selectedRight) == Normal))
        && (!Holds(old(selectedRight), c) && Holds(old(selectedLeft), c) ==>
              selectedRight == old(selectedLeft) && selectedLeft == None &&
              HighlightOf(c, selectedLeft, selectedRight) == Dimmed)
        && (!Holds(old(selectedRight), c) && !Holds(old(selectedLeft), c) ==>
              selectedRight == Some(c) && selectedLeft == old(selectedLeft) &&
              HighlightOf(c, selectedLeft, selectedRight) == Dimmed &&
              (old(selectedRight).Some? && old(SlotsDistinct()) && !old(selectedRight).value.card.isExhausted ==>
                 HighlightOf(old(selectedRight).value, selectedLeft, selectedRight) == Normal))
    {
      if cardIndex >= |playerHand| || playerHand[cardIndex].card.isExhausted {
        return;
      }
      var c := playerHand[cardIndex];
      if Holds(selectedRight, c) {
        selectedRight := None;
        return;
      }
      if Holds(selectedLeft, c) {
        selectedRight := selectedLeft;
        selectedLeft := None;
        return;
      }
      selectedRight := Some(c);
    }

    /**
     * Clicking a played card: empties the named slot (nothing happens if it is
     * already empty) and leaves the other alone; the card goes back to its
     * normal look.
     */
    method DeselectCard(isLeft: bool)
      requires Valid()
      modifies this
      ensures Valid() && Settings() == old(Settings()) && playerHand == old(playerHand)
      ensures isLeft ==> selectedLeft == None && selectedRight == old(selectedRight)
      ensures !isLeft ==> selectedRight == None && selectedLeft == old(selectedLeft)
      ensures SlotsDistinct() && !HasSelectedBothCards()
      ensures var was := if isLeft then old(selectedLeft) else old(selectedRight);
        was.Some? && !was.value.card.isExhausted && old(SlotsDistinct()) ==>
          HighlightOf(was.value, selectedLeft, selectedRight) == Normal
    {
      if isLeft && selectedLeft.Some? {
        selectedLeft := None;
      } else if !isLeft && selectedRight.Some? {
        selectedRight := None;
      }
    }

    /** Orders the hand by (type, id); the slots still hold the same objects. */
    method SortHand()
      requires Valid()
      modifies this
      ensures Valid() && Settings() == old(Settings())
      ensures selectedLeft == old(selectedLeft) && selectedRight == old(selectedRight)
      ensures SortedByKey(playerHand) && multiset(playerHand) == multiset(old(playerHand))
    {
      var sorted := SortCards(playerHand);
      forall c | c in sorted ensures c in playerHand {
        assert c in multiset(sorted);
      }
      playerHand := sorted;
    }

    /**
     * Clicking a dimmed hand card: an index past the hand changes nothing.
     * Otherwise the card leaves the left slot if it is there, else the right
     * slot if it is there (never both), and the hand is re-sorted.
     */
    method ReturnCardToHand(cardIndex: nat)
      requires Valid()
      modifies this
      ensures Valid() && Settings() == old(Settings())
      ensures cardIndex >= old(|playerHand|) ==>
        playerHand == old(playerHand) && selectedLeft == old(selectedLeft) && selectedRight == old(selectedRight)
      ensures cardIndex < old(|playerHand|) ==>
        var c := old(playerHand[cardIndex]);
        && SortedByKey(playerHand) && multiset(playerHand) == multiset(old(playerHand))
        && (Holds(old(selectedLeft), c) ==>
              selectedLeft == None && selectedRight == old(selectedRight))
        && (!Holds(old(selectedLeft), c) && Holds(old(selectedRight), c) ==>
              selectedLeft == old(selectedLeft) && selectedRight == None)
        && (!Holds(old(selectedLeft), c) && !Holds(old(selectedRight), c) ==>
              selectedLeft == old(selectedLeft) && selectedRight == old(selectedRight))
        && (old(SlotsDistinct()) && !c.card.isExhausted ==> HighlightOf(c, selectedLeft, selectedRight) == Normal)
      ensures old(SlotsDistinct()) ==> SlotsDistinct()
      ensures old(HasSelectedBothCards()) ==> selectedLeft.Some? || selectedRight.Some?
    {
      if cardIndex >= |playerHand| {
        return;
      }
      var c := playerHand[cardIndex];
      if Holds(selectedLeft, c) {
        selectedLeft := None;
      } else if Holds(selectedRight, c) {
        selectedRight := None;
      }
      SortHand();
    }

    /** Opens a round: planning phase, a full countdown, nothing selected. */
    method StartPlanningPhase()
      requires Valid()
      modifies this
      ensures Valid() && playerHand == old(playerHand)
      ensures currentPhase == Planning && currentTimer == turnTimer
      ensures selectedLeft == None && selectedRight == None
      ensures playerPosition == old(playerPosition) && actorNumber == old(actorNumber)
      ensures turnTimer == old(turnTimer) && botCount == old(botCount)
      ensures isBot == old(isBot) && nextUid == old(nextUid)
    {
      currentPhase := Planning;
      currentTimer := turnTimer;
      selectedLeft := None;
      selectedRight := None;
    }

    /**
     * Time is up: each empty slot receives some card of the hand that is not
     * exhausted, chosen at random and independently, so both may receive the
     * same card. With every card exhausted nothing changes.
     */
    method SelectRandomCards()
      requires Valid()
      modifies this
      ensures Valid() && Settings() == old(Settings()) && playerHand == old(playerHand)
      ensures ForcedFill(playerHand, old(selectedLeft), selectedLeft)
      ensures ForcedFill(playerHand, old(selectedRight), selectedRight)
    {
      var available := CollectAvailable(playerHand);
      if |available| > 0 && selectedLeft.None? {
        var k :| 0 <= k < |available|;
        assert available[k] in Available(playerHand);
        SameObjectSameCard(playerHand, available[k]);
        selectedLeft := Some(available[k]);
      }
      if |available| > 0 && selectedRight.None? {
        var k :| 0 <= k < |available|;
        assert available[k] in Available(playerHand);
        SameObjectSameCard(playerHand, available[k]);
        selectedRight := Some(available[k]);
      }
    }

    /** Sends the choice only when both slots are set: the ids of the two chosen cards. */
    method SubmitCards() returns (sent: Option<Submission>)
      ensures sent.Some? <==> HasSelectedBothCards()
      ensures sent.Some? ==>
        sent.value.actorNumber == actorNumber &&
        sent.value.leftCardId == selectedLeft.value.card.id &&
        sent.value.rightCardId == selectedRight.value.card.id
    {
      if selectedLeft.None? || selectedRight.None? {
        return None;
      }
      sent := Some(Submission(actorNumber, selectedLeft.value.card.id, selectedRight.value.card.id));
    }

    /**
     * One bot move per bot seat, in seat order, each a random pair of ids 1 to 4
     * taken from the catalog range rather than from any hand.
     */
    method SimulateBotMoves() returns (sent: seq<Submission>)
      requires isBot.Length == 3
      ensures ActorsOf(sent) == BotActors(isBot[..])
      ensures forall k :: 0 <= k < |sent| ==>
        1 <= sent[k].leftCardId <= 4 && 1 <= sent[k].rightCardId <= 4
    {
      sent := [];
      for i := 0 to 3
        invariant ActorsOf(sent) == BotActors(isBot[..i])
        invariant forall k :: 0 <= k < |sent| ==>
          1 <= sent[k].leftCardId <= 4 && 1 <= sent[k].rightCardId <= 4
      {
        assert isBot[..i + 1][..i] == isBot[..i];
        if isBot[i] {
          var leftCard :| 1 <= leftCard <= 4;
          var rightCard :| 1 <= rightCard <= 4;
          sent := sent + [Submission(i + 1, leftCard, rightCard)];
        }
      }
      assert isBot[..3] == isBot[..];
    }

    /**
     * The planning countdown, one tick per frame. While planning and time
     * remains, the timer drops by one; the master client plays for the bots on
     * every frame that ends at or below the threshold. Whenever the loop ends,
     * empty slots are filled at random and the choice is submitted if complete.
     */
    method PlanningTimer(isMasterClient: bool) returns (botRounds: nat, sent: Option<Submission>)
      requires Valid()
      modifies this
      ensures Valid() && playerHand == old(playerHand)
      ensures currentPhase == old(currentPhase) && turnTimer == old(turnTimer)
      ensures playerPosition == old(playerPosition) && actorNumber == old(actorNumber)
      ensures botCount == old(botCount) && isBot == old(isBot) && nextUid == old(nextUid)
      ensures var running := old(currentPhase) == Planning && old(currentTimer) > 0;
        && currentTimer == (if running then 0 else old(currentTimer))
        && botRounds == (if running && isMasterClient then Min(old(currentTimer), BotThreshold + 1) else 0)
      ensures ForcedFill(playerHand, old(selectedLeft), selectedLeft)
      ensures ForcedFill(playerHand, old(selectedRight), selectedRight)
      ensures sent.Some? <==> HasSelectedBothCards()
      ensures sent.Some? ==>
        sent.value == Submission(actorNumber, selectedLeft.value.card.id, selectedRight.value.card.id)
      ensures (exists c :: c in playerHand && !c.card.isExhausted) ==> HasSelectedBothCards() && sent.Some?
    {
      ghost var running := currentPhase == Planning && currentTimer > 0;
      ghost var start := currentTimer;
      botRounds := 0;
      while currentTimer > 0 && currentPhase == Planning
        modifies this`currentTimer
        invariant running ==> 0 <= currentTimer <= start
        invariant !running ==> currentTimer == start
        invariant botRounds == (if running && isMasterClient
                                then Min(start, BotThreshold + 1) - Min(currentTimer, BotThreshold + 1)
                                else 0)
        decreases currentTimer
      {
        currentTimer := currentTimer - 1;
        if currentTimer <= BotThreshold && isMasterClient {
          var _ := SimulateBotMoves();
          botRounds := botRounds + 1;
        }
      }
      sent := TimeUp();
    }

    /**
     * The end of the countdown: a hand that is not fully chosen gets a forced
     * selection, and the choice is submitted if both slots are now set, which
     * they are whenever the hand has a playable card.
     */
    method TimeUp() returns (sent: Option<Submission>)
      requires Valid()
      modifies this
      ensures Valid() && Settings() == old(Settings()) && playerHand == old(playerHand)
      ensures ForcedFill(playerHand, old(selectedLeft), selectedLeft)
      ensures ForcedFill(playerHand, old(selectedRight), selectedRight)
      ensures sent.Some? <==> HasSelectedBothCards()
      ensures sent.Some? ==>
        sent.value == Submission(actorNumber, selectedLeft.value.card.id, selectedRight.value.card.id)
      ensures (exists c :: c in playerHand && !c.card.isExhausted) ==> HasSelectedBothCards() && sent.Some?
    {
      if selectedLeft.None? || selectedRight.None? {
        SelectRandomCards();
      }
      sent := SubmitCards();
      if exists c :: c in playerHand && !c.card.isExhausted {
        ForcedFillCompletes(playerHand, old(selectedLeft), selectedLeft, old(selectedRight), selectedRight);
      }
    }

    /**
     * The hand display: one entry per display slot, the highlight of the hand
     * card in that position, or nothing (hidden) past the end of the hand.
     */
    method UpdateHandDisplay(displaySlots: nat) returns (shown: seq<Option<Highlight>>)
      ensures |shown| == displaySlots
      ensures forall i :: 0 <= i < displaySlots && i < |playerHand| ==>
        shown[i] == Some(HighlightOf(playerHand[i], selectedLeft, selectedRight))
      ensures forall i :: |playerHand| <= i < displaySlots ==> shown[i] == None
    {
      shown := [];
      for i := 0 to displaySlots
        invariant |shown| == i
        invariant forall j :: 0 <= j < i && j < |playerHand| ==>
          shown[j] == Some(HighlightOf(playerHand[j], selectedLeft, selectedRight))
        invariant forall j :: |playerHand| <= j < i ==> shown[j] == None
      {
        if i < |playerHand| {
          shown := shown + [Some(HighlightOf(playerHand[i], selectedLeft, selectedRight))];
        } else {
          shown := shown + [None];
        }
      }
    }

    /**
     * InitializeGame's hand set-up: a new hand of fresh copies of cards 1 to 4,
     * then SortHand, which leaves them in the order they were dealt.
     */
    method SetUpHand(catalog: CardData)
      requires Valid() && IsBasicCatalog(catalog.allCards)
      modifies this
      ensures Valid() && nextUid == old(nextUid) + 4
      ensures playerHand == StartingHand(old(nextUid), catalog.allCards)
      ensures forall c :: c in playerHand ==> c.uid >= old(nextUid)
      ensures selectedLeft == old(selectedLeft) && selectedRight == old(selectedRight)
      ensures currentPhase == old(currentPhase) && currentTimer == old(currentTimer)
      ensures playerPosition == old(playerPosition) && actorNumber == old(actorNumber)
      ensures turnTimer == old(turnTimer) && botCount == old(botCount) && isBot == old(isBot)
    {
      DealHand(catalog);
      ghost var dealt := playerHand;
      SortHand();
      SortedPermutationUnique(dealt, playerHand);
    }

    /** The four `Add` calls: a new hand of fresh copies of cards 1 to 4, numbered from `nextUid`. */
    method DealHand(catalog: CardData)
      requires Valid() && IsBasicCatalog(catalog.allCards)
      modifies this
      ensures Valid() && nextUid == old(nextUid) + 4
      ensures playerHand == StartingHand(old(nextUid), catalog.allCards)
      ensures forall c :: c in playerHand ==> c.uid >= old(nextUid)
      ensures selectedLeft == old(selectedLeft) && selectedRight == old(selectedRight)
      ensures currentPhase == old(currentPhase) && currentTimer == old(currentTimer)
      ensures playerPosition == old(playerPosition) && actorNumber == old(actorNumber)
      ensures turnTimer == old(turnTimer) && botCount == old(botCount) && isBot == old(isBot)
    {
      ghost var base := nextUid;
      ghost var cards := catalog.allCards;
      var dealt := DealStartingHand(catalog, nextUid);
      StartingHandFresh(base, cards);
      playerHand := dealt;
      nextUid := nextUid + 4;
    }

    /**
     * Starts the local game: the seat from the actor number, a hand of fresh
     * copies of cards 1 to 4 in (type, id) order, and on the master client the
     * first planning phase.
     */
    method InitializeGame(catalog: CardData, localActorNumber: int, isMasterClient: bool)
      requires Valid() && IsBasicCatalog(catalog.allCards)
      modifies this
      ensures Valid()
      ensures playerPosition == localActorNumber - 1 && actorNumber == localActorNumber
      ensures playerHand == StartingHand(old(nextUid), catalog.allCards)
      ensures forall c :: c in playerHand ==> !Holds(old(selectedLeft), c) && !Holds(old(selectedRight), c)
      ensures isMasterClient ==>
        currentPhase == Planning && currentTimer == turnTimer && selectedLeft == None && selectedRight == None
      ensures !isMasterClient ==>
        currentPhase == old(currentPhase) && currentTimer == old(currentTimer) &&
        selectedLeft == old(selectedLeft) && selectedRight == old(selectedRight)
      ensures turnTimer == old(turnTimer) && botCount == old(botCount) && isBot == old(isBot)
    {
      playerPosition := localActorNumber - 1;
      actorNumber := localActorNumber;

      SetUpHand(catalog);

      if isMasterClient {
        StartPlanningPhase();
      }
    }

    /** Marks the last `bots` seats as bots (seat i is a bot when i >= 3 - bots). */
    method MarkBotSeats(bots: int)
      requires isBot.Length == 3
      modifies isBot
      ensures forall i :: 0 <= i < 3 ==> isBot[i] == IsBotSeat(i, bots)
    {
      var humanCount := 3 - bots;
      for i := 0 to 3
        invariant forall j :: 0 <= j < i ==> isBot[j] == IsBotSeat(j, bots)
      {
        isBot[i] := i >= humanCount;
      }
    }

    /** Starts a game in which the last `bots` seats are played by the master client. */
    method InitializeGameWithBots(bots: int, catalog: CardData, localActorNumber: int, isMasterClient: bool)
      requires Valid() && IsBasicCatalog(catalog.allCards)
      modifies this, isBot
      ensures Valid() && botCount == bots
      ensures forall i :: 0 <= i < 3 ==> isBot[i] == IsBotSeat(i, bots)
      ensures playerPosition == localActorNumber - 1 && actorNumber == localActorNumber
      ensures playerHand == StartingHand(old(nextUid), catalog.allCards)
      ensures forall c :: c in playerHand ==> !Holds(old(selectedLeft), c) && !Holds(old(selectedRight), c)
      ensures isMasterClient ==>
        currentPhase == Planning && currentTimer == turnTimer && selectedLeft == None && selectedRight == None
      ensures !isMasterClient ==>
        currentPhase == old(currentPhase) && currentTimer == old(currentTimer) &&
        selectedLeft == old(selectedLeft) && selectedRight == old(selectedRight)
      ensures turnTimer == old(turnTimer) && isBot == old(isBot)
    {
      botCount := bots;
      MarkBotSeats(bots);
      InitializeGame(catalog, localActorNumber, isMasterClient);
    }
  }

  /**
   * An example of the selection rules on a freshly dealt hand: left 2,
   * then right 2 moves Raider to the right; then left 1 puts Wall on the left
   * and keeps Raider on the right.
   */
  method SelectionScenario(catalog: CardData) returns (gm: GameManager)
    requires catalog.allCards == Catalog()
    ensures fresh(gm) && gm.Valid()
    ensures gm.selectedLeft.Some? && gm.selectedLeft.value.card.cardName == "Wall"
    ensures gm.selectedRight.Some? && gm.selectedRight.value.card.cardName == "Raider"
    ensures gm.SlotsDistinct()
  {
    CatalogEntries();
    gm := new GameManager();
    gm.InitializeGame(catalog, 1, true);
    ghost var hand := gm.playerHand;
    assert hand[1].card.cardName == "Wall" && hand[2].card.cardName == "Raider";
    gm.SelectCardForLeft(2);
    assert gm.selectedLeft.Some? && gm.selectedLeft.value.card.id == 3;
    gm.SelectCardForRight(2);
    assert gm.selectedLeft == None && gm.selectedRight.Some? && gm.selectedRight.value.card.id == 3;
    gm.SelectCardForLeft(1);
  }
}
