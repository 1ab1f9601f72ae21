/**
 * The static card catalog: card types, per-opponent effect records, card
 * definitions and the table from card id to card that the game copies its
 * hands from (Assets/Scripts/CardData.cs).
 */
module Cards {
  import opened Options

  /** The four card colours, in declaration order (Green is 0, Yellow is 3). */
  datatype CardType = Green | Blue | Red | Yellow

  /** Every card type; an effect table is complete when it has all of them as keys. */
  const AllTypes: set<CardType> := {Green, Blue, Red, Yellow}

  /**
   * What a card does when played against a card of a given type. The numeric
   * amounts are turnips gained, stolen, banked and stolen back by the opponent;
   * the flags grant market actions or exhaust the opponent's card.
   */
  datatype CardEffect = CardEffect(
    gain: int, steal: int, bank: int, opponentSteals: int,
    opponentGains: bool, buyRelic: bool, buyCard: bool, freeCard: bool, exhaustOpponent: bool)

  /** The field initialisers of CardEffect: what `new CardEffect { }` holds. */
  const NoEffect: CardEffect := CardEffect(0, 0, 0, 0, false, false, false, false, false)

  /** True of an effect record that changes nothing: every amount 0, every flag off. */
  predicate IsEmptyEffect(e: CardEffect) {
    e.gain == 0 && e.steal == 0 && e.bank == 0 && e.opponentSteals == 0 &&
    !e.opponentGains && !e.buyRelic && !e.buyCard && !e.freeCard && !e.exhaustOpponent
  }

  /** The field initialisers give an effect that changes nothing. */
  lemma FreshEffectIsEmpty()
    ensures IsEmptyEffect(NoEffect)
    ensures forall e :: IsEmptyEffect(e) ==> e == NoEffect
  {
  }

  /**
   * A card. The sprite is a rendering asset and is not modelled. Nothing in the
   * game changes a card after it is built, so a card is a value; the identity
   * of the card objects held in a hand is modelled separately (Hand.HandCard).
   */
  datatype Card = Card(
    cardName: string, cardType: CardType, isExhausted: bool, id: int,
    effects: map<CardType, CardEffect>)

  /** The Card constructor: a fresh card is not exhausted and has no effects yet. */
  function NewCard(name: string, t: CardType, cardId: int): (c: Card)
    ensures c.cardName == name && c.cardType == t && c.id == cardId
    ensures !c.isExhausted && c.effects == map[]
  {
    Card(name, t, false, cardId, map[])
  }

  /** An effect table that maps every card type to the same record. */
  function Uniform(e: CardEffect): (table: map<CardType, CardEffect>)
    ensures table.Keys == AllTypes
    ensures forall t :: t in table ==> table[t] == e
  {
    map[Green := e, Blue := e, Red := e, Yellow := e]
  }

  /** Basic Farmer: gains 3 whatever it meets. */
  const Farmer: Card := Card("Farmer", Green, false, 1, Uniform(NoEffect.(gain := 3)))

  /** Basic Wall: gains 1 and banks 1, and also steals 1 from a Red card. */
  const Wall: Card := Card("Wall", Blue, false, 2, map[
    Green := NoEffect.(gain := 1, bank := 1), Blue := NoEffect.(gain := 1, bank := 1),
    Red := NoEffect.(gain := 1, bank := 1, steal := 1), Yellow := NoEffect.(gain := 1, bank := 1)])

  /** Basic Raider: steals 4 from Green and Yellow cards, nothing against Blue and Red. */
  const Raider: Card := Card("Raider", Red, false, 3, map[
    Green := NoEffect.(steal := 4), Blue := NoEffect, Red := NoEffect, Yellow := NoEffect.(steal := 4)])

  /** Basic Merchant: may buy a relic and a card whatever it meets. */
  const Merchant: Card := Card("Merchant", Yellow, false, 4, Uniform(NoEffect.(buyRelic := true, buyCard := true)))

  /**
   * What dealing a starting hand relies on: ids 1 to 4 are present, each card
   * stored under its own id and not exhausted, with types Green, Blue, Red and
   * Yellow in id order.
   */
  predicate IsBasicCatalog(m: map<int, Card>) {
    (forall k :: 1 <= k <= 4 ==> k in m && m[k].id == k && !m[k].isExhausted) &&
    m[1].cardType == Green && m[2].cardType == Blue && m[3].cardType == Red && m[4].cardType == Yellow
  }

  /**
   * The catalog the game builds at start-up: four basic cards keyed by their
   * ids 1 to 4, one of each type, none exhausted, each with an effect entry
   * for every opponent type.
   */
  function Catalog(): (m: map<int, Card>)
    ensures m.Keys == {1, 2, 3, 4}
    ensures forall k :: k in m ==> m[k].id == k && !m[k].isExhausted && m[k].effects.Keys == AllTypes
    ensures IsBasicCatalog(m)
  {
    map[1 := Farmer, 2 := Wall, 3 := Raider, 4 := Merchant]
  }

  /** The catalog's names, and its two sample effect tables: Farmer and Raider. */
  lemma CatalogEntries()
    ensures Catalog()[1].cardName == "Farmer" && Catalog()[2].cardName == "Wall"
    ensures Catalog()[3].cardName == "Raider" && Catalog()[4].cardName == "Merchant"
    ensures forall t :: t in AllTypes ==> Catalog()[1].effects[t] == NoEffect.(gain := 3)
    ensures Catalog()[3].effects[Green] == Catalog()[3].effects[Yellow] == NoEffect.(steal := 4)
    ensures IsEmptyEffect(Catalog()[3].effects[Blue]) && IsEmptyEffect(Catalog()[3].effects[Red])
  {
  }

  /** Wall's extra steal is against Red only; Merchant's entries all buy a relic and a card. */
  lemma WallAndMerchantTables()
    ensures forall t :: t in AllTypes ==>
      Catalog()[2].effects[t] == NoEffect.(gain := 1, bank := 1, steal := if t == Red then 1 else 0)
    ensures forall t :: t in AllTypes ==> Catalog()[4].effects[t] == NoEffect.(buyRelic := true, buyCard := true)
  {
  }

  /** The catalog component: one table from card id to card, filled once at start-up. */
  class CardData {
    var allCards: map<int, Card>

    /** Awake: the component builds its catalog as soon as it exists. */
    constructor ()
      ensures allCards == Catalog()
    {
      allCards := map[];
      new;
      InitializeCards();
    }

    /** Fills the table card by card, each card's effects entry by entry. */
    method InitializeCards()
      modifies this
      ensures allCards == Catalog()
    {
      allCards := map[];

      var farmer := NewCard("Farmer", Green, 1);
      farmer := farmer.(effects := farmer.effects[Green := NoEffect.(gain := 3)]);
      farmer := farmer.(effects := farmer.effects[Blue := NoEffect.(gain := 3)]);
      farmer := farmer.(effects := farmer.effects[Red := NoEffect.(gain := 3)]);
      farmer := farmer.(effects := farmer.effects[Yellow := NoEffect.(gain := 3)]);
      allCards := allCards[1 := farmer];

      var wall := NewCard("Wall", Blue, 2);
      wall := wall.(effects := wall.effects[Green := NoEffect.(gain := 1, bank := 1)]);
      wall := wall.(effects := wall.effects[Blue := NoEffect.(gain := 1, bank := 1)]);
      wall := wall.(effects := wall.effects[Red := NoEffect.(gain := 1, bank := 1, steal := 1)]);
      wall := wall.(effects := wall.effects[Yellow := NoEffect.(gain := 1, bank := 1)]);
      allCards := allCards[2 := wall];

      var raider := NewCard("Raider", Red, 3);
      raider := raider.(effects := raider.effects[Green := NoEffect.(steal := 4)]);
      raider := raider.(effects := raider.effects[Blue := NoEffect]);
      raider := raider.(effects := raider.effects[Red := NoEffect]);
      raider := raider.(effects := raider.effects[Yellow := NoEffect.(steal := 4)]);
      allCards := allCards[3 := raider];

      var merchant := NewCard("Merchant", Yellow, 4);
      merchant := merchant.(effects := merchant.effects[Green := NoEffect.(buyRelic := true, buyCard := true)]);
      merchant := merchant.(effects := merchant.effects[Blue := NoEffect.(buyRelic := true, buyCard := true)]);
      merchant := merchant.(effects := merchant.effects[Red := NoEffect.(buyRelic := true, buyCard := true)]);
      merchant := merchant.(effects := merchant.effects[Yellow := NoEffect.(buyRelic := true, buyCard := true)]);
      allCards := allCards[4 := merchant];
    }

    /** Partial lookup: the stored card, or nothing (null) for an unknown id. */
    function GetCard(id: int): (r: Option<Card>)
      reads this
      ensures r.None? <==> id !in allCards
      ensures r.Some? ==> r.value == allCards[id]
    {
      if id in allCards then Some(allCards[id]) else None
    }

    /**
     * A new card built from the stored one: same name, type, id and effect
     * entries, and not exhausted whatever the original's flag; nothing for an
     * unknown id. The original is not touched.
     */
    function CreateCardCopy(id: int): (r: Option<Card>)
      reads this
      ensures r.None? <==> id !in allCards
      ensures r.Some? ==>
        var original := allCards[id];
        r.value.cardName == original.cardName && r.value.cardType == original.cardType &&
        r.value.id == original.id && r.value.effects == original.effects && !r.value.isExhausted
    {
      match GetCard(id)
      case None => None
      case Some(original) =>
        var copy := NewCard(original.cardName, original.cardType, original.id);
        Some(copy.(effects := original.effects))
    }
  }

  /** Once the catalog is built, exactly the ids 1 to 4 are found, each under its own id. */
  lemma CatalogLookup(cd: CardData, id: int)
    requires cd.allCards == Catalog()
    ensures cd.GetCard(id).Some? <==> 1 <= id <= 4
    ensures cd.GetCard(id).Some? ==> cd.GetCard(id).value.id == id
    ensures cd.GetCard(id).Some? ==> cd.GetCard(id).value.effects.Keys == AllTypes
  {
  }

  /**
   * Copying a stored card that is not exhausted gives a card equal, as a
   * value, to the stored one; only its identity is new.
   */
  lemma CopyOfStoredCard(cd: CardData, id: int)
    requires id in cd.allCards && !cd.allCards[id].isExhausted
    ensures cd.CreateCardCopy(id) == Some(cd.allCards[id])
  {
  }
}
