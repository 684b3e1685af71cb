/** The page of one deck (`DeckPage.js`): it loads the deck named in the route and the
    stored cards listed in the deck's `cardIds`, and applies card edits and deletions both to
    what it shows and to the stored card list. The stored lists stand for the
    `jott_cards` and `jott_decks` entries of local storage. */
module DeckPage {
  import opened Wrappers
  import opened Notes
  import Seqs

  /** `cards.map(card => card.id === cardId ? { ...card, ...updateData } : card)`. */
  function UpdateMatching(cards: seq<Card>, cardId: Id, u: CardUpdate): (r: seq<Card>)
    ensures |r| == |cards|
    ensures forall k :: 0 <= k < |cards| && cards[k].id == cardId ==> r[k] == Overlay(cards[k], u)
    ensures forall k :: 0 <= k < |cards| && cards[k].id != cardId ==> r[k] == cards[k]
  {
    if cards == [] then []
    else [if cards[0].id == cardId then Overlay(cards[0], u) else cards[0]] + UpdateMatching(cards[1..], cardId, u)
  }

  /** Reporting the same update twice leaves the cards as reporting it once. */
  lemma UpdateMatchingIdempotent(cards: seq<Card>, cardId: Id, u: CardUpdate)
    ensures UpdateMatching(UpdateMatching(cards, cardId, u), cardId, u) == UpdateMatching(cards, cardId, u)
  {
    var once := UpdateMatching(cards, cardId, u);
    forall k | 0 <= k < |cards| && cards[k].id == cardId
      ensures UpdateMatching(once, cardId, u)[k] == once[k]
    {
      OverlayIdempotent(cards[k], u);
    }
  }

  /** The stored cards a deck page shows: those whose id the deck's `cardIds` lists, in
      stored order. */
  function DeckCards(stored: seq<Card>, cardIds: seq<Id>): (r: seq<Card>)
    ensures forall k :: 0 <= k < |r| ==> r[k].id in cardIds && r[k] in stored
    ensures forall k :: 0 <= k < |stored| && stored[k].id in cardIds ==> stored[k] in r
    ensures Seqs.IsSubsequence(r, stored)
    ensures forall c :: multiset(r)[c] == if c.id in cardIds then multiset(stored)[c] else 0
  {
    var keep := (c: Card) => c.id in cardIds;
    Seqs.FilterMultiplicity(stored, keep);
    Seqs.Filter(stored, keep)
  }

  /** Editing the stored list and then selecting the deck's cards gives the same list as
      selecting first and editing the selection: an edit never changes a card's id. */
  lemma {:induction false} UpdateCommutesWithDeckCards(stored: seq<Card>, cardIds: seq<Id>, cardId: Id, u: CardUpdate)
    ensures DeckCards(UpdateMatching(stored, cardId, u), cardIds) == UpdateMatching(DeckCards(stored, cardIds), cardId, u)
    decreases |stored|
  {
    if stored != [] {
      var updated := UpdateMatching(stored, cardId, u);
      assert updated[1..] == UpdateMatching(stored[1..], cardId, u);
      assert updated[0].id == stored[0].id;
      UpdateCommutesWithDeckCards(stored[1..], cardIds, cardId, u);
      if stored[0].id in cardIds {
        assert DeckCards(stored, cardIds) == [stored[0]] + DeckCards(stored[1..], cardIds);
        assert DeckCards(updated, cardIds) == [updated[0]] + DeckCards(updated[1..], cardIds);
        var selected := DeckCards(stored, cardIds);
        assert selected[0] == stored[0] && selected[1..] == DeckCards(stored[1..], cardIds);
      } else {
        assert DeckCards(stored, cardIds) == DeckCards(stored[1..], cardIds);
        assert DeckCards(updated, cardIds) == DeckCards(updated[1..], cardIds);
      }
    }
  }

  /** Deleting from the stored list and then selecting the deck's cards gives the same list
      as selecting first and deleting from the selection. */
  lemma {:induction false} RemoveCommutesWithDeckCards(stored: seq<Card>, cardIds: seq<Id>, cardId: Id)
    ensures DeckCards(RemoveCard(stored, cardId), cardIds) == RemoveCard(DeckCards(stored, cardIds), cardId)
    decreases |stored|
  {
    if stored != [] {
      RemoveCommutesWithDeckCards(stored[1..], cardIds, cardId);
      var c := stored[0];
      if c.id != cardId {
        assert RemoveCard(stored, cardId) == [c] + RemoveCard(stored[1..], cardId);
        assert ([c] + RemoveCard(stored[1..], cardId))[1..] == RemoveCard(stored[1..], cardId);
      } else {
        assert RemoveCard(stored, cardId) == RemoveCard(stored[1..], cardId);
      }
      if c.id in cardIds {
        assert DeckCards(stored, cardIds) == [c] + DeckCards(stored[1..], cardIds);
        assert ([c] + DeckCards(stored[1..], cardIds))[1..] == DeckCards(stored[1..], cardIds);
      } else {
        assert DeckCards(stored, cardIds) == DeckCards(stored[1..], cardIds);
      }
    }
  }

  class Page {
    var deck: Option<Deck>          // null until a deck with the route's id is found
    var cards: seq<Card>            // the cards shown
    var storedCards: seq<Card>
    var storedDecks: seq<Deck>

    /** The shown cards are the stored cards the deck lists, once a deck is loaded. */
    ghost predicate Synced()
      reads this
    {
      deck.Some? ==> cards == DeckCards(storedCards, deck.value.cardIds)
    }

    constructor (storedCards: seq<Card>, storedDecks: seq<Deck>)
      ensures deck == None && cards == []
      ensures this.storedCards == storedCards && this.storedDecks == storedDecks
      ensures Synced()
    {
      deck := None;
      cards := [];
      this.storedCards := storedCards;
      this.storedDecks := storedDecks;
    }

    /** The load effect for route `id`: the first stored deck with that id, and the stored
        cards it lists; with no such deck nothing changes. */
    method Load(id: Id)
      modifies this`deck, this`cards
      ensures var i := Seqs.FindIndex(storedDecks, (d: Deck) => d.id == id);
        if i < 0 then deck == old(deck) && cards == old(cards)
        else deck == Some(storedDecks[i]) && cards == DeckCards(storedCards, storedDecks[i].cardIds)
      ensures deck.Some? && deck != old(deck) ==> deck.value in storedDecks && deck.value.id == id
      ensures old(Synced()) ==> Synced()
    {
      var i := Seqs.FindIndex(storedDecks, (d: Deck) => d.id == id);
      if i >= 0 {
        deck := Some(storedDecks[i]);
        cards := DeckCards(storedCards, storedDecks[i].cardIds);
      }
    }

    /** `handleCardUpdate`: the update is laid over every card with that id, in the shown
        list and in the stored list alike; the two stay in step. */
    method HandleCardUpdate(cardId: Id, u: CardUpdate)
      modifies this`cards, this`storedCards
      ensures cards == UpdateMatching(old(cards), cardId, u)
      ensures storedCards == UpdateMatching(old(storedCards), cardId, u)
      ensures old(Synced()) ==> Synced()
    {
      if deck.Some? {
        UpdateCommutesWithDeckCards(storedCards, deck.value.cardIds, cardId, u);
      }
      cards := UpdateMatching(cards, cardId, u);
      storedCards := UpdateMatching(storedCards, cardId, u);
    }

    /** `handleCardDelete`: the card leaves the shown list and the stored list; the stored
        decks still list its id. */
    method HandleCardDelete(cardId: Id)
      modifies this`cards, this`storedCards
      ensures cards == RemoveCard(old(cards), cardId)
      ensures storedCards == RemoveCard(old(storedCards), cardId)
      ensures old(Synced()) ==> Synced()
    {
      if deck.Some? {
        RemoveCommutesWithDeckCards(storedCards, deck.value.cardIds, cardId);
      }
      cards := RemoveCard(cards, cardId);
      storedCards := RemoveCard(storedCards, cardId);
    }
  }
}
