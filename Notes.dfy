/** The records kept in the `jott_cards` and `jott_decks` lists. A JavaScript object may
    lack a key; an absent scalar is `None`, an absent id list is the empty list (every
    reader writes `list || []`). */
module Notes {
  import opened Wrappers
  import Seqs

  type Id = string
  type Timestamp = string

  datatype Card = Card(
    id: Id,
    title: string,
    content: string,
    createdAt: Timestamp,
    updatedAt: Option<Timestamp>,
    audioUrl: Option<string>,
    transcription: Option<string>,
    elaboration: Option<string>,
    deckIds: seq<Id>,   // written by addCardToDeck
    deckId: Option<Id>  // read by the home page's views and cleared by handleDeleteDeck
  )

  datatype Deck = Deck(
    id: Id,
    name: string,
    cards: seq<Id>,    // set at creation, read by the deck search
    cardIds: seq<Id>,  // written by addCardToDeck, read by the deck page
    createdAt: Timestamp,
    updatedAt: Option<Timestamp>
  )

  /** The partial objects a card reports through `onUpdate`: `{audioUrl}`, `{transcription}`,
      `{elaboration}` or `{title}`. */
  datatype CardUpdate = CardUpdate(
    title: Option<string>,
    audioUrl: Option<string>,
    transcription: Option<string>,
    elaboration: Option<string>
  )

  function SetField(prior: string, update: Option<string>): string
  {
    if update.Some? then update.value else prior
  }

  function SetOptional(prior: Option<string>, update: Option<string>): Option<string>
  {
    if update.Some? then update else prior
  }

  /** `{ ...card, ...update }`: the keys present in the update win, every other key keeps
      the card's value. */
  function Overlay(c: Card, u: CardUpdate): (r: Card)
    ensures r.id == c.id && r.content == c.content && r.createdAt == c.createdAt
    ensures r.updatedAt == c.updatedAt && r.deckIds == c.deckIds && r.deckId == c.deckId
    ensures r.title == (if u.title.Some? then u.title.value else c.title)
    ensures r.audioUrl == (if u.audioUrl.Some? then u.audioUrl else c.audioUrl)
    ensures r.transcription == (if u.transcription.Some? then u.transcription else c.transcription)
    ensures r.elaboration == (if u.elaboration.Some? then u.elaboration else c.elaboration)
  {
    c.(title := SetField(c.title, u.title),
       audioUrl := SetOptional(c.audioUrl, u.audioUrl),
       transcription := SetOptional(c.transcription, u.transcription),
       elaboration := SetOptional(c.elaboration, u.elaboration))
  }

  /** Applying the same update twice is applying it once. */
  lemma OverlayIdempotent(c: Card, u: CardUpdate)
    ensures Overlay(Overlay(c, u), u) == Overlay(c, u)
  {
  }

  /** An update with no keys leaves the card as it is. */
  lemma OverlayEmpty(c: Card)
    ensures Overlay(c, CardUpdate(None, None, None, None)) == c
  {
  }

  /** `cards.filter(card => card.id !== cardId)`: the cards with that id removed, the rest kept
      in order. Deleting a card does exactly this, on the home page and on the deck page. */
  function RemoveCard(cards: seq<Card>, cardId: Id): (r: seq<Card>)
    ensures forall k :: 0 <= k < |r| ==> r[k].id != cardId && r[k] in cards
    ensures forall k :: 0 <= k < |cards| && cards[k].id != cardId ==> cards[k] in r
    ensures Seqs.IsSubsequence(r, cards)
    ensures |r| == |cards| <==> forall k :: 0 <= k < |cards| ==> cards[k].id != cardId
    ensures forall c :: multiset(r)[c] == if c.id != cardId then multiset(cards)[c] else 0
  {
    var keep := (c: Card) => c.id != cardId;
    Seqs.FilterMultiplicity(cards, keep);
    Seqs.Filter(cards, keep)
  }
}
