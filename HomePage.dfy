/** The home page's card and deck lists (`HomePage.js`): creating cards and decks under
    collision-free default names, renaming and editing them, linking a card to a deck,
    deleting, and the search filter. Each handler replaces a whole list with a new one
    computed from the old; the functions below compute those lists. */
module HomePage {
  import opened Wrappers
  import opened Notes
  import Text
  import Seqs

  // ---------------------------------------------------------------------------
  // Default names by linear probing

  /** The `k`-th name tried: the base itself, then the base followed by a space and `k`. */
  function Candidate(base: string, k: nat): (r: string)
    ensures k == 0 <==> |r| == |base|
    ensures k == 0 ==> r == base
    ensures 0 < k ==> |base| < |r| && r[..|base|] == base
  {
    if k == 0 then base else base + " " + Text.NatToString(k)
  }

  /** `k` is the first probe whose name is not taken. */
  predicate IsLeastFree(base: string, names: seq<string>, k: nat)
  {
    && Candidate(base, k) !in names
    && forall j :: 0 <= j < k ==> Candidate(base, j) in names
  }

  /** The first `n` names the probe tries, in order. */
  function Candidates(base: string, n: nat): (r: seq<string>)
    ensures |r| == n && forall k :: 0 <= k < n ==> r[k] == Candidate(base, k)
    ensures forall j, k :: 0 <= j < k < n ==> r[j] != r[k]
  {
    var r := seq(n, k requires 0 <= k < n => Candidate(base, k));
    assert forall j, k :: 0 <= j < k < n ==> r[j] != r[k] by {
      forall j, k | 0 <= j < k < n
        ensures r[j] != r[k]
      {
        if r[j] == r[k] {
          CandidateInjective(base, j, k);
        }
      }
    }
    r
  }

  /** Different probes try different names. */
  lemma CandidateInjective(base: string, j: nat, k: nat)
    requires Candidate(base, j) == Candidate(base, k)
    ensures j == k
  {
    if j != 0 && k != 0 {
      var pj, pk := base + " ", base + " ";
      assert Candidate(base, j)[|pj|..] == Text.NatToString(j);
      assert Candidate(base, k)[|pk|..] == Text.NatToString(k);
      Text.NatToStringInjective(j, k);
    }
  }

  ghost function CandidateSet(base: string, n: nat): set<string>
  {
    set k | 0 <= k < n :: Candidate(base, k)
  }

  lemma {:induction false} CandidateSetSize(base: string, n: nat)
    ensures |CandidateSet(base, n)| == n
  {
    if n > 0 {
      CandidateSetSize(base, n - 1);
      CandidateSetGrows(base, n - 1);
    }
  }

  /** Probe `n` adds a name the first `n` probes did not try. */
  lemma CandidateSetGrows(base: string, n: nat)
    ensures CandidateSet(base, n + 1) == CandidateSet(base, n) + {Candidate(base, n)}
    ensures Candidate(base, n) !in CandidateSet(base, n)
  {
    if Candidate(base, n) in CandidateSet(base, n) {
      var k :| 0 <= k < n && Candidate(base, k) == Candidate(base, n);
      CandidateInjective(base, k, n);
    }
  }

  lemma {:induction false} SetOfSeqSize(s: seq<string>)
    ensures |set x | x in s| <= |s|
  {
    if s != [] {
      SetOfSeqSize(s[1..]);
      assert (set x | x in s) == (set x | x in s[1..]) + {s[0]};
    }
  }

  /** If the first `k` probes are all taken, there are at least `k` names: the probe cannot
      run past the length of the list. */
  lemma ProbeBound(base: string, names: seq<string>, k: nat)
    requires forall j :: 0 <= j < k ==> Candidate(base, j) in names
    ensures k <= |names|
  {
    CandidateSetSize(base, k);
    var taken := set x | x in names;
    var probed := CandidateSet(base, k);
    assert probed <= taken;
    assert taken == probed + (taken - probed);
    SetOfSeqSize(names);
  }

  /** `getUniqueNewCardTitle` / `getUniqueNewDeckTitle`: try the base name, then the base
      with 1, 2, ... appended, until a name is found that nothing in `names` carries. */
  method UniqueName(base: string, names: seq<string>) returns (name: string, ghost probes: nat)
    ensures name == Candidate(base, probes) && IsLeastFree(base, names, probes)
    ensures name !in names
    ensures probes <= |names|
  {
    var n := 0;
    name := base;
    while name in names
      invariant name == Candidate(base, n)
      invariant forall j :: 0 <= j < n ==> Candidate(base, j) in names
      invariant n <= |names|
      decreases |names| - n
    {
      ProbeBound(base, names, n + 1);
      n := n + 1;
      name := base + " " + Text.NatToString(n);
    }
    probes := n;
  }

  /** When the names taken are exactly the first `n` probes, the next name is probe `n`. */
  lemma NextDefaultName(base: string, n: nat)
    ensures IsLeastFree(base, Candidates(base, n), n)
  {
    if Candidate(base, n) in Candidates(base, n) {
      var k :| 0 <= k < n && Candidates(base, n)[k] == Candidate(base, n);
      CandidateInjective(base, k, n);
    }
  }

  /** The least free probe is unique, so the name `UniqueName` picks is determined. */
  lemma LeastFreeUnique(base: string, names: seq<string>, j: nat, k: nat)
    requires IsLeastFree(base, names, j) && IsLeastFree(base, names, k)
    ensures j == k
  {
  }

  const CardBase := "New Card"
  const DeckBase := "New Deck"

  function Titles(cards: seq<Card>): (r: seq<string>)
    ensures |r| == |cards| && forall i :: 0 <= i < |cards| ==> r[i] == cards[i].title
  {
    seq(|cards|, i requires 0 <= i < |cards| => cards[i].title)
  }

  function Names(decks: seq<Deck>): (r: seq<string>)
    ensures |r| == |decks| && forall i :: 0 <= i < |decks| ==> r[i] == decks[i].name
  {
    seq(|decks|, i requires 0 <= i < |decks| => decks[i].name)
  }

  // ---------------------------------------------------------------------------
  // The list transformations behind the handlers

  /** `decks.filter(deck => deck.id !== deckId)`. */
  function RemoveDeck(decks: seq<Deck>, deckId: Id): (r: seq<Deck>)
    ensures forall k :: 0 <= k < |r| ==> r[k].id != deckId && r[k] in decks
    ensures forall k :: 0 <= k < |decks| && decks[k].id != deckId ==> decks[k] in r
    ensures Seqs.IsSubsequence(r, decks)
    ensures forall d :: multiset(r)[d] == if d.id != deckId then multiset(decks)[d] else 0
  {
    var keep := (d: Deck) => d.id != deckId;
    Seqs.FilterMultiplicity(decks, keep);
    Seqs.Filter(decks, keep)
  }

  /** The deck side of `addCardToDeck`: `cardId` appended to the `cardIds` of every deck
      whose id is `deckId`. */
  function AppendCardId(decks: seq<Deck>, deckId: Id, cardId: Id): (r: seq<Deck>)
    ensures |r| == |decks|
    ensures forall i :: 0 <= i < |decks| && decks[i].id == deckId ==>
              r[i] == decks[i].(cardIds := decks[i].cardIds + [cardId])
    ensures forall i :: 0 <= i < |decks| && decks[i].id != deckId ==> r[i] == decks[i]
  {
    seq(|decks|, i requires 0 <= i < |decks| =>
      if decks[i].id == deckId then decks[i].(cardIds := decks[i].cardIds + [cardId]) else decks[i])
  }

  /** The card side of `addCardToDeck`: `deckId` appended to the `deckIds` of every card
      whose id is `cardId`. */
  function AppendDeckId(cards: seq<Card>, cardId: Id, deckId: Id): (r: seq<Card>)
    ensures |r| == |cards|
    ensures forall i :: 0 <= i < |cards| && cards[i].id == cardId ==>
              r[i] == cards[i].(deckIds := cards[i].deckIds + [deckId])
    ensures forall i :: 0 <= i < |cards| && cards[i].id != cardId ==> r[i] == cards[i]
  {
    if cards == [] then []
    else [if cards[0].id == cardId then cards[0].(deckIds := cards[0].deckIds + [deckId]) else cards[0]]
         + AppendDeckId(cards[1..], cardId, deckId)
  }

  /** `updateCardContent`: new `content` and `updatedAt` on the cards with that id. */
  function SetContent(cards: seq<Card>, cardId: Id, content: string, now: Timestamp): (r: seq<Card>)
    ensures |r| == |cards|
    ensures forall i :: 0 <= i < |cards| && cards[i].id == cardId ==>
              r[i] == cards[i].(content := content, updatedAt := Some(now))
    ensures forall i :: 0 <= i < |cards| && cards[i].id != cardId ==> r[i] == cards[i]
  {
    seq(|cards|, i requires 0 <= i < |cards| =>
      if cards[i].id == cardId then cards[i].(content := content, updatedAt := Some(now)) else cards[i])
  }

  /** `updateDeckName`: new `name` and `updatedAt` on the decks with that id. */
  function SetName(decks: seq<Deck>, deckId: Id, name: string, now: Timestamp): (r: seq<Deck>)
    ensures |r| == |decks|
    ensures forall i :: 0 <= i < |decks| && decks[i].id == deckId ==>
              r[i] == decks[i].(name := name, updatedAt := Some(now))
    ensures forall i :: 0 <= i < |decks| && decks[i].id != deckId ==> r[i] == decks[i]
  {
    seq(|decks|, i requires 0 <= i < |decks| =>
      if decks[i].id == deckId then decks[i].(name := name, updatedAt := Some(now)) else decks[i])
  }

  /** The card side of `handleDeleteDeck`: `deckId` set to null on the cards that named the
      deleted deck there. */
  function ClearDeckId(cards: seq<Card>, deckId: Id): (r: seq<Card>)
    ensures |r| == |cards|
    ensures forall i :: 0 <= i < |cards| && cards[i].deckId == Some(deckId) ==>
              r[i] == cards[i].(deckId := None)
    ensures forall i :: 0 <= i < |cards| && cards[i].deckId != Some(deckId) ==> r[i] == cards[i]
  {
    seq(|cards|, i requires 0 <= i < |cards| =>
      if cards[i].deckId == Some(deckId) then cards[i].(deckId := None) else cards[i])
  }

  function NewCard(id: Id, title: string, now: Timestamp): Card
  {
    Card(id, title, "", now, None, None, None, None, [], None)
  }

  function NewDeck(id: Id, name: string, now: Timestamp): Deck
  {
    Deck(id, name, [], [], now, None)
  }

  // ---------------------------------------------------------------------------
  // Search

  /** The search term matches a card when its lower-cased title or content includes the
      lower-cased term. */
  predicate CardMatches(c: Card, term: string)
  {
    Text.Contains(Text.ToLower(c.title), Text.ToLower(term))
    || Text.Contains(Text.ToLower(c.content), Text.ToLower(term))
  }

  /** `filteredCards`. */
  function FilteredCards(cards: seq<Card>, term: string): (r: seq<Card>)
    ensures forall k :: 0 <= k < |r| ==> CardMatches(r[k], term) && r[k] in cards
    ensures forall k :: 0 <= k < |cards| && CardMatches(cards[k], term) ==> cards[k] in r
    ensures Seqs.IsSubsequence(r, cards)
    ensures forall c :: multiset(r)[c] == if CardMatches(c, term) then multiset(cards)[c] else 0
  {
    var keep := (c: Card) => CardMatches(c, term);
    Seqs.FilterMultiplicity(cards, keep);
    Seqs.Filter(cards, keep)
  }

  /** The card a deck lists under `cardId` (the first with that id) exists and matches. */
  predicate ListedCardMatches(cards: seq<Card>, cardId: Id, term: string)
  {
    var i := Seqs.FindIndex(cards, (c: Card) => c.id == cardId);
    0 <= i && CardMatches(cards[i], term)
  }

  /** A deck matches when its lower-cased name includes the lower-cased term, or when one
      of the ids in its `cards` list leads to a matching card. */
  predicate DeckMatches(d: Deck, cards: seq<Card>, term: string)
  {
    || Text.Contains(Text.ToLower(d.name), Text.ToLower(term))
    || exists k :: 0 <= k < |d.cards| && ListedCardMatches(cards, d.cards[k], term)
  }

  /** `filteredDecks`. */
  function FilteredDecks(decks: seq<Deck>, cards: seq<Card>, term: string): (r: seq<Deck>)
    ensures forall k :: 0 <= k < |r| ==> DeckMatches(r[k], cards, term) && r[k] in decks
    ensures forall k :: 0 <= k < |decks| && DeckMatches(decks[k], cards, term) ==> decks[k] in r
    ensures Seqs.IsSubsequence(r, decks)
    ensures forall d :: multiset(r)[d] == if DeckMatches(d, cards, term) then multiset(decks)[d] else 0
  {
    var keep := (d: Deck) => DeckMatches(d, cards, term);
    Seqs.FilterMultiplicity(decks, keep);
    Seqs.Filter(decks, keep)
  }

  /** The search ignores the case of the term: typing it in lower case shows the same cards
      and the same decks. */
  lemma SearchIgnoresTermCase(cards: seq<Card>, decks: seq<Deck>, term: string)
    ensures FilteredCards(cards, Text.ToLower(term)) == FilteredCards(cards, term)
    ensures FilteredDecks(decks, cards, Text.ToLower(term)) == FilteredDecks(decks, cards, term)
  {
    Text.ToLowerIdempotent(term);
    Seqs.FilterSame(cards, (c: Card) => CardMatches(c, Text.ToLower(term)), (c: Card) => CardMatches(c, term));
    Seqs.FilterSame(decks, (d: Deck) => DeckMatches(d, cards, Text.ToLower(term)),
                    (d: Deck) => DeckMatches(d, cards, term));
  }

  /** An empty search shows every card, in order. */
  lemma EmptySearchKeepsCards(cards: seq<Card>)
    ensures FilteredCards(cards, "") == cards
  {
    forall i | 0 <= i < |cards| ensures CardMatches(cards[i], "") {
      Text.ContainsEmpty(Text.ToLower(cards[i].title));
    }
    Seqs.FilterAll(cards, (c: Card) => CardMatches(c, ""));
  }

  /** An empty search shows every deck, in order. */
  lemma EmptySearchKeepsDecks(decks: seq<Deck>, cards: seq<Card>)
    ensures FilteredDecks(decks, cards, "") == decks
  {
    forall i | 0 <= i < |decks| ensures DeckMatches(decks[i], cards, "") {
      Text.ContainsEmpty(Text.ToLower(decks[i].name));
    }
    Seqs.FilterAll(decks, (d: Deck) => DeckMatches(d, cards, ""));
  }

  // ---------------------------------------------------------------------------
  // What the page shows

  /** The "Cards" section: the filtered cards whose `deckId` is falsy. */
  function UnfiledCards(filtered: seq<Card>): (r: seq<Card>)
    ensures forall k :: 0 <= k < |r| ==> (r[k].deckId.None? || r[k].deckId.value == "") && r[k] in filtered
    ensures forall k :: 0 <= k < |filtered| && (filtered[k].deckId.None? || filtered[k].deckId.value == "")
                        ==> filtered[k] in r
    ensures Seqs.IsSubsequence(r, filtered)
    ensures forall c :: multiset(r)[c] == if c.deckId.None? || c.deckId.value == "" then multiset(filtered)[c] else 0
  {
    var keep := (c: Card) => c.deckId.None? || c.deckId.value == "";
    Seqs.FilterMultiplicity(filtered, keep);
    Seqs.Filter(filtered, keep)
  }

  /** The cards passed to a deck tile: those whose `deckId` is that deck's id. */
  function CardsShownInDeck(cards: seq<Card>, deckId: Id): (r: seq<Card>)
    ensures forall k :: 0 <= k < |r| ==> r[k].deckId == Some(deckId) && r[k] in cards
    ensures forall k :: 0 <= k < |cards| && cards[k].deckId == Some(deckId) ==> cards[k] in r
    ensures Seqs.IsSubsequence(r, cards)
    ensures forall c :: multiset(r)[c] == if c.deckId == Some(deckId) then multiset(cards)[c] else 0
  {
    Seqs.FilterMultiplicity(cards, FiledUnder(deckId));
    Seqs.Filter(cards, FiledUnder(deckId))
  }

  /** `card => card.deckId === deckId`. */
  function FiledUnder(deckId: Id): Card -> bool
  {
    (c: Card) => c.deckId == Some(deckId)
  }

  function Ids(cards: seq<Card>): (r: seq<Id>)
    ensures |r| == |cards| && forall i :: 0 <= i < |cards| ==> r[i] == cards[i].id
  {
    seq(|cards|, i requires 0 <= i < |cards| => cards[i].id)
  }

  /** Linking commutes with selecting a deck tile's cards: `deckIds` plays no part in the
      selection. */
  lemma {:induction false} AppendDeckIdCommutesWithTiles(cards: seq<Card>, cardId: Id, deckId: Id, shown: Id)
    ensures CardsShownInDeck(AppendDeckId(cards, cardId, deckId), shown)
            == AppendDeckId(CardsShownInDeck(cards, shown), cardId, deckId)
  {
    if cards != [] {
      var after := AppendDeckId(cards, cardId, deckId);
      assert after[1..] == AppendDeckId(cards[1..], cardId, deckId);
      AppendDeckIdCommutesWithTiles(cards[1..], cardId, deckId, shown);
      Seqs.FilterCons(cards, FiledUnder(shown));
      Seqs.FilterCons(after, FiledUnder(shown));
      if cards[0].deckId == Some(shown) {
        var rest := CardsShownInDeck(cards[1..], shown);
        assert ([cards[0]] + rest)[1..] == rest;
      }
    }
  }

  /** `addCardToDeck` writes `deckIds` while the deck tiles select on `deckId`: linking a card
      to a deck never changes which cards a deck tile shows. */
  lemma AddCardToDeckKeepsDeckTiles(cards: seq<Card>, cardId: Id, deckId: Id, shown: Id)
    ensures Ids(CardsShownInDeck(AppendDeckId(cards, cardId, deckId), shown)) == Ids(CardsShownInDeck(cards, shown))
  {
    AppendDeckIdCommutesWithTiles(cards, cardId, deckId, shown);
  }

  // ---------------------------------------------------------------------------
  // The card/deck relation

  /** A card lists a deck in `deckIds` exactly when that deck lists the card in `cardIds`,
      for every card and deck present. Ids that name no present card or deck are not
      constrained: deleting a card leaves its id in the `cardIds` of its decks, and deleting
      a deck leaves its id in the `deckIds` of its cards, as the page does. */
  ghost predicate Consistent(cards: seq<Card>, decks: seq<Deck>)
  {
    forall i, j :: 0 <= i < |decks| && 0 <= j < |cards| ==>
      (cards[j].id in decks[i].cardIds <==> decks[i].id in cards[j].deckIds)
  }

  /** Linking writes both sides, so the relation stays symmetric, whether or not the ids exist. */
  lemma AddCardToDeckKeepsConsistent(cards: seq<Card>, decks: seq<Deck>, cardId: Id, deckId: Id)
    requires Consistent(cards, decks)
    ensures Consistent(AppendDeckId(cards, cardId, deckId), AppendCardId(decks, deckId, cardId))
  {
  }

  /** Deleting a card drops it from the card list; what remains is still consistent with every deck. */
  lemma DeleteCardKeepsConsistent(cards: seq<Card>, decks: seq<Deck>, cardId: Id)
    requires Consistent(cards, decks)
    ensures Consistent(RemoveCard(cards, cardId), decks)
  {
    var r := RemoveCard(cards, cardId);
    forall i, j | 0 <= i < |decks| && 0 <= j < |r|
      ensures r[j].id in decks[i].cardIds <==> decks[i].id in r[j].deckIds
    {
      var k :| 0 <= k < |cards| && cards[k] == r[j];
    }
  }

  /** Deleting a deck drops it from the deck list and leaves ids and `deckIds` untouched. */
  lemma DeleteDeckKeepsConsistent(cards: seq<Card>, decks: seq<Deck>, deckId: Id)
    requires Consistent(cards, decks)
    ensures Consistent(ClearDeckId(cards, deckId), RemoveDeck(decks, deckId))
  {
    var r := RemoveDeck(decks, deckId);
    forall i, j | 0 <= i < |r| && 0 <= j < |cards|
      ensures cards[j].id in r[i].cardIds <==> r[i].id in cards[j].deckIds
    {
      var k :| 0 <= k < |decks| && decks[k] == r[i];
    }
  }

  /** A new card with an id no deck lists keeps the relation consistent. */
  lemma CreateCardKeepsConsistent(cards: seq<Card>, decks: seq<Deck>, id: Id, title: string, now: Timestamp)
    requires Consistent(cards, decks)
    requires forall i :: 0 <= i < |decks| ==> id !in decks[i].cardIds
    ensures Consistent(cards + [NewCard(id, title, now)], decks)
  {
  }

  /** A new deck with an id no card lists keeps the relation consistent. */
  lemma CreateDeckKeepsConsistent(cards: seq<Card>, decks: seq<Deck>, id: Id, name: string, now: Timestamp)
    requires Consistent(cards, decks)
    requires forall j :: 0 <= j < |cards| ==> id !in cards[j].deckIds
    ensures Consistent(cards, decks + [NewDeck(id, name, now)])
  {
  }

  /** Editing content or a name touches neither ids nor links. */
  lemma EditsKeepConsistent(cards: seq<Card>, decks: seq<Deck>, id: Id, text: string, now: Timestamp)
    requires Consistent(cards, decks)
    ensures Consistent(SetContent(cards, id, text, now), decks)
    ensures Consistent(cards, SetName(decks, id, text, now))
  {
  }

  // ---------------------------------------------------------------------------
  // The page state

  class Store {
    var cards: seq<Card>
    var decks: seq<Deck>
    var searchTerm: string

    /** The page after the load effect: the lists read from storage (empty when absent). */
    constructor (loadedCards: seq<Card>, loadedDecks: seq<Deck>)
      ensures cards == loadedCards && decks == loadedDecks && searchTerm == ""
    {
      cards := loadedCards;
      decks := loadedDecks;
      searchTerm := "";
    }

    /** `onDelete`. */
    method OnDelete(cardId: Id)
      modifies this
      ensures cards == RemoveCard(old(cards), cardId)
      ensures decks == old(decks) && searchTerm == old(searchTerm)
    {
      cards := RemoveCard(cards, cardId);
    }

    /** `addCardToDeck`. */
    method AddCardToDeck(cardId: Id, deckId: Id)
      modifies this
      ensures decks == AppendCardId(old(decks), deckId, cardId)
      ensures cards == AppendDeckId(old(cards), cardId, deckId)
      ensures searchTerm == old(searchTerm)
    {
      decks := AppendCardId(decks, deckId, cardId);
      cards := AppendDeckId(cards, cardId, deckId);
    }

    /** `createNewCard`: one card appended, titled by probing the current titles. The id and
        the creation time are the values `uuidv4()` and the clock supplied. */
    method CreateNewCard(id: Id, now: Timestamp)
      modifies this
      ensures exists k: nat :: k <= |old(cards)| && IsLeastFree(CardBase, Titles(old(cards)), k)
                               && cards == old(cards) + [NewCard(id, Candidate(CardBase, k), now)]
      ensures decks == old(decks) && searchTerm == old(searchTerm)
    {
      var title;
      ghost var k;
      title, k := UniqueName(CardBase, Titles(cards));
      cards := cards + [NewCard(id, title, now)];
    }

    /** `createNewDeck`: one deck appended, named by probing the current names, with an
        empty `cards` list. */
    method CreateNewDeck(id: Id, now: Timestamp)
      modifies this
      ensures exists k: nat :: k <= |old(decks)| && IsLeastFree(DeckBase, Names(old(decks)), k)
                               && decks == old(decks) + [NewDeck(id, Candidate(DeckBase, k), now)]
      ensures cards == old(cards) && searchTerm == old(searchTerm)
    {
      var name;
      ghost var k;
      name, k := UniqueName(DeckBase, Names(decks));
      decks := decks + [NewDeck(id, name, now)];
    }

    /** `updateCardContent`. */
    method UpdateCardContent(cardId: Id, content: string, now: Timestamp)
      modifies this
      ensures cards == SetContent(old(cards), cardId, content, now)
      ensures decks == old(decks) && searchTerm == old(searchTerm)
    {
      cards := SetContent(cards, cardId, content, now);
    }

    /** `updateDeckName`. */
    method UpdateDeckName(deckId: Id, name: string, now: Timestamp)
      modifies this
      ensures decks == SetName(old(decks), deckId, name, now)
      ensures cards == old(cards) && searchTerm == old(searchTerm)
    {
      decks := SetName(decks, deckId, name, now);
    }

    /** `handleDeleteDeck`. */
    method HandleDeleteDeck(deckId: Id)
      modifies this
      ensures decks == RemoveDeck(old(decks), deckId)
      ensures cards == ClearDeckId(old(cards), deckId)
      ensures searchTerm == old(searchTerm)
    {
      decks := RemoveDeck(decks, deckId);
      cards := ClearDeckId(cards, deckId);
    }

    /** The debounced search setter, once its delay has passed. */
    method SetSearchTerm(term: string)
      modifies this
      ensures searchTerm == term && cards == old(cards) && decks == old(decks)
    {
      searchTerm := term;
    }
  }

  /** A card titled with the next probe extends the titles by that probe. */
  lemma TitlesGrow(before: seq<Card>, c: Card, i: nat)
    requires Titles(before) == Candidates(CardBase, i) && c.title == Candidate(CardBase, i)
    ensures Titles(before + [c]) == Candidates(CardBase, i + 1)
  {
    assert |Titles(before + [c])| == i + 1;
    forall j | 0 <= j <= i ensures Titles(before + [c])[j] == Candidates(CardBase, i + 1)[j] {
      if j < i { assert Titles(before)[j] == Candidates(CardBase, i)[j]; }
    }
  }

  /** Creating `n` cards on an empty page titles them "New Card", "New Card 1", ...,
      "New Card n-1", all different. */
  method CreateCardsOnEmptyPage(ids: seq<Id>, now: Timestamp) returns (titles: seq<string>)
    ensures titles == Candidates(CardBase, |ids|)
    ensures forall i, j :: 0 <= i < j < |titles| ==> titles[i] != titles[j]
  {
    var page := new Store([], []);
    var i := 0;
    while i < |ids|
      invariant 0 <= i <= |ids|
      invariant Titles(page.cards) == Candidates(CardBase, i)
    {
      ghost var before := page.cards;
      page.CreateNewCard(ids[i], now);
      NextDefaultName(CardBase, i);
      ghost var k: nat :| k <= |before| && IsLeastFree(CardBase, Titles(before), k)
                    && page.cards == before + [NewCard(ids[i], Candidate(CardBase, k), now)];
      LeastFreeUnique(CardBase, Titles(before), k, i);
      TitlesGrow(before, NewCard(ids[i], Candidate(CardBase, i), now), i);
      i := i + 1;
    }
    titles := Titles(page.cards);
  }
}
