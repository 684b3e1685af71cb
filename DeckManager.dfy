/** The drag-and-drop deck board (`DeckManager.js`). Here a deck holds its cards as
    objects, in display order; `onDragEnd` reconciles a finished drag with the deck list. */
module DeckManager {
  import opened Wrappers
  import Text
  import Seqs

  datatype Note = Note(id: string, title: string, content: string)
  datatype Deck = Deck(id: string, name: string, cards: seq<Note>)

  /** A place in a droppable list: the droppable's id and a position in it. */
  datatype Location = Location(droppableId: string, index: nat)
  /** What the drag library reports when a drag ends; no destination when dropped outside. */
  datatype DropResult = DropResult(source: Location, destination: Option<Location>)

  /** The droppable that turns a dropped card into a deck of its own. */
  const NewDeckTarget := "create-new-deck"

  /** `findIndex` by deck id (`find` returns the deck at the same index). */
  function DeckIndex(decks: seq<Deck>, id: string): (i: int)
    ensures -1 <= i < |decks|
    ensures 0 <= i ==> decks[i].id == id && forall k :: 0 <= k < i ==> decks[k].id != id
    ensures i == -1 <==> forall k :: 0 <= k < |decks| ==> decks[k].id != id
  {
    Seqs.FindIndex(decks, (d: Deck) => d.id == id)
  }

  /** Every card on the board, deck after deck. */
  function AllNotes(decks: seq<Deck>): seq<Note>
  {
    if decks == [] then [] else decks[0].cards + AllNotes(decks[1..])
  }

  function TotalCards(decks: seq<Deck>): nat
  {
    |AllNotes(decks)|
  }

  /** Replacing one deck's cards changes the board's cards by exactly that deck's difference. */
  lemma {:induction false} AllNotesUpdate(decks: seq<Deck>, i: nat, d: Deck)
    requires i < |decks|
    ensures multiset(AllNotes(decks[i := d])) + multiset(decks[i].cards)
            == multiset(AllNotes(decks)) + multiset(d.cards)
  {
    var head := decks[0].cards;
    if i == 0 {
      assert decks[i := d][1..] == decks[1..];
      assert AllNotes(decks[i := d]) == d.cards + AllNotes(decks[1..]);
    } else {
      var rest, rest' := decks[1..], decks[1..][i - 1 := d];
      assert decks[i := d][1..] == rest';
      assert rest[i - 1] == decks[i];
      AllNotesUpdate(rest, i - 1, d);
      calc {
        multiset(AllNotes(decks[i := d])) + multiset(decks[i].cards);
        multiset(head + AllNotes(rest')) + multiset(decks[i].cards);
        multiset(head) + (multiset(AllNotes(rest')) + multiset(rest[i - 1].cards));
        multiset(head) + (multiset(AllNotes(rest)) + multiset(d.cards));
        multiset(head + AllNotes(rest)) + multiset(d.cards);
      }
    }
  }

  lemma MultisetCancel(x: multiset<Note>, y: multiset<Note>, a: multiset<Note>)
    requires x + a == y + a
    ensures x == y
  {
    forall e ensures x[e] == y[e] {
      assert (x + a)[e] == (y + a)[e];
    }
  }

  lemma {:induction false} AllNotesAppend(decks: seq<Deck>, d: Deck)
    ensures AllNotes(decks + [d]) == AllNotes(decks) + d.cards
  {
    if decks == [] {
      assert [d][1..] == [];
    } else {
      assert (decks + [d])[1..] == decks[1..] + [d];
      AllNotesAppend(decks[1..], d);
    }
  }

  /** Same ids and names, in the same order. */
  predicate SameDeckList(a: seq<Deck>, b: seq<Deck>)
  {
    |a| == |b| && forall i :: 0 <= i < |a| ==> a[i].id == b[i].id && a[i].name == b[i].name
  }

  /** Reordering within one deck: the card at `from` taken out and put back before `to`. */
  function Reorder(decks: seq<Deck>, si: nat, from: nat, to: nat): (r: seq<Deck>)
    requires si < |decks| && from < |decks[si].cards|
    ensures SameDeckList(r, decks)
    ensures forall i :: 0 <= i < |decks| && i != si ==> r[i] == decks[i]
    ensures |r[si].cards| == |decks[si].cards|
    ensures multiset(r[si].cards) == multiset(decks[si].cards)
    ensures r[si].cards[Seqs.Clamp(to, |decks[si].cards| - 1)] == decks[si].cards[from]
    ensures Seqs.RemoveAt(r[si].cards, Seqs.Clamp(to, |decks[si].cards| - 1))
            == Seqs.RemoveAt(decks[si].cards, from)
  {
    Seqs.MoveIsPermutation(decks[si].cards, from, to);
    decks[si := decks[si].(cards := Seqs.Move(decks[si].cards, from, to))]
  }

  /** A reorder keeps every card on the board, as many times as before. */
  lemma ReorderKeepsNotes(decks: seq<Deck>, si: nat, from: nat, to: nat)
    requires si < |decks| && from < |decks[si].cards|
    ensures multiset(AllNotes(Reorder(decks, si, from, to))) == multiset(AllNotes(decks))
    ensures TotalCards(Reorder(decks, si, from, to)) == TotalCards(decks)
  {
    var r := Reorder(decks, si, from, to);
    AllNotesUpdate(decks, si, r[si]);
    assert r == decks[si := r[si]];
    MultisetCancel(multiset(AllNotes(r)), multiset(AllNotes(decks)), multiset(decks[si].cards));
  }

  /** Moving a card between decks: out of deck `si` at `from`, into deck `di` before `to`. */
  function MoveBetween(decks: seq<Deck>, si: nat, di: nat, from: nat, to: nat): (r: seq<Deck>)
    requires si < |decks| && di < |decks| && si != di && from < |decks[si].cards|
    ensures SameDeckList(r, decks)
    ensures forall i :: 0 <= i < |decks| && i != si && i != di ==> r[i] == decks[i]
    ensures r[si].cards == Seqs.RemoveAt(decks[si].cards, from)
    ensures |r[di].cards| == |decks[di].cards| + 1
    ensures r[di].cards[Seqs.Clamp(to, |decks[di].cards|)] == decks[si].cards[from]
    ensures Seqs.RemoveAt(r[di].cards, Seqs.Clamp(to, |decks[di].cards|)) == decks[di].cards
  {
    var moved := decks[si].cards[from];
    Seqs.RemoveInserted(decks[di].cards, to, moved);
    decks[si := decks[si].(cards := Seqs.RemoveAt(decks[si].cards, from))]
         [di := decks[di].(cards := Seqs.InsertAt(decks[di].cards, to, moved))]
  }

  /** A move between decks loses no card and duplicates none: the board holds the same
      cards, as many times each, so the total count is unchanged. */
  lemma MoveBetweenKeepsNotes(decks: seq<Deck>, si: nat, di: nat, from: nat, to: nat)
    requires si < |decks| && di < |decks| && si != di && from < |decks[si].cards|
    ensures multiset(AllNotes(MoveBetween(decks, si, di, from, to))) == multiset(AllNotes(decks))
    ensures TotalCards(MoveBetween(decks, si, di, from, to)) == TotalCards(decks)
  {
    var moved := decks[si].cards[from];
    var s := decks[si].(cards := Seqs.RemoveAt(decks[si].cards, from));
    var d := decks[di].(cards := Seqs.InsertAt(decks[di].cards, to, moved));
    Seqs.RemoveAtMultiset(decks[si].cards, from);
    Seqs.InsertAtMultiset(decks[di].cards, to, moved);
    SpliceKeepsNotes(decks, si, di, s, d, moved);
    assert MoveBetween(decks, si, di, from, to) == decks[si := s][di := d];
  }

  /** Taking `moved` out of deck `si` and putting it into deck `di` keeps the board's cards. */
  lemma SpliceKeepsNotes(decks: seq<Deck>, si: nat, di: nat, s: Deck, d: Deck, moved: Note)
    requires si < |decks| && di < |decks| && si != di
    requires multiset(s.cards) + multiset{moved} == multiset(decks[si].cards)
    requires multiset(d.cards) == multiset(decks[di].cards) + multiset{moved}
    ensures multiset(AllNotes(decks[si := s][di := d])) == multiset(AllNotes(decks))
    ensures TotalCards(decks[si := s][di := d]) == TotalCards(decks)
  {
    var mid := decks[si := s];
    assert mid[di] == decks[di];
    AllNotesUpdate(decks, si, s);
    AllNotesUpdate(mid, di, d);
    var all, allMid, allEnd := multiset(AllNotes(decks)), multiset(AllNotes(mid)), multiset(AllNotes(mid[di := d]));
    var ms, mdOld := multiset(s.cards), multiset(decks[di].cards);
    // allMid + (ms + {moved}) == all + ms  and  allEnd + mdOld == allMid + (mdOld + {moved})
    MultisetCancel(allMid + multiset{moved}, all, ms);
    MultisetCancel(allEnd, allMid + multiset{moved}, mdOld);
    assert |allEnd| == |all|;
  }

  /** The deck a card dropped on the new-deck target becomes. */
  function SpawnedDeck(moved: Note, now: nat): Deck
  {
    Deck("deck-" + Text.NatToString(now), "New Deck", [moved])
  }

  /** Dropping on the new-deck target: the card leaves deck `si` and a one-card deck is
      appended at the end of the list. */
  function MoveToNewDeck(decks: seq<Deck>, si: nat, from: nat, now: nat): (r: seq<Deck>)
    requires si < |decks| && from < |decks[si].cards|
    ensures |r| == |decks| + 1 && SameDeckList(r[..|decks|], decks)
    ensures forall i :: 0 <= i < |decks| && i != si ==> r[i] == decks[i]
    ensures r[si].cards == Seqs.RemoveAt(decks[si].cards, from)
    ensures r[|decks|].cards == [decks[si].cards[from]] && r[|decks|].name == "New Deck"
  {
    var moved := decks[si].cards[from];
    decks[si := decks[si].(cards := Seqs.RemoveAt(decks[si].cards, from))] + [SpawnedDeck(moved, now)]
  }

  /** Spawning a deck moves the card rather than copying or losing it. */
  lemma MoveToNewDeckKeepsNotes(decks: seq<Deck>, si: nat, from: nat, now: nat)
    requires si < |decks| && from < |decks[si].cards|
    ensures multiset(AllNotes(MoveToNewDeck(decks, si, from, now))) == multiset(AllNotes(decks))
    ensures TotalCards(MoveToNewDeck(decks, si, from, now)) == TotalCards(decks)
  {
    var moved := decks[si].cards[from];
    var s := decks[si].(cards := Seqs.RemoveAt(decks[si].cards, from));
    assert MoveToNewDeck(decks, si, from, now) == decks[si := s] + [SpawnedDeck(moved, now)];
    Seqs.RemoveAtMultiset(decks[si].cards, from);
    AllNotesUpdate(decks, si, s);
    AllNotesAppend(decks[si := s], SpawnedDeck(moved, now));
    MultisetCancel(multiset(AllNotes(decks[si := s])) + multiset{moved}, multiset(AllNotes(decks)), multiset(s.cards));
  }

  /** What the library can report: the dragged card sits at `source.index` of an existing
      deck, and a destination other than the new-deck target and the source is a deck. */
  predicate ValidDrop(decks: seq<Deck>, result: DropResult)
  {
    result.destination.None?
    || (result.source == result.destination.value)
    || (var si := DeckIndex(decks, result.source.droppableId);
        && 0 <= si && result.source.index < |decks[si].cards|
        && (|| result.destination.value.droppableId == result.source.droppableId
            || result.destination.value.droppableId == NewDeckTarget
            || 0 <= DeckIndex(decks, result.destination.value.droppableId)))
  }

  /** `decks.map((deck, index) => index === 0 ? add newCard : deck)`. */
  function AppendToFirst(decks: seq<Deck>, n: Note): (r: seq<Deck>)
    ensures SameDeckList(r, decks)
    ensures |decks| > 0 ==> r[0].cards == decks[0].cards + [n]
    ensures forall i :: 0 < i < |decks| ==> r[i] == decks[i]
  {
    if decks == [] then [] else [decks[0].(cards := decks[0].cards + [n])] + decks[1..]
  }

  /** `handleRenameDeck`'s map: the decks with that id get the new name. */
  function RenameDecks(decks: seq<Deck>, deckId: string, name: string): (r: seq<Deck>)
    ensures |r| == |decks|
    ensures forall i :: 0 <= i < |decks| && decks[i].id == deckId ==> r[i] == decks[i].(name := name)
    ensures forall i :: 0 <= i < |decks| && decks[i].id != deckId ==> r[i] == decks[i]
  {
    seq(|decks|, i requires 0 <= i < |decks| =>
      if decks[i].id == deckId then decks[i].(name := name) else decks[i])
  }

  /** Dragging the last of three cards to the top rotates them: `[A, B, C]` becomes `[C, A, B]`. */
  lemma ReorderExample()
    ensures Seqs.Move(["A", "B", "C"], 2, 0) == ["C", "A", "B"]
  {
  }

  class Board {
    var decks: seq<Deck>

    /** The board starts with two empty decks. */
    constructor ()
      ensures decks == [Deck("deck1", "Deck 1", []), Deck("deck2", "Deck 2", [])]
    {
      decks := [Deck("deck1", "Deck 1", []), Deck("deck2", "Deck 2", [])];
    }

    /** `createNewCard`: a card whose id carries the clock value, added at the end of the first
        deck; with no decks nothing changes. */
    method CreateNewCard(now: nat)
      modifies this
      ensures decks == AppendToFirst(old(decks), Note("card-" + Text.NatToString(now), "New Card", "Click to edit this card"))
    {
      var newCard := Note("card-" + Text.NatToString(now), "New Card", "Click to edit this card");
      var updated := decks;
      if |updated| > 0 {
        updated := updated[0 := updated[0].(cards := updated[0].cards + [newCard])];
      }
      decks := updated;
    }

    /** `onDragEnd`. `now` is the clock value that names a spawned deck. */
    method OnDragEnd(result: DropResult, now: nat)
      requires ValidDrop(decks, result)
      modifies this
      ensures result.destination.None? || result.source == result.destination.value ==> decks == old(decks)
      ensures result.destination.Some? && result.source != result.destination.value ==>
        var src, dst := result.source, result.destination.value;
        var si := DeckIndex(old(decks), src.droppableId);
        if src.droppableId == dst.droppableId then
          decks == Reorder(old(decks), si, src.index, dst.index)
        else if dst.droppableId == NewDeckTarget then
          decks == MoveToNewDeck(old(decks), si, src.index, now)
        else
          decks == MoveBetween(old(decks), si, DeckIndex(old(decks), dst.droppableId), src.index, dst.index)
    {
      if result.destination.None? {
        return;
      }
      var src, dst := result.source, result.destination.value;
      if src.droppableId == dst.droppableId && src.index == dst.index {
        return;
      }
      var si := DeckIndex(decks, src.droppableId);
      var sourceDeck := decks[si];
      var newDecks := decks;
      if src.droppableId == dst.droppableId {
        var newCards := sourceDeck.cards;
        var reordered := newCards[src.index];
        newCards := Seqs.RemoveAt(newCards, src.index);
        newCards := Seqs.InsertAt(newCards, dst.index, reordered);
        newDecks := newDecks[si := sourceDeck.(cards := newCards)];
      } else if dst.droppableId == NewDeckTarget {
        var sourceCards := sourceDeck.cards;
        var moved := sourceCards[src.index];
        sourceCards := Seqs.RemoveAt(sourceCards, src.index);
        var newDeck := Deck("deck-" + Text.NatToString(now), "New Deck", [moved]);
        newDecks := newDecks[si := sourceDeck.(cards := sourceCards)];
        newDecks := newDecks + [newDeck];
      } else {
        var di := DeckIndex(decks, dst.droppableId);
        var destDeck := decks[di];
        var sourceCards := sourceDeck.cards;
        var moved := sourceCards[src.index];
        sourceCards := Seqs.RemoveAt(sourceCards, src.index);
        var destCards := Seqs.InsertAt(destDeck.cards, dst.index, moved);
        newDecks := newDecks[si := sourceDeck.(cards := sourceCards)];
        newDecks := newDecks[di := destDeck.(cards := destCards)];
      }
      decks := newDecks;
    }

    /** `handleRenameDeck`. */
    method HandleRenameDeck(deckId: string, newName: string)
      modifies this
      ensures decks == RenameDecks(old(decks), deckId, newName)
    {
      decks := RenameDecks(decks, deckId, newName);
    }
  }
}
