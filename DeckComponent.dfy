/** One deck tile (`Deck.js`): an editable title and a delete button, reporting to the page
    through `onUpdate(id, name)` and `onDelete(id)`. */
module DeckComponent {
  import opened Wrappers
  import Text

  datatype PageCall = Update(id: string, name: string) | Delete(id: string)

  class DeckTile {
    const id: string
    var name: string              // the name prop, replaced when the page re-renders the tile
    var isEditingTitle: bool
    var deckName: string          // the draft in the title field
    var calls: seq<PageCall>

    constructor (id: string, name: string)
      ensures this.id == id && this.name == name
      ensures !isEditingTitle && deckName == name && calls == []
    {
      this.id := id;
      this.name := name;
      isEditingTitle := false;
      deckName := name;
      calls := [];
    }

    /** The page re-renders the tile with a new `name` prop. The draft and the editing flag
        are the tile's own state (`useState` reads `name` only on mount), so they are kept. */
    method ReceiveName(n: string)
      modifies this`name
      ensures name == n
    {
      name := n;
    }

    /** `handleTitleClick`. */
    method HandleTitleClick()
      modifies this`isEditingTitle
      ensures isEditingTitle
    {
      isEditingTitle := true;
    }

    /** `handleTitleChange`. */
    method HandleTitleChange(value: string)
      modifies this`deckName
      ensures deckName == value
    {
      deckName := value;
    }

    /** `handleTitleBlur`: editing ends; the trimmed draft is reported exactly when it differs
        from the name. The draft itself is left untrimmed. */
    method HandleTitleBlur()
      modifies this`isEditingTitle, this`calls
      ensures !isEditingTitle
      ensures Text.Trim(deckName) != name ==> calls == old(calls) + [Update(id, Text.Trim(deckName))]
      ensures Text.Trim(deckName) == name ==> calls == old(calls)
    {
      isEditingTitle := false;
      var committed := Text.CommitTitle(deckName, name);
      if committed.Some? {
        calls := calls + [Update(id, committed.value)];
      }
    }

    /** `handleTitleKeyDown`: Enter acts as blur, Escape leaves editing and restores the name
        without reporting, any other key does nothing. */
    method HandleTitleKeyDown(key: string)
      modifies this`isEditingTitle, this`calls, this`deckName
      ensures key == "Enter" ==>
        (!isEditingTitle && deckName == old(deckName) &&
         calls == old(calls) + (if Text.Trim(deckName) != name then [Update(id, Text.Trim(deckName))] else []))
      ensures key == "Escape" ==> !isEditingTitle && deckName == name && calls == old(calls)
      ensures key != "Enter" && key != "Escape" ==>
        (isEditingTitle == old(isEditingTitle) && deckName == old(deckName) && calls == old(calls))
    {
      if key == "Enter" {
        HandleTitleBlur();
      } else if key == "Escape" {
        isEditingTitle := false;
        deckName := name;
      }
    }

    /** `handleDelete`: `onDelete(id)` once the user confirmed. */
    method HandleDelete(confirmed: bool)
      modifies this`calls
      ensures calls == old(calls) + (if confirmed then [Delete(id)] else [])
    {
      if confirmed {
        calls := calls + [Delete(id)];
      }
    }
  }

  /** Renaming a tile on the home page: the tile reports the trimmed draft, the page passes it
      back as the new name, and from then on a blur reports nothing and Escape restores the new
      name. The page hears of the rename at most once. */
  method RenameReportsOnce(t: DeckTile, draft: string)
    modifies t
    ensures t.calls == old(t.calls) + (if Text.Trim(draft) != old(t.name) then [Update(t.id, Text.Trim(draft))] else [])
    ensures t.name == Text.Trim(draft) && t.deckName == Text.Trim(draft) && !t.isEditingTitle
  {
    t.HandleTitleClick();
    t.HandleTitleChange(draft);
    t.HandleTitleBlur();
    t.ReceiveName(Text.Trim(draft));
    t.HandleTitleBlur();
    t.HandleTitleKeyDown("Escape");
  }
}
