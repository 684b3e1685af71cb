# jott — a verified model of the note, deck and recording components

jott is a single-page note-taking app. Cards carry a title, content, an audio recording and its
transcription and elaboration; decks group cards. This project models the app's components as
Dafny modules, one per source file, and proves properties of them:

- `HomePage` covers the home page's card and deck lists. It models the default-name probing
  ("New Card", "New Card 1", ...), linking a card to a deck, edits, deletions and the search
  filter. The page state is a `Store` class whose methods replace its lists the way the React
  state setters do.
- `DeckManager` covers the drag-and-drop board. `onDragEnd` reorders within a deck, moves a card
  between decks, or spawns a new deck. It is proved to keep the board's cards: each card is on the board as many times after a drop as before.
- `AudioRecorder` covers the stand-alone recorder: start, pause, resume and stop, the
  one-second timer, the chunk buffer, and the transcription and elaboration texts. The
  microphone request is a step of its own, so a second Start click while it is pending can be
  expressed: it is proved to leave an interval running that Stop never clears.
- `TranscriptionEditor` covers the editor that remembers the original transcription so that an
  elaboration can be undone.
- `CardComponent` and `DeckComponent` cover one card and one deck tile: the title editing, the
  recording controls, the service requests and the drag hover. Every call a component makes to
  its parent is recorded in order in a log field.
- `DeckPage` covers the page of one deck. The cards it shows are proved to stay the stored cards
  the deck lists, through edits and deletions.

`Text` holds the string helpers the components use: number rendering, the `m:ss` clock,
`trim`, ASCII lower-casing, `includes`, and the rule for committing an edited title. `Seqs` holds
the array operations: `filter`, `findIndex` and `splice`. `Notes` holds the stored card and
deck records and the `{ ...card, ...update }` overlay.

Awaited calls to the speech and language services are split in two, in the recorder, the
card and the transcription editor alike, and so is the recorder's microphone request. The
handler issues the request (returning it, or logging it as a call to the parent). A second
method receives the outcome as a `Reply` (`Success(value)` or `Failure`). The card's
microphone request is one step, `HandleRecordingStart`: the card has no guard on it and
changes nothing until the request settles, so the settling is the whole effect. The microphone permission, `window.confirm`, `uuidv4()`, the clock and object URLs
are passed in as parameters.

## Model

| member | source | states |
|---|---|---|
| Text.NatToString | src/components/DeckManager.js:15 | the decimal rendering of a number is a non-empty string of digits, one digit exactly for numbers below ten, with a leading `0` only for zero itself |
| Text.ParseNatToString | src/components/DeckManager.js:15 | reading a rendered number back gives the number again |
| Text.NatToStringInjective | src/components/DeckManager.js:72 | distinct clock values give distinct `card-`/`deck-` ids and distinct probe suffixes |
| Text.Pad2 | src/components/AudioRecorder.js:151 | `padStart(2, '0')` of a seconds value below 100 has two digits and reads back as the value |
| Text.FormatTime | src/components/AudioRecorder.js:147-152 | the clock is digits, a colon three from the end, and a seconds field below 60; a minutes field of more than one digit has no leading zero |
| Text.FormatTimeRoundTrip | src/components/Card.js:328-332 | the shown `m:ss` reads back as exactly the seconds counted |
| Text.SkipWhite | src/components/Deck.js:20 | the first non-white position from `i` on, with only white space skipped |
| Text.SkipWhiteBack | src/components/Deck.js:20 | the end of a slice once trailing white space is dropped, with only white space dropped |
| Text.Trim | src/components/Deck.js:20 | `trim()` is a slice of the input, with only white space cut off at either end and no white space left at either end |
| Text.TrimIdempotent | src/components/Card.js:182-183 | trimming a trimmed title changes nothing |
| Text.ToLower | src/components/HomePage.js:127 | lower-casing keeps the length, leaves no capital letter, keeps every other character and turns each of A-Z into its small letter |
| Text.ToLowerFixesLower | src/components/HomePage.js:127 | a string without capitals is its own lower case |
| Text.ToLowerIdempotent | src/components/HomePage.js:127 | lower-casing twice is lower-casing once |
| Text.ContainsEmpty | src/components/HomePage.js:126-129 | every string includes the empty search term |
| Text.CommitTitle | src/components/Deck.js:18-23 | a title edit is reported exactly when the trimmed draft differs from the current name, and then as the trimmed draft |
| Text.CommitTitleStable | src/components/Card.js:180-185 | after a title is committed, a later blur whose draft trims to the same text (such as the untrimmed draft the editor keeps) reports nothing |
| Seqs.Filter | src/components/HomePage.js:17 | `filter` keeps exactly the passing elements, in order, and keeps the length exactly when all pass |
| Seqs.FilterMultiplicity | src/components/HomePage.js:17 | `filter` keeps every copy of a passing element and no copy of a failing one |
| Seqs.FilterAll | src/components/HomePage.js:126-129 | a filter every element passes returns the list unchanged |
| Seqs.FilterAppend | src/components/AudioRecorder.js:85-89 | filtering a list with one element appended filters the prefix and then keeps or drops that element |
| Seqs.FindIndex | src/components/DeckManager.js:64 | `findIndex` returns the first matching position, or -1 exactly when nothing matches |
| Seqs.RemoveAt | src/components/DeckManager.js:56 | `splice(i, 1)` shortens by one and shifts the elements after `i` down |
| Seqs.InsertAt | src/components/DeckManager.js:57 | `splice(i, 0, x)` puts `x` at `i`, clamped to the end, with the rest shifted up |
| Seqs.Clamp | src/components/DeckManager.js:90 | a splice position up to the length is kept and one past the end means the end |
| Seqs.RemoveAtMultiset | src/components/DeckManager.js:69 | the removed element plus what remains are the original elements |
| Seqs.InsertAtMultiset | src/components/DeckManager.js:90 | inserting adds exactly one element |
| Seqs.MoveIsPermutation | src/components/DeckManager.js:55-57 | a reorder is a permutation that puts the dragged card at the drop position and leaves the other cards in their old relative order |
| Seqs.RemoveInserted | src/components/DeckManager.js:89-90 | removing what was just inserted, at the position the splice put it, gives back the list for every insertion index |
| Seqs.InsertRemoved | src/components/DeckManager.js:87-88 | putting back what was just removed gives back the list |
| Seqs.MoveBack | src/components/DeckManager.js:53-65 | dragging a card back to where it came from restores the deck |
| Notes.Overlay | src/components/DeckPage.js:27 | the spread takes each field from the update when present and from the card otherwise; id, content, dates and links are kept |
| Notes.OverlayIdempotent | src/components/DeckPage.js:27 | applying the same update twice is applying it once |
| Notes.OverlayEmpty | src/components/DeckPage.js:27 | an update with no fields leaves the card as it was |
| Notes.RemoveCard | src/components/DeckPage.js:39 | deleting removes every card with that id and keeps the others in order, each as many times as before |
| HomePage.Candidate | src/components/HomePage.js:54-60 | probe 0 is the base name; every later probe is strictly longer and starts with the base name |
| HomePage.Candidates | src/components/HomePage.js:57-60 | the first `n` names the probe tries, in order and all different |
| HomePage.CandidateInjective | src/components/HomePage.js:58-59 | different probes try different names |
| HomePage.CandidateSetSize | src/components/HomePage.js:57-60 | the first `n` probes are `n` different names |
| HomePage.ProbeBound | src/components/HomePage.js:57-60 | the probe loop stops within as many steps as there are names |
| HomePage.UniqueName | src/components/HomePage.js:53-63 | the probing loop returns the first free candidate, which no existing name carries, within as many steps as there are names |
| HomePage.NextDefaultName | src/components/HomePage.js:87-97 | when the first `n` probes are taken, probe `n` is the next default name |
| HomePage.LeastFreeUnique | src/components/HomePage.js:53-63 | the name chosen is determined by the names present |
| HomePage.RemoveDeck | src/components/HomePage.js:143 | deleting a deck removes every deck with that id and keeps the others in order, each as many times as before |
| HomePage.AppendCardId | src/components/HomePage.js:37-43 | the card id is appended to `cardIds` of exactly the decks with that id |
| HomePage.AppendDeckId | src/components/HomePage.js:44-50 | the deck id is appended to `deckIds` of exactly the cards with that id |
| HomePage.SetContent | src/components/HomePage.js:99-105 | new content and `updatedAt` on exactly the cards with that id |
| HomePage.SetName | src/components/HomePage.js:107-113 | new name and `updatedAt` on exactly the decks with that id |
| HomePage.ClearDeckId | src/components/HomePage.js:144-146 | `deckId` is set to null on exactly the cards that named the deleted deck |
| HomePage.FilteredCards | src/components/HomePage.js:126-129 | the shown cards are exactly the cards whose lower-cased title or content includes the lower-cased term, in order, each as many times as in the list |
| HomePage.FilteredDecks | src/components/HomePage.js:131-140 | the shown decks are exactly those whose name matches or that list a matching card, in order, each as many times as in the list |
| HomePage.SearchIgnoresTermCase | src/components/HomePage.js:126-140 | the search ignores the case of the term: its lower-case form shows the same cards and the same decks |
| HomePage.EmptySearchKeepsCards | src/components/HomePage.js:13 | with the initial empty search every card is shown |
| HomePage.EmptySearchKeepsDecks | src/components/HomePage.js:13 | with the initial empty search every deck is shown |
| HomePage.UnfiledCards | src/components/HomePage.js:161 | the Cards section shows exactly the filtered cards whose `deckId` is falsy, in order, each as many times as in the filtered list |
| HomePage.CardsShownInDeck | src/components/HomePage.js:182 | a deck tile gets exactly the cards whose `deckId` is its id, in order, each as many times as in the list |
| HomePage.AppendDeckIdCommutesWithTiles | src/components/HomePage.js:44-50 | selecting a deck tile's cards and linking a card can be done in either order with the same result |
| HomePage.AddCardToDeckKeepsDeckTiles | src/components/HomePage.js:35-51 | linking writes `deckIds` while tiles select on `deckId`, so linking never changes what a deck tile shows |
| HomePage.AddCardToDeckKeepsConsistent | src/components/HomePage.js:35-51 | linking writes both sides, so a card lists a deck exactly when the deck lists the card |
| HomePage.DeleteCardKeepsConsistent | src/components/HomePage.js:16-18 | deleting a card keeps the card/deck links symmetric between the cards and decks still present; the deleted id stays behind in the decks' `cardIds` |
| HomePage.DeleteDeckKeepsConsistent | src/components/HomePage.js:142-147 | deleting a deck keeps the card/deck links symmetric between the cards and decks still present; the deleted id stays behind in the cards' `deckIds` |
| HomePage.CreateCardKeepsConsistent | src/components/HomePage.js:65-74 | a new card with an unused id keeps the links symmetric |
| HomePage.CreateDeckKeepsConsistent | src/components/HomePage.js:76-85 | a new deck with an unused id keeps the links symmetric |
| HomePage.EditsKeepConsistent | src/components/HomePage.js:99-113 | content and name edits keep the links symmetric |
| HomePage.Store.constructor | src/components/HomePage.js:20-26 | the page starts with the stored lists and an empty search |
| HomePage.Store.OnDelete | src/components/HomePage.js:16-18 | only the card list changes, by removing the card |
| HomePage.Store.AddCardToDeck | src/components/HomePage.js:35-51 | both lists get the link, and nothing else changes |
| HomePage.Store.CreateNewCard | src/components/HomePage.js:65-74 | exactly one card is appended, titled with the least free probe of "New Card" |
| HomePage.Store.CreateNewDeck | src/components/HomePage.js:76-85 | exactly one deck is appended, named with the least free probe of "New Deck" |
| HomePage.Store.UpdateCardContent | src/components/HomePage.js:99-105 | only the card list changes, by the content edit |
| HomePage.Store.UpdateDeckName | src/components/HomePage.js:107-113 | only the deck list changes, by the rename |
| HomePage.Store.HandleDeleteDeck | src/components/HomePage.js:142-147 | the deck is removed and the cards naming it are unfiled |
| HomePage.Store.SetSearchTerm | src/components/HomePage.js:115-124 | the settled search term replaces the old one, and the lists are untouched |
| HomePage.CreateCardsOnEmptyPage | src/components/HomePage.js:65-74 | `n` cards created on an empty page are titled "New Card", "New Card 1", ..., all different |
| DeckManager.DeckIndex | src/components/DeckManager.js:48 | the first deck with the id, or -1 exactly when there is none |
| DeckManager.AllNotesUpdate | src/components/DeckManager.js:65 | replacing one deck changes the board's cards by exactly that deck's difference |
| DeckManager.AllNotesAppend | src/components/DeckManager.js:84 | appending a deck appends its cards to the board's cards |
| DeckManager.Reorder | src/components/DeckManager.js:53-65 | only the source deck changes; its cards are permuted with the dragged card at the drop position and the other cards in their old relative order |
| DeckManager.ReorderKeepsNotes | src/components/DeckManager.js:53-65 | a reorder keeps every card on the board, as many times as before |
| DeckManager.MoveBetween | src/components/DeckManager.js:85-107 | the card leaves the source deck and sits at the drop position of the destination, whose other cards keep their order; other decks and names are unchanged |
| DeckManager.MoveBetweenKeepsNotes | src/components/DeckManager.js:85-107 | a move between decks neither loses nor duplicates a card |
| DeckManager.MoveToNewDeck | src/components/DeckManager.js:66-84 | the card leaves its deck and a one-card "New Deck" is appended |
| DeckManager.MoveToNewDeckKeepsNotes | src/components/DeckManager.js:66-84 | spawning a deck moves the card rather than copying or losing it |
| DeckManager.AppendToFirst | src/components/DeckManager.js:21-29 | the new card goes at the end of the first deck and no other deck changes |
| DeckManager.RenameDecks | src/components/DeckManager.js:112-117 | the decks with that id get the new name and nothing else changes |
| DeckManager.ReorderExample | src/components/DeckManager.js:55-57 | dragging the last of three cards to the top rotates them |
| DeckManager.Board.constructor | src/components/DeckManager.js:8-11 | the board starts with the two empty decks "Deck 1" and "Deck 2" |
| DeckManager.Board.CreateNewCard | src/components/DeckManager.js:13-32 | a `card-<clock>` card is appended to the first deck |
| DeckManager.Board.OnDragEnd | src/components/DeckManager.js:34-110 | no destination or the same spot changes nothing; otherwise the board becomes the reorder, the spawned deck or the move between decks |
| DeckManager.Board.HandleRenameDeck | src/components/DeckManager.js:112-117 | the board becomes the renamed list |
| AudioRecorder.Recorder.ShownText | src/components/AudioRecorder.js:273 | the editor shows the elaboration when there is one, else the transcription |
| AudioRecorder.Recorder.constructor | src/components/AudioRecorder.js:8-21 | the recorder starts idle, empty and without error |
| AudioRecorder.Recorder.StartInterval | src/components/AudioRecorder.js:104-106 | `setInterval` puts a fresh interval live and the timer ref names it, forgetting the one it named before |
| AudioRecorder.Recorder.ClearInterval | src/components/AudioRecorder.js:120 | `clearInterval` of the ref cancels only the interval the ref names |
| AudioRecorder.Recorder.RequestMicrophone | src/components/AudioRecorder.js:73-75 | a Start click only waits for the microphone: the recorder stays not recording, so Start stays offered |
| AudioRecorder.Recorder.MicrophoneSettled | src/components/AudioRecorder.js:76-110 | a grant starts a fresh session (empty buffer, zero time, no error) and adds a new interval beside any still live; a refusal sets only the microphone error; from no session and no live interval it leaves exactly one running timer |
| AudioRecorder.Recorder.OnDataAvailable | src/components/AudioRecorder.js:85-89 | a chunk is buffered exactly when it holds data |
| AudioRecorder.Recorder.OnRecorderStop | src/components/AudioRecorder.js:91-97 | the recording's URL is set and loading starts |
| AudioRecorder.Recorder.OnAudioLoaded | src/components/AudioRecorder.js:33-36 | loading ends when the metadata arrives |
| AudioRecorder.Recorder.OnAudioError | src/components/AudioRecorder.js:51-55 | a load failure ends loading and shows the load error |
| AudioRecorder.Recorder.StopRecording | src/components/AudioRecorder.js:113-122 | a running session stops and the interval the ref names is cleared, so with one running timer none is left; otherwise nothing changes |
| AudioRecorder.Recorder.PauseRecording | src/components/AudioRecorder.js:124-136 | the button toggles between paused (the remembered interval cleared) and running (a new interval registered), and keeps a single running timer single |
| AudioRecorder.Recorder.Tick | src/components/AudioRecorder.js:104-106 | each firing of a live interval adds one second |
| AudioRecorder.Recorder.HandleTranscribe | src/components/AudioRecorder.js:154-157 | without a recording (no URL, or the empty one `!audioUrl` also rejects) nothing is sent; with one the recording is sent |
| AudioRecorder.Recorder.TranscriptionSettled | src/components/AudioRecorder.js:158-170 | a new transcript replaces the old and clears the elaboration; a failure sets the error only |
| AudioRecorder.Recorder.HandleElaborate | src/components/AudioRecorder.js:172-175 | the given text is what is sent |
| AudioRecorder.Recorder.ElaborationSettled | src/components/AudioRecorder.js:175-185 | the elaboration is stored and passed back, or the error set and the failure passed back |
| AudioRecorder.Recorder.HandleSaveEdits | src/components/AudioRecorder.js:187-190 | the edited text becomes the elaboration |
| AudioRecorder.Recorder.HandleRedoTranscription | src/components/AudioRecorder.js:192-195 | the elaboration is dropped, so the transcript is shown again |
| AudioRecorder.PausedTimeNotCounted | src/components/AudioRecorder.js:124-136 | time spent paused is not counted: `before` seconds, a pause and `after` seconds show `before + after`, and no interval is left after Stop |
| AudioRecorder.DoubleStartLeaksInterval | src/components/AudioRecorder.js:73-122 | two Start clicks before the microphone answers leave an interval Stop never clears: the recorder shows stopped while the clock still counts |
| AudioRecorder.BufferedChunks | src/components/AudioRecorder.js:83-89 | the buffer is the arrived chunks in order, the empty ones left out |
| TranscriptionEditor.Editor.constructor | src/components/TranscriptionEditor.js:5-11 | the editor shows and remembers the given text, not editing and not elaborated |
| TranscriptionEditor.Editor.SetInitialText | src/components/TranscriptionEditor.js:13-17 | a different text from the parent resets the shown and remembered text and the elaborated flag; the same text changes nothing |
| TranscriptionEditor.Editor.HandleEdit | src/components/TranscriptionEditor.js:19-21 | editing starts |
| TranscriptionEditor.Editor.HandleChange | src/components/TranscriptionEditor.js:87-92 | typing replaces the text while editing |
| TranscriptionEditor.Editor.HandleSave | src/components/TranscriptionEditor.js:23-27 | the current text goes to `onSave` and editing ends |
| TranscriptionEditor.Editor.HandleElaborate | src/components/TranscriptionEditor.js:29-32 | the shown text is sent and one more request is in flight; nothing else changes, so Elaborate and Edit Text stay offered |
| TranscriptionEditor.Editor.ElaborationSettled | src/components/TranscriptionEditor.js:32-38 | one reply arrives: a result replaces the text and marks it elaborated even while editing, a failure changes nothing; the remembered original is kept |
| TranscriptionEditor.Editor.HandleRedoTranscription | src/components/TranscriptionEditor.js:41-45 | the remembered text comes back, the flag clears, and the parent is told once |
| TranscriptionEditor.ElaborateThenRedo | src/components/TranscriptionEditor.js:29-45 | elaborating then redoing restores the remembered text whatever the elaboration was |
| TranscriptionEditor.RoundTripFromMount | src/components/TranscriptionEditor.js:5-45 | on a fresh editor, elaborate then redo gives back the initial text |
| TranscriptionEditor.ReplyDuringEditLosesDraft | src/components/TranscriptionEditor.js:23-38 | a reply that arrives after Edit Text replaces the typed draft, so Save sends the elaboration |
| TranscriptionEditor.DoubleElaborate | src/components/TranscriptionEditor.js:29-32 | two Elaborate clicks before a reply put two requests for the shown text in flight |
| TranscriptionEditor.ElaborateInsideRecorder | src/components/AudioRecorder.js:172-177 | inside the recorder a successful elaboration becomes the new initial text `elaboration || transcription`; when that differs from the old one the editor resets, forgets the original and withdraws the redo, and when it is the same the redo stays |
| CardComponent.DragItem.constructor | src/components/Card.js:16 | the drag item carries the card's id and position |
| CardComponent.CardView.constructor | src/components/Card.js:38-49 | the card starts idle, with the title prop as its draft |
| CardComponent.CardView.Hover | src/components/Card.js:24-35 | over another position the parent is asked to move the card there and the item takes that position; over its own position nothing happens |
| CardComponent.CardView.HandleRecordingStart | src/components/Card.js:88-103 | a granted microphone starts recording and clears the error; a refusal only sets the microphone error |
| CardComponent.CardView.HandleRecordingStop | src/components/Card.js:105-115 | the blob is kept and its URL reported as the card's `audioUrl` |
| CardComponent.CardView.HandleRecordingPause | src/components/Card.js:117-119 | the card is paused |
| CardComponent.CardView.HandleRecordingResume | src/components/Card.js:121-123 | the card is no longer paused |
| CardComponent.CardView.HandleTranscribe | src/components/Card.js:134-137 | without a blob nothing happens; with one the blob is sent |
| CardComponent.CardView.TranscriptionSettled | src/components/Card.js:138-147 | the text is reported as the transcription, or the error set; transcribing ends |
| CardComponent.CardView.HandleElaborate | src/components/Card.js:149-152 | a request is made exactly when the transcription prop is truthy, and carries it |
| CardComponent.CardView.ElaborationSettled | src/components/Card.js:153-162 | the result is reported as the elaboration, or the error set; elaborating ends |
| CardComponent.CardView.HandleTranscriptionUpdate | src/components/Card.js:164-166 | a saved transcription is reported |
| CardComponent.CardView.HandleElaborationUpdate | src/components/Card.js:168-170 | an edited elaboration is reported |
| CardComponent.CardView.HandleTitleClick | src/components/Card.js:172-174 | title editing starts |
| CardComponent.CardView.HandleTitleChange | src/components/Card.js:176-178 | the draft is the typed value |
| CardComponent.CardView.HandleTitleBlur | src/components/Card.js:180-185 | editing ends; the trimmed draft is reported exactly when it differs from the title |
| CardComponent.CardView.HandleTitleKeyDown | src/components/Card.js:187-194 | Enter commits as blur, Escape restores the title without reporting, other keys do nothing |
| CardComponent.CardView.HandleDelete | src/components/Card.js:202-206 | the parent deletes the card exactly when the user confirmed |
| CardComponent.HoverTwice | src/components/Card.js:24-35 | hovering twice over the same card asks for one move only |
| CardComponent.TranscribeBeforeRecording | src/components/Card.js:134-135 | a card with no recording sends no transcription request |
| DeckComponent.DeckTile.constructor | src/components/Deck.js:5-7 | the tile starts not editing, with the name prop as its draft |
| DeckComponent.DeckTile.HandleTitleClick | src/components/Deck.js:10-12 | title editing starts |
| DeckComponent.DeckTile.HandleTitleChange | src/components/Deck.js:14-16 | the draft is the typed value |
| DeckComponent.DeckTile.HandleTitleBlur | src/components/Deck.js:18-23 | editing ends; the trimmed draft is reported exactly when it differs from the name |
| DeckComponent.DeckTile.HandleTitleKeyDown | src/components/Deck.js:25-32 | Enter commits as blur, Escape restores the name without reporting, other keys do nothing |
| DeckComponent.DeckTile.HandleDelete | src/components/Deck.js:40-44 | the parent deletes the deck exactly when the user confirmed |
| DeckComponent.DeckTile.ReceiveName | src/components/Deck.js:5-7 | a re-render replaces the name prop and keeps the draft, the editing flag and the log |
| DeckComponent.RenameReportsOnce | src/components/HomePage.js:176-182 | after the page applies a reported rename, a second blur reports nothing and Escape restores the new name: one report per rename |
| DeckPage.UpdateMatching | src/components/DeckPage.js:25-29 | the update is laid over exactly the cards with that id, the others kept |
| DeckPage.UpdateMatchingIdempotent | src/components/DeckPage.js:24-36 | reporting the same update twice is reporting it once |
| DeckPage.DeckCards | src/components/DeckPage.js:19 | the page shows exactly the stored cards whose id the deck's `cardIds` lists, in stored order, each as many times as stored |
| DeckPage.UpdateCommutesWithDeckCards | src/components/DeckPage.js:24-36 | editing the stored list and then selecting equals selecting and then editing the selection |
| DeckPage.RemoveCommutesWithDeckCards | src/components/DeckPage.js:38-44 | deleting from the stored list and then selecting equals selecting and then deleting |
| DeckPage.Page.constructor | src/components/DeckPage.js:9-10 | the page starts with no deck and no cards |
| DeckPage.Page.Load | src/components/DeckPage.js:12-22 | the first stored deck with the route's id is shown with its listed cards; with none nothing changes |
| DeckPage.Page.HandleCardUpdate | src/components/DeckPage.js:24-36 | the edit reaches both lists, and the shown cards stay the deck's stored cards |
| DeckPage.Page.HandleCardDelete | src/components/DeckPage.js:38-44 | the card leaves both lists, and the shown cards stay the deck's stored cards |

## Left out

- `VolumeMeter.js`, `DraggableCard.js`, `DraggableDeck.js`, `Header.js`, `Footer.js` and `ElaborationDisplay.js` are not part of this model. They hold rendering and the forwarding of props; `ElaborationDisplay.js` reads only `elaboration` and `onRegenerate`, which matters for the card below.
- The speech and language service modules (`whisperAPI.js`, `claudeAPI.js`) are not part of this model. Their calls become requests and `Reply` outcomes.
- Media APIs are outside the model: `getUserMedia`, `MediaRecorder`, `AudioContext`, the analyser and playback (`togglePlayPause`, `handlePlayPause`, `currentTime`, `duration`). Microphone permission is a boolean parameter. Object URLs and blobs are parameters.
- Local storage and JSON are represented by the lists they hold. The home page's write-back effect is not modelled as a separate step, because it only copies the lists.
- `uuidv4()`, `Date.now()` and `new Date().toISOString()` are parameters.
- The 300 ms debounce of the search box is reduced to setting the term once it settles.
- Focusing the title input and the Loading screens are left out. They change no state the model tracks.
- `window.confirm` is a boolean parameter.
- Text.ToLower: lower-cases ASCII letters only. JavaScript's `toLowerCase` also folds other Unicode letters.
- Text.FormatTime: takes a whole, non-negative number of seconds. The floating-point flooring and the `'0:00'` result for non-finite input (AudioRecorder.js line 148) are not modelled.
- AudioRecorder.Recorder.RequestMicrophone: requires that Start is offered, that is not recording and not loading (AudioRecorder.js lines 204-205).
- A start granted while another session runs replaces `mediaRecorderRef`; the earlier media recorder keeps recording and its chunk and stop events are not modelled. Only its interval, which `DoubleStartLeaksInterval` follows, is.
- The unmount cleanup's `clearInterval` (AudioRecorder.js line 69) is not modelled; the model has no unmount.
- TranscriptionEditor: the Draft.js editor state is modelled by its plain text.
- A JavaScript record may lack a key. An absent `deckIds`, `cardIds` or `cards` array is identified with the empty list. An absent scalar is `None`.
- DeckManager.Board.OnDragEnd: requires the drag source to name an existing deck and card position (`ValidDrop`). With a missing source deck the source throws, because it dereferences `sourceDeck` without a check. With an existing deck but an index past its end, `splice(source.index, 1)` (DeckManager.js lines 56, 69 and 88) removes nothing and `undefined` is inserted or spawned as a card; the index half of `ValidDrop` rests on the drag library reporting only positions of rendered cards. `ValidDrop` also requires the destination to be the source deck, the new-deck target or an existing deck, because DeckManager.js line 89 dereferences `destDeck` without a check. Besides, the board renders `Deck` (DeckManager.js lines 128-133) and `Deck.js` renders no draggable card, so as written no card drag reaches `onDragEnd`; the model states what `onDragEnd` does with the drops it is written for.
- How parents bind their children's props is not modelled: each component's handlers are modelled from the component's own code, as the calls it makes. Several bindings do not match what the child reads or calls, so the members below model code that the program as written never invokes, or invokes with other arguments:
- DeckPage.Page.HandleCardUpdate: models `handleCardUpdate(cardId, updateData)`. DeckPage.js line 68 binds the card's `onUpdate` as a one-argument function, while Card.js line 58 calls `onUpdate(id, updateData)`, so the page receives the card's id as the update object.
- DeckManager.Board.HandleRenameDeck: models `handleRenameDeck`. DeckManager.js line 132 passes it as `onRename`, while Deck.js line 21 calls `onUpdate`, so no rename reaches the board. The board passes its tiles no `onDelete` either (DeckManager.js lines 128-133).
- TranscriptionEditor.ElaborateThenRedo: holds for the editor on its own. Inside the recorder (AudioRecorder.js line 273) a successful elaboration changes the initial text, and the reset effect (TranscriptionEditor.js lines 13-17) forgets the original; `ElaborateInsideRecorder` states what the composed recorder does. The card's editor (Card.js lines 297-300) gets no `onElaborate` at all.
- HomePage.Store.UpdateCardContent: models `updateCardContent(id, content)`. The home page passes it as the card's `onUpdate` (HomePage.js line 166), so the card's partial update object (Card.js line 58) arrives as `content`.
- HomePage.Store.AddCardToDeck: models `addCardToDeck`. HomePage.js line 168 passes it to `Card`, which does not read that prop (Card.js line 13), so nothing calls it.
- CardComponent.CardView.HandleRecordingStart: models the card's own handler. Card.js lines 256-263 pass it to `AudioRecorder` as `onStart`, but `AudioRecorder` takes no props (AudioRecorder.js line 8), so it never runs.
- CardComponent.CardView.HandleRecordingStop: models the card's own handler; passed as `onStop` to the prop-less `AudioRecorder` (Card.js lines 256-263), it never runs, so the card's `audioBlob` is never set.
- CardComponent.CardView.HandleRecordingPause: passed as `onPause` to the prop-less `AudioRecorder`; it never runs.
- CardComponent.CardView.HandleRecordingResume: passed as `onResume` to the prop-less `AudioRecorder`; it never runs.
- CardComponent.CardView.HandleTranscribe: the Transcribe button shows only when `audioBlob` is set (Card.js line 285), which never happens, so it is never pressed. `CardComponent.TranscribeBeforeRecording` states the one case the program reaches.
- CardComponent.CardView.TranscriptionSettled: follows `HandleTranscribe` and is never reached for the same reason.
- CardComponent.CardView.HandleElaborationUpdate: passed as `onUpdate` to `ElaborationDisplay` (Card.js lines 314-317), which reads only `elaboration` and `onRegenerate`, so it never runs.
- CardComponent.CardView.Hover: no parent passes `index` or `moveCard` (HomePage.js lines 162-169, DeckPage.js lines 65-70, DraggableCard.js line 40), so both indices are `undefined`, they compare equal (Card.js lines 28-30) and the hover always returns early. The model states the hover for a parent that passes them; `CardComponent.HoverTwice` likewise.
- The `!drag` guard in `Card.js`'s hover is always false, because `drag` is a function. It is modelled as absent.
