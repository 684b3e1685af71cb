/** One note card (`Card.js`): its editable title, its recording controls, the
    transcription and elaboration requests it makes, and its drag-and-drop reordering.
    Everything the card tells its parent goes through `onUpdate(id, data)`, `onDelete(id)`
    and `moveCard(from, to)`; those calls are recorded in order in `sent`. The speech and
    language services are not called: a request is returned to the caller, and its outcome
    comes back as a `Reply`. */
module CardComponent {
  import opened Wrappers
  import Notes
  import Text
  import AudioRecorder

  /** A recorded audio blob, as bytes. A blob object is always truthy. */
  type Blob = seq<bv8>

  datatype ParentCall =
    | Update(id: Notes.Id, data: Notes.CardUpdate)
    | Delete(id: Notes.Id)
    | MoveCard(dragIndex: nat, hoverIndex: nat)

  function TitleUpdate(t: string): Notes.CardUpdate { Notes.CardUpdate(Some(t), None, None, None) }
  function AudioUrlUpdate(u: string): Notes.CardUpdate { Notes.CardUpdate(None, Some(u), None, None) }
  function TranscriptionUpdate(t: string): Notes.CardUpdate { Notes.CardUpdate(None, None, Some(t), None) }
  function ElaborationUpdate(t: string): Notes.CardUpdate { Notes.CardUpdate(None, None, None, Some(t)) }

  /** JavaScript truthiness of an optional string prop: absent and empty are falsy. */
  predicate Truthy(s: Option<string>)
  {
    s.Some? && s.value != ""
  }

  /** The item a drag carries; the card rewrites its index while hovering. */
  class DragItem {
    const id: Notes.Id
    var index: nat

    constructor (id: Notes.Id, index: nat)
      ensures this.id == id && this.index == index
    {
      this.id := id;
      this.index := index;
    }
  }

  class CardView {
    const id: Notes.Id
    const index: nat
    const title: string                 // the title prop
    const transcription: Option<string> // the transcription prop
    var isRecording: bool
    var isPaused: bool
    var audioBlob: Option<Blob>
    var isTranscribing: bool
    var isElaborating: bool
    var error: Option<string>
    var isEditingTitle: bool
    var cardTitle: string               // the draft in the title field
    var sent: seq<ParentCall>

    constructor (id: Notes.Id, index: nat, title: string, transcription: Option<string>)
      ensures this.id == id && this.index == index && this.title == title
      ensures this.transcription == transcription
      ensures !isRecording && !isPaused && audioBlob == None && !isTranscribing && !isElaborating
      ensures error == None && !isEditingTitle && cardTitle == title && sent == []
    {
      this.id := id;
      this.index := index;
      this.title := title;
      this.transcription := transcription;
      isRecording := false;
      isPaused := false;
      audioBlob := None;
      isTranscribing := false;
      isElaborating := false;
      error := None;
      isEditingTitle := false;
      cardTitle := title;
      sent := [];
    }

    /** The drop target's `hover`: a dragged card over another position asks the parent to
        move it there and from then on carries that position; over its own position
        nothing happens. */
    method Hover(item: DragItem)
      modifies this`sent, item`index
      ensures old(item.index) == index ==> sent == old(sent) && item.index == old(item.index)
      ensures old(item.index) != index ==> sent == old(sent) + [MoveCard(old(item.index), index)] && item.index == index
    {
      if item.index == index {
        return;
      }
      sent := sent + [MoveCard(item.index, index)];
      item.index := index;
    }

    /** `handleRecordingStart`: with the microphone granted the card records and the error
        clears; otherwise it shows the microphone error and nothing else changes. */
    method HandleRecordingStart(micGranted: bool)
      modifies this`isRecording, this`isPaused, this`error
      ensures micGranted ==> isRecording && !isPaused && error == None
      ensures !micGranted ==> isRecording == old(isRecording) && isPaused == old(isPaused)
                              && error == Some(AudioRecorder.MicrophoneError)
    {
      if micGranted {
        isRecording := true;
        isPaused := false;
        error := None;
      } else {
        error := Some(AudioRecorder.MicrophoneError);
      }
    }

    /** `handleRecordingStop`: the blob is kept and its object URL is reported as the card's
        `audioUrl`. */
    method HandleRecordingStop(blob: Blob, url: string)
      modifies this`isRecording, this`isPaused, this`audioBlob, this`sent
      ensures !isRecording && !isPaused && audioBlob == Some(blob)
      ensures sent == old(sent) + [Update(id, AudioUrlUpdate(url))]
    {
      isRecording := false;
      isPaused := false;
      audioBlob := Some(blob);
      sent := sent + [Update(id, AudioUrlUpdate(url))];
    }

    method HandleRecordingPause()
      modifies this`isPaused
      ensures isPaused
    {
      isPaused := true;
    }

    method HandleRecordingResume()
      modifies this`isPaused
      ensures !isPaused
    {
      isPaused := false;
    }

    /** The first half of `handleTranscribe`: without a blob nothing happens; with one the
        card is transcribing and the blob is what goes to the speech service. */
    method HandleTranscribe() returns (request: Option<Blob>)
      modifies this`isTranscribing
      ensures request == audioBlob
      ensures audioBlob.None? ==> isTranscribing == old(isTranscribing)
      ensures audioBlob.Some? ==> isTranscribing
    {
      if audioBlob.None? {
        return None;
      }
      isTranscribing := true;
      request := audioBlob;
    }

    /** The second half: the text is reported as the card's transcription, a failure shows
        the transcription error; either way the card stops transcribing. */
    method TranscriptionSettled(reply: Reply<string>)
      modifies this`isTranscribing, this`sent, this`error
      ensures !isTranscribing
      ensures reply.Success? ==> sent == old(sent) + [Update(id, TranscriptionUpdate(reply.value))] && error == old(error)
      ensures reply.Failure? ==> sent == old(sent) && error == Some(AudioRecorder.TranscriptionError)
    {
      if reply.Success? {
        sent := sent + [Update(id, TranscriptionUpdate(reply.value))];
      } else {
        error := Some(AudioRecorder.TranscriptionError);
      }
      isTranscribing := false;
    }

    /** The first half of `handleElaborate`: only a truthy transcription is sent to the
        language service. */
    method HandleElaborate() returns (request: Option<string>)
      modifies this`isElaborating
      ensures Truthy(transcription) <==> request.Some?
      ensures request.Some? ==> request == transcription && isElaborating
      ensures request.None? ==> isElaborating == old(isElaborating)
    {
      if !Truthy(transcription) {
        return None;
      }
      isElaborating := true;
      request := transcription;
    }

    /** The second half: the result is reported as the card's elaboration, a failure shows the
        elaboration error; either way the card stops elaborating. */
    method ElaborationSettled(reply: Reply<string>)
      modifies this`isElaborating, this`sent, this`error
      ensures !isElaborating
      ensures reply.Success? ==> sent == old(sent) + [Update(id, ElaborationUpdate(reply.value))] && error == old(error)
      ensures reply.Failure? ==> sent == old(sent) && error == Some(AudioRecorder.ElaborationError)
    {
      if reply.Success? {
        sent := sent + [Update(id, ElaborationUpdate(reply.value))];
      } else {
        error := Some(AudioRecorder.ElaborationError);
      }
      isElaborating := false;
    }

    /** `handleTranscriptionUpdate`, the editor's `onSave`. */
    method HandleTranscriptionUpdate(t: string)
      modifies this`sent
      ensures sent == old(sent) + [Update(id, TranscriptionUpdate(t))]
    {
      sent := sent + [Update(id, TranscriptionUpdate(t))];
    }

    /** `handleElaborationUpdate`, the elaboration display's `onUpdate`. */
    method HandleElaborationUpdate(t: string)
      modifies this`sent
      ensures sent == old(sent) + [Update(id, ElaborationUpdate(t))]
    {
      sent := sent + [Update(id, ElaborationUpdate(t))];
    }

    method HandleTitleClick()
      modifies this`isEditingTitle
      ensures isEditingTitle
    {
      isEditingTitle := true;
    }

    method HandleTitleChange(value: string)
      modifies this`cardTitle
      ensures cardTitle == value
    {
      cardTitle := value;
    }

    /** `handleTitleBlur`: editing ends; the trimmed draft is reported as the title exactly
        when it differs from the title prop. The draft itself is left untrimmed. */
    method HandleTitleBlur()
      modifies this`isEditingTitle, this`sent
      ensures !isEditingTitle
      ensures Text.Trim(cardTitle) != title ==> sent == old(sent) + [Update(id, TitleUpdate(Text.Trim(cardTitle)))]
      ensures Text.Trim(cardTitle) == title ==> sent == old(sent)
    {
      isEditingTitle := false;
      var committed := Text.CommitTitle(cardTitle, title);
      if committed.Some? {
        sent := sent + [Update(id, TitleUpdate(committed.value))];
      }
    }

    /** `handleTitleKeyDown`: Enter acts as blur, Escape leaves editing and restores the
        title without reporting, any other key does nothing. */
    method HandleTitleKeyDown(key: string)
      modifies this`isEditingTitle, this`sent, this`cardTitle
      ensures key == "Enter" ==>
        (!isEditingTitle && cardTitle == old(cardTitle) &&
         sent == old(sent) + (if Text.Trim(cardTitle) != title then [Update(id, TitleUpdate(Text.Trim(cardTitle)))] else []))
      ensures key == "Escape" ==> !isEditingTitle && cardTitle == title && sent == old(sent)
      ensures key != "Enter" && key != "Escape" ==>
        (isEditingTitle == old(isEditingTitle) && cardTitle == old(cardTitle) && sent == old(sent))
    {
      if key == "Enter" {
        HandleTitleBlur();
      } else if key == "Escape" {
        isEditingTitle := false;
        cardTitle := title;
      }
    }

    /** `handleDelete`: `onDelete(id)` once the user confirmed. */
    method HandleDelete(confirmed: bool)
      modifies this`sent
      ensures sent == old(sent) + (if confirmed then [Delete(id)] else [])
    {
      if confirmed {
        sent := sent + [Delete(id)];
      }
    }
  }

  /** Hovering twice over the same card asks the parent for one move only: after the first
      hover the item already carries that card's position. */
  method HoverTwice(card: CardView, item: DragItem)
    requires item.index != card.index
    modifies card`sent, item`index
    ensures card.sent == old(card.sent) + [MoveCard(old(item.index), card.index)]
    ensures item.index == card.index
  {
    card.Hover(item);
    card.Hover(item);
  }

  /** A card that has recorded nothing cannot start a transcription: the request is empty
      and the card does not show itself transcribing. */
  method TranscribeBeforeRecording(id: Notes.Id, title: string) returns (request: Option<Blob>, transcribing: bool)
    ensures request == None && !transcribing
  {
    var card := new CardView(id, 0, title, None);
    request := card.HandleTranscribe();
    transcribing := card.isTranscribing;
  }
}
