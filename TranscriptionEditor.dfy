/** The text editor under a transcription (`TranscriptionEditor.js`): it shows one text,
    remembers the text it was given so that an elaboration can be undone, and reports to its
    parent through `onSave`, `onElaborate` and `onRedoTranscription`. The editor state is
    modelled by its plain text. */
module TranscriptionEditor {
  import opened Wrappers

  /** A call the editor makes to its parent. */
  datatype ParentCall = Save(text: string) | Elaborate(text: string) | RedoTranscription

  class Editor {
    var initialText: string           // the prop the reset effect watches
    var text: string                  // the editor's plain text
    var isEditing: bool
    var isElaborated: bool
    var originalTranscription: string
    var calls: seq<ParentCall>        // the parent callbacks made so far, in order
    var inFlight: nat                 // `onElaborate` requests whose reply has not arrived

    /** Mounting: the text, and the remembered original, are the given text. */
    constructor (initial: string)
      ensures initialText == initial && text == initial && originalTranscription == initial
      ensures !isEditing && !isElaborated && calls == [] && inFlight == 0
    {
      initialText := initial;
      text := initial;
      originalTranscription := initial;
      isEditing := false;
      isElaborated := false;
      calls := [];
      inFlight := 0;
    }

    /** The effect on `initialText`: a different text from the parent replaces what is shown
        and what is remembered, and the text counts as not elaborated. */
    method SetInitialText(t: string)
      modifies this`initialText, this`text, this`originalTranscription, this`isElaborated
      ensures initialText == t
      ensures t != old(initialText) ==> text == t && originalTranscription == t && !isElaborated
      ensures t == old(initialText) ==> text == old(text) && originalTranscription == old(originalTranscription)
                                        && isElaborated == old(isElaborated)
    {
      if t != initialText {
        initialText := t;
        text := t;
        originalTranscription := t;
        isElaborated := false;
      }
    }

    /** `handleEdit`, behind the "Edit Text" button. */
    method HandleEdit()
      requires !isEditing
      modifies this`isEditing
      ensures isEditing
    {
      isEditing := true;
    }

    /** Typing in the editor, which is writable only while editing. */
    method HandleChange(t: string)
      requires isEditing
      modifies this`text
      ensures text == t
    {
      text := t;
    }

    /** `handleSave`, behind the "Save Edits" button: the current text goes to `onSave` and
        editing ends. */
    method HandleSave()
      requires isEditing
      modifies this`calls, this`isEditing
      ensures calls == old(calls) + [Save(text)] && !isEditing
    {
      calls := calls + [Save(text)];
      isEditing := false;
    }

    /** `handleElaborate` up to its `await`, offered while not editing: the text shown goes
        to `onElaborate`. Nothing else changes while the reply is awaited, so Elaborate can be
        clicked again and Edit Text stays offered. */
    method HandleElaborate()
      requires !isEditing
      modifies this`calls, this`inFlight
      ensures calls == old(calls) + [Elaborate(text)]
      ensures inFlight == old(inFlight) + 1
    {
      calls := calls + [Elaborate(text)];
      inFlight := inFlight + 1;
    }

    /** The rest of `handleElaborate`, when one awaited reply arrives: a result replaces the
        text and marks it elaborated, whether or not the user is editing meanwhile; a failure
        changes nothing. The remembered original is left as it was. */
    method ElaborationSettled(reply: Reply<string>)
      requires inFlight > 0
      modifies this`text, this`isElaborated, this`inFlight
      ensures inFlight == old(inFlight) - 1
      ensures reply.Success? ==> text == reply.value && isElaborated
      ensures reply.Failure? ==> text == old(text) && isElaborated == old(isElaborated)
    {
      inFlight := inFlight - 1;
      if reply.Success? {
        text := reply.value;
        isElaborated := true;
      }
    }

    /** `handleRedoTranscription`, offered on an elaborated text while not editing: the
        original text comes back and `onRedoTranscription` is called once. */
    method HandleRedoTranscription()
      requires isElaborated && !isEditing
      modifies this`text, this`isElaborated, this`calls
      ensures text == originalTranscription && !isElaborated
      ensures calls == old(calls) + [RedoTranscription]
    {
      text := originalTranscription;
      isElaborated := false;
      calls := calls + [RedoTranscription];
    }
  }

  /** Elaborating and then redoing gives back exactly the remembered text, and the parent
      hears of one elaboration request and one redo. */
  method ElaborateThenRedo(e: Editor, elaborated: string)
    requires !e.isEditing
    modifies e
    ensures e.text == old(e.originalTranscription) && !e.isElaborated && !e.isEditing
    ensures e.calls == old(e.calls) + [Elaborate(old(e.text)), RedoTranscription]
    ensures e.inFlight == old(e.inFlight)
  {
    e.HandleElaborate();
    e.ElaborationSettled(Success(elaborated));
    e.HandleRedoTranscription();
  }

  /** On a freshly mounted editor the round trip restores the text it was given, whatever the
      elaboration was. */
  method RoundTripFromMount(initial: string, elaborated: string) returns (shown: string, elaboratedFlag: bool)
    ensures shown == initial && !elaboratedFlag
  {
    var e := new Editor(initial);
    ElaborateThenRedo(e, elaborated);
    shown, elaboratedFlag := e.text, e.isElaborated;
  }

  /** Inside the recorder, a successful elaboration also becomes the recorder's
      `elaboration`, and the recorder passes `elaboration || transcription` back as the new
      initial text. When that text differs from the one the editor was given, the reset that
      follows forgets the elaboration: the editor remembers the new text as its original and
      no longer offers a redo. When it is the same, nothing resets and the redo stays.
      The order of steps assumes that the editor's own updates after the `await` (its text
      and `isElaborated`) land in the same render as the recorder's `setElaboration`, before
      the `[initialText]` effect runs, as React does when it batches updates made after an
      `await`. The React version and how the app is mounted are not part of this model. */
  method ElaborateInsideRecorder(e: Editor, elaborated: string, transcription: string) returns (canRedo: bool)
    requires !e.isEditing
    modifies e
    ensures var shown := if elaborated != "" then elaborated else transcription;
      && (shown != old(e.initialText) ==>
            !canRedo && e.text == shown && e.originalTranscription == shown)
      && (shown == old(e.initialText) ==>
            canRedo && e.text == elaborated && e.originalTranscription == old(e.originalTranscription))
    ensures e.calls == old(e.calls) + [Elaborate(old(e.text))]
    ensures e.inFlight == old(e.inFlight)
  {
    e.HandleElaborate();
    e.ElaborationSettled(Success(elaborated));
    e.SetInitialText(if elaborated != "" then elaborated else transcription);
    canRedo := e.isElaborated;
  }

  /** Elaborate, then Edit Text and type before the reply arrives: the reply replaces the
      typed draft, editing goes on, and Save sends the elaboration, so the draft is lost. */
  method ReplyDuringEditLosesDraft(initial: string, typed: string, elaborated: string)
    returns (saved: seq<ParentCall>, elaboratedFlag: bool)
    ensures saved == [Elaborate(initial), Save(elaborated)]
    ensures elaboratedFlag
  {
    var e := new Editor(initial);
    e.HandleElaborate();
    e.HandleEdit();
    e.HandleChange(typed);
    e.ElaborationSettled(Success(elaborated));
    e.HandleSave();
    saved, elaboratedFlag := e.calls, e.isElaborated;
  }

  /** Two Elaborate clicks before a reply put two requests in flight, both on the text shown. */
  method DoubleElaborate(initial: string) returns (sent: seq<ParentCall>, pending: nat)
    ensures sent == [Elaborate(initial), Elaborate(initial)]
    ensures pending == 2
  {
    var e := new Editor(initial);
    e.HandleElaborate();
    e.HandleElaborate();
    sent, pending := e.calls, e.inFlight;
  }
}
