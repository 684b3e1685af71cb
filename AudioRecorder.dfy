/** The stand-alone recorder (`AudioRecorder.js`): a recording session with pause/resume and
    a once-a-second timer, the buffer of recorded chunks, and the transcription and
    elaboration texts fed by the two collaborators. Each awaited collaborator call, the
    microphone request included, is split into the handler that issues it and the event that
    delivers its outcome. The timer is kept as the browser keeps it: a set of live intervals
    and the one handle `recordingTimerRef` remembers. */
module AudioRecorder {
  import opened Wrappers
  import Seqs

  /** A piece of recorded audio delivered by `ondataavailable`; its size is its length. */
  type Chunk = seq<bv8>

  const MicrophoneError := "Failed to access microphone. Please check your permissions and try again."
  const TranscriptionError := "Failed to transcribe audio. Please try again."
  const ElaborationError := "Failed to elaborate text. Please try again."
  const AudioLoadError := "Failed to load audio. Please try recording again."

  predicate NonEmpty(c: Chunk) { |c| > 0 }

  /** The intervals `clearInterval(handle)` cancels: the one named, if any. */
  function Handled(handle: Option<nat>): (s: set<nat>)
    ensures handle.None? <==> s == {}
    ensures forall id :: id in s <==> handle == Some(id)
  {
    if handle.Some? then {handle.value} else {}
  }

  class Recorder {
    var isRecording: bool
    var isPaused: bool
    var hasMediaRecorder: bool  // mediaRecorderRef.current is set
    var pendingStarts: nat      // `startRecording` calls still awaiting the microphone
    var live: set<nat>          // intervals registered and not yet cleared
    var timerRef: Option<nat>   // recordingTimerRef.current
    var nextInterval: nat       // the handle the next `setInterval` returns
    var recordingTime: nat
    var chunks: seq<Chunk>
    var audioUrl: Option<string>
    var isLoading: bool
    var error: Option<string>
    var transcription: string
    var elaboration: string
    var isTranscribing: bool
    var isElaborating: bool

    /** One can only be paused while recording, recording needs a media recorder, and every
        handle was issued by `setInterval`. */
    ghost predicate Valid()
      reads this
    {
      && (isRecording ==> hasMediaRecorder)
      && (isPaused ==> isRecording)
      && (forall id :: id in live ==> id < nextInterval)
      && (timerRef.Some? ==> timerRef.value < nextInterval)
    }

    /** The session is running and not paused. */
    predicate Running()
      reads this
    {
      isRecording && !isPaused
    }

    /** The timer the design intends: while running, exactly the remembered interval is live;
        otherwise none is. */
    ghost predicate OneTimer()
      reads this
    {
      && (Running() ==> timerRef.Some? && live == {timerRef.value})
      && (!Running() ==> live == {})
    }

    /** The text the editor is given: the elaboration when there is one, else the transcription. */
    function ShownText(): (s: string)
      reads this
      ensures s == "" ==> elaboration == "" && transcription == ""
      ensures elaboration != "" ==> s == elaboration
      ensures elaboration == "" ==> s == transcription
    {
      if elaboration != "" then elaboration else transcription
    }

    constructor ()
      ensures Valid() && OneTimer()
      ensures !isRecording && !isPaused && !hasMediaRecorder && recordingTime == 0 && chunks == []
      ensures pendingStarts == 0 && live == {} && timerRef == None && nextInterval == 1
      ensures audioUrl == None && !isLoading && error == None
      ensures transcription == "" && elaboration == "" && !isTranscribing && !isElaborating
    {
      isRecording, isPaused, hasMediaRecorder := false, false, false;
      pendingStarts, live, timerRef, nextInterval := 0, {}, None, 1;
      recordingTime, chunks := 0, [];
      audioUrl, isLoading, error := None, false, None;
      transcription, elaboration := "", "";
      isTranscribing, isElaborating := false, false;
    }

    /** `setInterval(..., 1000)` stored in `recordingTimerRef`: a fresh interval goes live and
        the ref forgets whichever it named before. */
    method StartInterval()
      requires Valid()
      modifies this`live, this`timerRef, this`nextInterval
      ensures Valid()
      ensures old(nextInterval) !in old(live)
      ensures live == old(live) + {old(nextInterval)} && timerRef == Some(old(nextInterval))
      ensures nextInterval == old(nextInterval) + 1
    {
      live := live + {nextInterval};
      timerRef := Some(nextInterval);
      nextInterval := nextInterval + 1;
    }

    /** `clearInterval(recordingTimerRef.current)`: only the remembered interval is cancelled;
        the ref keeps its stale handle. */
    method ClearInterval()
      requires Valid()
      modifies this`live
      ensures Valid()
      ensures live == old(live) - Handled(timerRef)
    {
      if timerRef.Some? {
        live := live - {timerRef.value};
      }
    }

    /** A click on Start Recording, offered while not recording and not loading: `startRecording`
        asks for the microphone and waits. Nothing else changes while it waits, so Start stays
        offered and can be clicked again. */
    method RequestMicrophone()
      requires !isRecording && !isLoading
      modifies this`pendingStarts
      ensures pendingStarts == old(pendingStarts) + 1
    {
      pendingStarts := pendingStarts + 1;
    }

    /** The rest of `startRecording`, once `getUserMedia` settles for one pending request. A
        grant starts a fresh session and registers a new interval, whatever intervals are
        already live; a refusal only sets the error. From one running timer and no session the
        result again has one running timer. */
    method MicrophoneSettled(micGranted: bool)
      requires Valid() && pendingStarts > 0
      modifies this
      ensures Valid()
      ensures pendingStarts == old(pendingStarts) - 1
      ensures micGranted ==> isRecording && !isPaused && recordingTime == 0 && error == None
                             && chunks == [] && hasMediaRecorder
                             && old(nextInterval) !in old(live)
                             && live == old(live) + {old(nextInterval)}
                             && timerRef == Some(old(nextInterval))
                             && nextInterval == old(nextInterval) + 1
      ensures !micGranted ==> error == Some(MicrophoneError)
                              && isRecording == old(isRecording) && isPaused == old(isPaused)
                              && recordingTime == old(recordingTime) && chunks == old(chunks)
                              && hasMediaRecorder == old(hasMediaRecorder)
                              && live == old(live) && timerRef == old(timerRef)
                              && nextInterval == old(nextInterval)
      ensures old(OneTimer()) && !old(isRecording) ==> OneTimer()
      ensures audioUrl == old(audioUrl) && isLoading == old(isLoading)
      ensures transcription == old(transcription) && elaboration == old(elaboration)
      ensures isTranscribing == old(isTranscribing) && isElaborating == old(isElaborating)
    {
      pendingStarts := pendingStarts - 1;
      if !micGranted {
        error := Some(MicrophoneError);
        return;
      }
      hasMediaRecorder := true;
      chunks := [];
      isRecording := true;
      isPaused := false;
      recordingTime := 0;
      error := None;
      StartInterval();
    }
    /** `ondataavailable`: a chunk is kept only when it holds data. */
    method OnDataAvailable(c: Chunk)
      modifies this`chunks
      ensures chunks == if NonEmpty(c) then old(chunks) + [c] else old(chunks)
    {
      if |c| > 0 {
        chunks := chunks + [c];
      }
    }

    /** The recorder's `onstop`: the recorded chunks become an object URL (supplied by the
        caller) and loading starts. */
    method OnRecorderStop(url: string)
      modifies this`audioUrl, this`isLoading
      ensures audioUrl == Some(url) && isLoading
    {
      isLoading := true;
      audioUrl := Some(url);
    }

    /** The audio element finished loading the recording's metadata. */
    method OnAudioLoaded()
      modifies this`isLoading
      ensures !isLoading
    {
      isLoading := false;
    }

    /** The audio element failed to load the recording. */
    method OnAudioError()
      modifies this`isLoading, this`error
      ensures !isLoading && error == Some(AudioLoadError)
    {
      error := Some(AudioLoadError);
      isLoading := false;
    }

    /** `stopRecording`: acts only while recording, and clears the remembered interval. */
    method StopRecording()
      requires Valid()
      modifies this
      ensures Valid()
      ensures old(isRecording) ==> !isRecording && !isPaused && live == old(live) - Handled(old(timerRef))
      ensures !old(isRecording) ==> isRecording == old(isRecording) && isPaused == old(isPaused)
                                    && live == old(live)
      ensures old(OneTimer()) ==> OneTimer() && live == {}
      ensures timerRef == old(timerRef) && nextInterval == old(nextInterval)
      ensures pendingStarts == old(pendingStarts)
      ensures hasMediaRecorder == old(hasMediaRecorder) && recordingTime == old(recordingTime)
      ensures chunks == old(chunks) && audioUrl == old(audioUrl) && isLoading == old(isLoading)
      ensures error == old(error) && transcription == old(transcription) && elaboration == old(elaboration)
      ensures isTranscribing == old(isTranscribing) && isElaborating == old(isElaborating)
    {
      if hasMediaRecorder && isRecording {
        isRecording := false;
        isPaused := false;
        ClearInterval();
      }
    }

    /** `pauseRecording`, which toggles: pause a running recording (clearing the remembered
        interval), resume a paused one (registering a new interval). */
    method PauseRecording()
      requires Valid()
      modifies this`isPaused, this`live, this`timerRef, this`nextInterval
      ensures Valid()
      ensures old(Running()) ==> isPaused && live == old(live) - Handled(old(timerRef))
                                 && timerRef == old(timerRef) && nextInterval == old(nextInterval)
      ensures old(isRecording) && old(isPaused) ==>
                !isPaused && old(nextInterval) !in old(live)
                && live == old(live) + {old(nextInterval)} && timerRef == Some(old(nextInterval))
                && nextInterval == old(nextInterval) + 1
      ensures !old(isRecording) ==> isPaused == old(isPaused) && live == old(live)
                                    && timerRef == old(timerRef) && nextInterval == old(nextInterval)
      ensures old(OneTimer()) ==> OneTimer()
    {
      if hasMediaRecorder && isRecording && !isPaused {
        isPaused := true;
        ClearInterval();
      } else if hasMediaRecorder && isRecording && isPaused {
        isPaused := false;
        StartInterval();
      }
    }

    /** One firing of a live interval: one second is added, whichever interval it is. */
    method Tick(interval: nat)
      requires interval in live
      modifies this`recordingTime
      ensures recordingTime == old(recordingTime) + 1
    {
      recordingTime := recordingTime + 1;
    }

    /** `handleTranscribe` up to its `await`: without a recording (`!audioUrl`, which the empty
        string also fails) nothing happens; otherwise the recording is sent off and the request
        is returned. */
    method HandleTranscribe() returns (request: Option<string>)
      modifies this`isTranscribing
      ensures request.Some? <==> audioUrl.Some? && audioUrl.value != ""
      ensures request.Some? ==> request == audioUrl
      ensures isTranscribing == (request.Some? || old(isTranscribing))
    {
      if audioUrl.None? || audioUrl.value == "" {
        return None;
      }
      request := audioUrl;
      isTranscribing := true;
    }

    /** The rest of `handleTranscribe`, once the transcription collaborator answered: a new
        transcript replaces the old one and clears the elaboration; a failure leaves both
        texts alone and sets the error. */
    method TranscriptionSettled(reply: Reply<string>)
      modifies this`transcription, this`elaboration, this`error, this`isTranscribing
      ensures !isTranscribing
      ensures reply.Success? ==> transcription == reply.value && elaboration == "" && error == old(error)
      ensures reply.Failure? ==> transcription == old(transcription) && elaboration == old(elaboration)
                                 && error == Some(TranscriptionError)
    {
      if reply.Success? {
        transcription := reply.value;
        elaboration := "";
      } else {
        error := Some(TranscriptionError);
      }
      isTranscribing := false;
    }

    /** `handleElaborate` up to its `await`: the given text goes to the collaborator. */
    method HandleElaborate(text: string) returns (request: string)
      modifies this`isElaborating
      ensures request == text && isElaborating
    {
      isElaborating := true;
      request := text;
    }

    /** The rest of `handleElaborate`: the elaboration is stored and returned, or the error is
        set, the elaboration kept, and the failure passed on to the caller. */
    method ElaborationSettled(reply: Reply<string>) returns (outcome: Reply<string>)
      modifies this`elaboration, this`error, this`isElaborating
      ensures !isElaborating && outcome == reply
      ensures reply.Success? ==> elaboration == reply.value && error == old(error)
      ensures reply.Failure? ==> elaboration == old(elaboration) && error == Some(ElaborationError)
    {
      if reply.Success? {
        elaboration := reply.value;
      } else {
        error := Some(ElaborationError);
      }
      isElaborating := false;
      outcome := reply;
    }

    /** `handleSaveEdits`: the edited text becomes the elaboration. */
    method HandleSaveEdits(newText: string)
      modifies this`elaboration
      ensures elaboration == newText
    {
      elaboration := newText;
    }

    /** `handleRedoTranscription`: the elaboration is dropped, so the transcript is shown again. */
    method HandleRedoTranscription()
      modifies this`elaboration
      ensures elaboration == "" && ShownText() == transcription
    {
      elaboration := "";
    }
  }

  /** A session that runs for `before` seconds, is paused (no interval is live while paused, so
      however long the pause lasts nothing is counted), resumed and run for `after` more seconds
      shows `before + after` seconds when stopped, and leaves no interval running. */
  method PausedTimeNotCounted(before: nat, after: nat) returns (elapsed: nat, timersLeft: nat)
    ensures elapsed == before + after
    ensures timersLeft == 0
  {
    var r := new Recorder();
    r.RequestMicrophone();
    r.MicrophoneSettled(true);
    var i := 0;
    while i < before
      invariant 0 <= i <= before
      invariant r.Valid() && r.OneTimer() && r.Running() && r.recordingTime == i
    {
      r.Tick(r.timerRef.value);
      i := i + 1;
    }
    r.PauseRecording();
    assert r.live == {};
    r.PauseRecording();
    i := 0;
    while i < after
      invariant 0 <= i <= after
      invariant r.Valid() && r.OneTimer() && r.Running() && r.recordingTime == before + i
    {
      r.Tick(r.timerRef.value);
      i := i + 1;
    }
    r.StopRecording();
    elapsed := r.recordingTime;
    timersLeft := |r.live|;
  }

  /** Start clicked twice before the microphone answers, both requests granted, then Stop:
      the recorder shows stopped, yet the first interval was never cleared, because the ref
      only remembers the second, so the clock keeps counting after Stop. */
  method DoubleStartLeaksInterval() returns (stillRecording: bool, timersLeft: nat, timeAfterStop: nat)
    ensures !stillRecording
    ensures timersLeft == 1
    ensures timeAfterStop == 1
  {
    var r := new Recorder();
    r.RequestMicrophone();
    r.RequestMicrophone();
    r.MicrophoneSettled(true);
    r.MicrophoneSettled(true);
    r.StopRecording();
    assert r.live == {1};
    stillRecording := r.isRecording;
    timersLeft := |r.live|;
    r.Tick(1);
    timeAfterStop := r.recordingTime;
  }

  /** One more arrival extends the filtered prefix by that chunk when it holds data. */
  lemma FilterStep(arrivals: seq<Chunk>, i: nat)
    requires i < |arrivals|
    ensures Seqs.Filter(arrivals[..i + 1], NonEmpty)
            == Seqs.Filter(arrivals[..i], NonEmpty) + (if NonEmpty(arrivals[i]) then [arrivals[i]] else [])
  {
    assert arrivals[..i + 1] == arrivals[..i] + [arrivals[i]];
    Seqs.FilterAppend(arrivals[..i], arrivals[i], NonEmpty);
  }

  /** Chunks delivered during a session end up in the buffer in arrival order, the empty ones
      left out. */
  method BufferedChunks(arrivals: seq<Chunk>) returns (buffered: seq<Chunk>)
    ensures buffered == Seqs.Filter(arrivals, NonEmpty)
    ensures forall k :: 0 <= k < |buffered| ==> |buffered[k]| > 0
  {
    var r := new Recorder();
    r.RequestMicrophone();
    r.MicrophoneSettled(true);
    var i := 0;
    while i < |arrivals|
      invariant 0 <= i <= |arrivals|
      invariant r.chunks == Seqs.Filter(arrivals[..i], NonEmpty)
    {
      FilterStep(arrivals, i);
      r.OnDataAvailable(arrivals[i]);
      i := i + 1;
    }
    assert arrivals[..i] == arrivals;
    buffered := r.chunks;
  }
}
