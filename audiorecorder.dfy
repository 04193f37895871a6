/** The voice-message recorder: the elapsed-time label and the state the
    component moves through while recording, reviewing and sending a clip.
    `MediaRecorder`, the microphone and object URLs are abstract: a chunk is
    an opaque blob with a size, and a recording's URL stands for the chunks
    it was made from. */
module AudioRecorder {
  import opened JsText

  // ----- formatTime -----

  /** `s.padStart(2, '0')`. */
  function PadStart2(s: JsString): (r: JsString)
    ensures |s| < 2 ==> |r| == 2 && r[2 - |s|..] == s && forall i | 0 <= i < 2 - |s| :: r[i] == '0' as int
    ensures |s| >= 2 ==> r == s
  {
    if |s| >= 2 then s else if |s| == 1 then ['0' as int] + s else ['0' as int, '0' as int]
  }

  /** `formatTime(seconds)`: whole minutes, a colon, then the seconds as two digits. */
  function FormatTime(seconds: nat): (r: JsString)
    ensures |r| >= 4 && r[|r| - 3] == ':' as int
    ensures forall i | 0 <= i < |r| && i != |r| - 3 :: IsDigitUnit(r[i])
  {
    SecondsField(seconds % 60);
    Decimal(seconds / 60) + [':' as int] + PadStart2(Decimal(seconds % 60))
  }

  /** Reads a label of the form `<digits>:<two digits>` back into seconds. */
  function ParseTime(s: JsString): Option<nat>
  {
    if |s| < 4 || s[|s| - 3] != ':' as int then None
    else
      var mins := s[..|s| - 3];
      var secs := s[|s| - 2..];
      if (forall i | 0 <= i < |mins| :: IsDigitUnit(mins[i])) && (forall i | 0 <= i < |secs| :: IsDigitUnit(secs[i]))
      then Some(DecimalValue(mins) * 60 + DecimalValue(secs))
      else None
  }

  /** Below 60 the seconds field is exactly two digits worth its value. */
  lemma SecondsField(n: nat)
    requires n < 60
    ensures |PadStart2(Decimal(n))| == 2
    ensures forall i | 0 <= i < 2 :: IsDigitUnit(PadStart2(Decimal(n))[i])
    ensures DecimalValue(PadStart2(Decimal(n))) == n
  {
    DecimalRoundTrip(n);
    var d := Decimal(n);
    if n >= 10 {
      assert Decimal(n / 10) == [DigitUnit(n / 10)];
      assert |d| == 2;
    } else {
      var p := PadStart2(d);
      assert p == ['0' as int, DigitUnit(n)];
      assert p[..1] == ['0' as int];
      assert DecimalValue(p[..1]) == 0 by {
        assert p[..1][..0] == [];
      }
    }
  }

  /** The label determines the time: reading it back gives the seconds again. */
  lemma FormatTimeRoundTrip(seconds: nat)
    ensures ParseTime(FormatTime(seconds)) == Some(seconds)
  {
    var m := Decimal(seconds / 60);
    var p := PadStart2(Decimal(seconds % 60));
    SecondsField(seconds % 60);
    DecimalRoundTrip(seconds / 60);
    var s := FormatTime(seconds);
    assert s[..|s| - 3] == m;
    assert s[|s| - 2..] == p;
    assert s[|s| - 3] == ':' as int;
  }

  /** Different times have different labels. */
  lemma FormatTimeInjective(a: nat, b: nat)
    requires FormatTime(a) == FormatTime(b)
    ensures a == b
  {
    FormatTimeRoundTrip(a);
    FormatTimeRoundTrip(b);
  }

  /** The label shows `seconds div 60` minutes and `seconds mod 60` seconds. */
  lemma FormatTimeFields(seconds: nat)
    ensures var s := FormatTime(seconds);
      |s| >= 4 && s[|s| - 3] == ':' as int &&
      DecimalValue(s[..|s| - 3]) == seconds / 60 && DecimalValue(s[|s| - 2..]) == seconds % 60
  {
    var s := FormatTime(seconds);
    SecondsField(seconds % 60);
    DecimalRoundTrip(seconds / 60);
    assert s[..|s| - 3] == Decimal(seconds / 60);
    assert s[|s| - 2..] == PadStart2(Decimal(seconds % 60));
  }

  lemma FormatTimeExamples()
    ensures FormatTime(0) == Units("0:00")
    ensures FormatTime(65) == Units("1:05")
  {
    assert Decimal(0) == [DigitUnit(0)];
    assert Decimal(1) == [DigitUnit(1)];
    assert Decimal(5) == [DigitUnit(5)];
  }

  // ----- Chunks -----

  /** A `Blob` the recorder delivers; `id` stands for its bytes. */
  datatype Chunk = Chunk(id: nat, size: nat)

  /** The chunks `ondataavailable` keeps from a sequence of events: the
      non-empty ones, in arrival order. */
  function Kept(events: seq<Chunk>): seq<Chunk>
  {
    if events == [] then []
    else
      var last := events[|events| - 1];
      Kept(events[..|events| - 1]) + if last.size > 0 then [last] else []
  }

  /** Exactly the non-empty chunks are kept, and keeping commutes with
      concatenation, so the order of arrival is the order kept. */
  lemma {:induction false} KeptSpec(events: seq<Chunk>)
    ensures forall c | c in Kept(events) :: c in events && c.size > 0
    ensures forall c | c in events && c.size > 0 :: c in Kept(events)
    ensures |Kept(events)| <= |events|
  {
    if events != [] {
      var init := events[..|events| - 1];
      KeptSpec(init);
      assert events == init + [events[|events| - 1]];
    }
  }

  lemma {:induction false} KeptAppend(a: seq<Chunk>, b: seq<Chunk>)
    ensures Kept(a + b) == Kept(a) + Kept(b)
    decreases |b|
  {
    if b != [] {
      var init := b[..|b| - 1];
      assert (a + b)[..|a + b| - 1] == a + init;
      KeptAppend(a, init);
    } else {
      assert a + b == a;
    }
  }

  // ----- The component -----

  /** An object URL; it stands for the blob built from the chunks. */
  datatype Recording = Recording(chunks: seq<Chunk>)

  /** The component's state, its refs, and the clips handed to `onAudioReady`. */
  class Recorder {
    var isRecording: bool
    var audioUrl: Option<Recording>
    var isPlaying: bool
    var recordingTime: nat
    var chunks: seq<Chunk>
    var hasRecorder: bool
    var timerRunning: bool
    var sent: seq<Recording>

    constructor ()
      ensures !isRecording && audioUrl.None? && !isPlaying && recordingTime == 0
      ensures chunks == [] && !hasRecorder && !timerRunning && sent == []
    {
      isRecording, audioUrl, isPlaying, recordingTime := false, None, false, 0;
      chunks, hasRecorder, timerRunning, sent := [], false, false, [];
    }

    /** `startRecording`; `granted` is whether the `try` block reaches
        `start()`. Both `getUserMedia` refusing and `new MediaRecorder`
        throwing on an unsupported MIME type end in the `catch`, which
        changes nothing. */
    method StartRecording(granted: bool)
      modifies this
      ensures !granted ==>
                isRecording == old(isRecording) && recordingTime == old(recordingTime) && chunks == old(chunks) &&
                hasRecorder == old(hasRecorder) && timerRunning == old(timerRunning)
      ensures granted ==> isRecording && recordingTime == 0 && chunks == [] && hasRecorder && timerRunning
      ensures audioUrl == old(audioUrl) && isPlaying == old(isPlaying) && sent == old(sent)
    {
      if !granted {
        return;
      }
      hasRecorder := true;
      chunks := [];
      isRecording := true;
      recordingTime := 0;
      timerRunning := true;
    }

    /** `ondataavailable`. */
    method OnDataAvailable(chunk: Chunk)
      modifies this
      ensures chunks == old(chunks) + Kept([chunk])
      ensures isRecording == old(isRecording) && recordingTime == old(recordingTime) && audioUrl == old(audioUrl)
      ensures isPlaying == old(isPlaying) && hasRecorder == old(hasRecorder) && timerRunning == old(timerRunning)
      ensures sent == old(sent)
    {
      assert [chunk][..0] == [];
      if chunk.size > 0 {
        chunks := chunks + [chunk];
      }
    }

    /** One tick of the one-second interval, which fires only while it is set. */
    method Tick()
      modifies this
      ensures recordingTime == old(recordingTime) + (if timerRunning then 1 else 0)
      ensures isRecording == old(isRecording) && chunks == old(chunks) && audioUrl == old(audioUrl)
      ensures isPlaying == old(isPlaying) && hasRecorder == old(hasRecorder) && timerRunning == old(timerRunning)
      ensures sent == old(sent)
    {
      if timerRunning {
        recordingTime := recordingTime + 1;
      }
    }

    /** `stopRecording`: only while recording, stops and clears the interval. */
    method StopRecording()
      modifies this
      ensures !(old(hasRecorder) && old(isRecording)) ==> isRecording == old(isRecording) && timerRunning == old(timerRunning)
      ensures old(hasRecorder) && old(isRecording) ==> !isRecording && !timerRunning
      ensures recordingTime == old(recordingTime) && chunks == old(chunks) && audioUrl == old(audioUrl)
      ensures isPlaying == old(isPlaying) && hasRecorder == old(hasRecorder) && sent == old(sent)
    {
      if hasRecorder && isRecording {
        isRecording := false;
        if timerRunning {
          timerRunning := false;
        }
      }
    }

    /** The recorder's `onstop`: the URL of a blob made of the chunks so far. */
    method OnStop()
      modifies this
      ensures audioUrl == Some(Recording(chunks))
      ensures isRecording == old(isRecording) && recordingTime == old(recordingTime) && chunks == old(chunks)
      ensures isPlaying == old(isPlaying) && hasRecorder == old(hasRecorder) && timerRunning == old(timerRunning)
      ensures sent == old(sent)
    {
      audioUrl := Some(Recording(chunks));
    }

    /** `playAudio`; the audio element is rendered, and `audioRef` set,
        exactly when there is a URL. */
    method PlayAudio()
      modifies this
      ensures isPlaying == (old(isPlaying) || audioUrl.Some?)
      ensures isRecording == old(isRecording) && recordingTime == old(recordingTime) && chunks == old(chunks)
      ensures audioUrl == old(audioUrl) && hasRecorder == old(hasRecorder) && timerRunning == old(timerRunning)
      ensures sent == old(sent)
    {
      if audioUrl.Some? {
        isPlaying := true;
      }
    }

    /** `pauseAudio`, and the audio element's `onEnded`. */
    method PauseAudio()
      modifies this
      ensures isPlaying == (old(isPlaying) && audioUrl.None?)
      ensures isRecording == old(isRecording) && recordingTime == old(recordingTime) && chunks == old(chunks)
      ensures audioUrl == old(audioUrl) && hasRecorder == old(hasRecorder) && timerRunning == old(timerRunning)
      ensures sent == old(sent)
    {
      if audioUrl.Some? {
        isPlaying := false;
      }
    }

    /** `deleteRecording`. */
    method DeleteRecording()
      modifies this
      ensures audioUrl.None? && !isPlaying && recordingTime == 0
      ensures isRecording == old(isRecording) && chunks == old(chunks) && hasRecorder == old(hasRecorder)
      ensures timerRunning == old(timerRunning) && sent == old(sent)
    {
      if audioUrl.Some? {
        audioUrl := None;
      }
      isPlaying := false;
      recordingTime := 0;
    }

    /** `sendRecording`: the clip goes to `onAudioReady`, then is deleted. */
    method SendRecording()
      modifies this
      ensures old(audioUrl).Some? ==> sent == old(sent) + [old(audioUrl).value] && audioUrl.None? && !isPlaying && recordingTime == 0
      ensures old(audioUrl).None? ==>
                audioUrl.None? && sent == old(sent) && isPlaying == old(isPlaying) && recordingTime == old(recordingTime)
      ensures isRecording == old(isRecording) && chunks == old(chunks) && hasRecorder == old(hasRecorder)
      ensures timerRunning == old(timerRunning)
    {
      if audioUrl.Some? {
        sent := sent + [audioUrl.value];
        DeleteRecording();
      }
    }
  }
}
