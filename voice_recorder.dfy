/**
 * `VoiceRecorder` of the front end: option defaults, the recorder life
 * cycle (`start`, `stop`, the chunk handler and `processChunks`' guard) and
 * the silence detector that stops recording after a quiet spell. The
 * browser objects (MediaRecorder, AudioContext, the analyser) are reduced
 * to the state the class tests; the clock and the analyser's byte spectrum
 * are parameters.
 */
module VoiceRecording {
  import opened Wrappers
  import Wav

  const DefaultSampleRate: real := 16000.0
  const DefaultSilenceThreshold: real := 0.01
  const DefaultSilenceDurationMs: real := 1000.0

  /** The optional constructor argument. */
  datatype RecorderOpts = RecorderOpts(sampleRate: Option<real>, silenceThreshold: Option<real>, silenceDurationMs: Option<real>)

  /** The resolved options, every field present. */
  datatype Options = Options(sampleRate: real, silenceThreshold: real, silenceDurationMs: real)

  /** `MediaRecorder.state` as far as the class tests it. */
  datatype RecorderState = Inactive | Recording

  /** A recorded blob; only its size is looked at. */
  datatype Chunk = Chunk(size: nat)

  /** A result callback, identified by the caller. */
  datatype Callback = Callback(id: nat)

  /** `opts.x ?? default` for each field. */
  function Resolve(o: RecorderOpts): (r: Options)
    ensures o.sampleRate.Some? ==> r.sampleRate == o.sampleRate.value
    ensures o.silenceThreshold.Some? ==> r.silenceThreshold == o.silenceThreshold.value
    ensures o.silenceDurationMs.Some? ==> r.silenceDurationMs == o.silenceDurationMs.value
  {
    Options(o.sampleRate.GetOr(DefaultSampleRate),
            o.silenceThreshold.GetOr(DefaultSilenceThreshold),
            o.silenceDurationMs.GetOr(DefaultSilenceDurationMs))
  }

  /** `new VoiceRecorder()` records at 16 kHz and stops after one second below level 0.01. */
  lemma DefaultOptions()
    ensures Resolve(RecorderOpts(None, None, None)) == Options(16000.0, 0.01, 1000.0)
  {
  }

  // ---------------------------------------------------------------------------
  // Silence detection
  // ---------------------------------------------------------------------------

  function Sum(data: seq<Wav.Byte>): (s: nat)
    ensures s <= 255 * |data|
  {
    if |data| == 0 then 0 else Sum(data[..|data| - 1]) + data[|data| - 1]
  }

  /** The mean spectrum level scaled to [0, 1]: `reduce(+) / length / 255`. */
  function Level(data: seq<Wav.Byte>): (l: real)
    requires |data| > 0
    ensures 0.0 <= l <= 1.0
  {
    Sum(data) as real / |data| as real / 255.0
  }

  lemma {:induction false} SumZero(data: seq<Wav.Byte>)
    requires forall i :: 0 <= i < |data| ==> data[i] == 0
    ensures Sum(data) == 0
  {
    if |data| > 0 {
      SumZero(data[..|data| - 1]);
    }
  }

  /** An all-zero spectrum has level 0, so it never counts as sound at a non-negative threshold. */
  lemma SilentSpectrum(data: seq<Wav.Byte>, opts: Options)
    requires |data| > 0 && forall i :: 0 <= i < |data| ==> data[i] == 0
    requires opts.silenceThreshold >= 0.0
    ensures Level(data) == 0.0 && !(Level(data) > opts.silenceThreshold)
  {
    SumZero(data);
  }

  /** One tick of the detector: the new time of last sound, and whether to stop. */
  function Tick(level: real, now: int, lastSoundTime: int, opts: Options): (r: (int, bool))
    ensures r.0 == (if level > opts.silenceThreshold then now else lastSoundTime)
    ensures r.1 <==> (now - r.0) as real >= opts.silenceDurationMs
  {
    var last := if level > opts.silenceThreshold then now else lastSoundTime;
    (last, (now - last) as real >= opts.silenceDurationMs)
  }

  /** A tick that hears sound never stops the recording while the silence duration is positive. */
  lemma LoudTickNeverStops(level: real, now: int, lastSoundTime: int, opts: Options)
    requires level > opts.silenceThreshold && opts.silenceDurationMs > 0.0
    ensures !Tick(level, now, lastSoundTime, opts).1
  {
  }

  /** A quiet tick stops exactly once the silence has lasted the configured duration. */
  lemma QuietTickStops(level: real, now: int, lastSoundTime: int, opts: Options)
    requires level <= opts.silenceThreshold
    ensures Tick(level, now, lastSoundTime, opts).1 <==> (now - lastSoundTime) as real >= opts.silenceDurationMs
  {
  }

  // ---------------------------------------------------------------------------
  // The recorder
  // ---------------------------------------------------------------------------

  class VoiceRecorder {
    var opts: Options
    /** `mediaRecorder`: None for null, else its state. */
    var recorder: Option<RecorderState>
    /** `analyser` is non-null (set by `start`). */
    var hasAnalyser: bool
    var chunks: seq<Chunk>
    var onStop: Option<Callback>
    /** `mediaRecorder.onstop` has been set to run `processChunks`. */
    var stopHandlerSet: bool
    /** `silenceCheckInterval` is non-null. */
    var vadActive: bool
    /** The callback captured by the running detector, and its `lastSoundTime`. */
    var vadCallback: Option<Callback>
    var lastSoundTime: int

    constructor(o: RecorderOpts)
      ensures opts == Resolve(o)
      ensures recorder == None && !hasAnalyser && chunks == [] && onStop == None
      ensures !stopHandlerSet && !vadActive && vadCallback == None
    {
      opts := Resolve(o);
      recorder := None;
      hasAnalyser := false;
      chunks := [];
      onStop := None;
      stopHandlerSet := false;
      vadActive := false;
      vadCallback := None;
      lastSoundTime := 0;
    }

    /** `start()`: a fresh analyser and a fresh, recording MediaRecorder with no chunks. */
    method Start()
      modifies this
      ensures recorder == Some(Recording) && hasAnalyser && chunks == [] && !stopHandlerSet
      ensures opts == old(opts) && onStop == old(onStop)
      ensures vadActive == old(vadActive) && vadCallback == old(vadCallback) && lastSoundTime == old(lastSoundTime)
    {
      hasAnalyser := true;
      recorder := Some(Recording);
      chunks := [];
      stopHandlerSet := false;
    }

    /** `ondataavailable`: only non-empty blobs are kept. */
    method OnDataAvailable(c: Chunk)
      modifies this
      ensures chunks == if c.size > 0 then old(chunks) + [c] else old(chunks)
      ensures opts == old(opts) && recorder == old(recorder) && hasAnalyser == old(hasAnalyser)
      ensures onStop == old(onStop) && stopHandlerSet == old(stopHandlerSet)
      ensures vadActive == old(vadActive) && vadCallback == old(vadCallback) && lastSoundTime == old(lastSoundTime)
    {
      if c.size > 0 {
        chunks := chunks + [c];
      }
    }

    /**
     * `stop(onResult)`: the callback is always stored; without a recorder,
     * or with an inactive one, nothing else happens. Otherwise the stop
     * handler is set and the recorder stops.
     */
    method Stop(onResult: Callback)
      modifies this
      ensures onStop == Some(onResult)
      ensures old(recorder).None? || old(recorder) == Some(Inactive) ==>
        recorder == old(recorder) && stopHandlerSet == old(stopHandlerSet)
      ensures old(recorder) == Some(Recording) ==> recorder == Some(Inactive) && stopHandlerSet
      ensures opts == old(opts) && hasAnalyser == old(hasAnalyser) && chunks == old(chunks)
      ensures vadActive == old(vadActive) && vadCallback == old(vadCallback) && lastSoundTime == old(lastSoundTime)
    {
      onStop := Some(onResult);
      if recorder.None? || recorder.value == Inactive {
        return;
      }
      stopHandlerSet := true;
      recorder := Some(Inactive);
    }

    /** `startVAD(onResult)`: stores the callback and arms the detector at time `now`. */
    method StartVad(onResult: Callback, now: int)
      modifies this
      ensures onStop == Some(onResult) && vadActive && vadCallback == Some(onResult) && lastSoundTime == now
      ensures opts == old(opts) && recorder == old(recorder) && hasAnalyser == old(hasAnalyser)
      ensures chunks == old(chunks) && stopHandlerSet == old(stopHandlerSet)
    {
      onStop := Some(onResult);
      lastSoundTime := now;
      vadActive := true;
      vadCallback := Some(onResult);
    }

    /** `cancelVAD()`. */
    method CancelVad()
      modifies this
      ensures !vadActive
      ensures opts == old(opts) && recorder == old(recorder) && hasAnalyser == old(hasAnalyser)
      ensures chunks == old(chunks) && onStop == old(onStop) && stopHandlerSet == old(stopHandlerSet)
      ensures vadCallback == old(vadCallback) && lastSoundTime == old(lastSoundTime)
    {
      vadActive := false;
    }

    /**
     * One run of the 200 ms interval: without an analyser it does nothing;
     * otherwise it updates the time of last sound from the spectrum level
     * and, after the configured silence, cancels itself and stops.
     */
    method VadTick(data: seq<Wav.Byte>, now: int) returns (stopped: bool)
      requires |data| > 0 && vadActive && vadCallback.Some?
      modifies this
      ensures !old(hasAnalyser) ==> !stopped && lastSoundTime == old(lastSoundTime) && vadActive
      ensures old(hasAnalyser) ==>
        var (last, stop) := Tick(Level(data), now, old(lastSoundTime), old(opts));
        lastSoundTime == last && stopped == stop
      ensures stopped ==> !vadActive && onStop == old(vadCallback)
      ensures stopped && old(recorder) == Some(Recording) ==> recorder == Some(Inactive) && stopHandlerSet
      ensures stopped && old(recorder) != Some(Recording) ==>
        recorder == old(recorder) && stopHandlerSet == old(stopHandlerSet)
      ensures !stopped ==> vadActive && onStop == old(onStop) && recorder == old(recorder)
      ensures !stopped ==> stopHandlerSet == old(stopHandlerSet)
      ensures opts == old(opts) && chunks == old(chunks) && vadCallback == old(vadCallback)
      ensures hasAnalyser == old(hasAnalyser)
    {
      stopped := false;
      if !hasAnalyser {
        return;
      }
      var avg := Level(data);
      if avg > opts.silenceThreshold {
        lastSoundTime := now;
      }
      if (now - lastSoundTime) as real >= opts.silenceDurationMs {
        CancelVad();
        assert recorder != Some(Recording) ==> recorder.None? || recorder.value == Inactive;
        Stop(vadCallback.value);
        stopped := true;
      }
    }

    /**
     * `processChunks()`: the detector is cancelled; the recording is handed
     * on (to be encoded as WAV and passed to the callback) only when there
     * are chunks and a callback.
     */
    method ProcessChunks() returns (delivered: Option<(Callback, seq<Chunk>)>)
      modifies this
      ensures !vadActive
      ensures delivered.Some? <==> |old(chunks)| > 0 && old(onStop).Some?
      ensures delivered.Some? ==> delivered.value == (old(onStop).value, old(chunks))
      ensures opts == old(opts) && recorder == old(recorder) && chunks == old(chunks) && onStop == old(onStop)
      ensures hasAnalyser == old(hasAnalyser) && stopHandlerSet == old(stopHandlerSet)
      ensures vadCallback == old(vadCallback) && lastSoundTime == old(lastSoundTime)
    {
      CancelVad();
      if |chunks| == 0 || onStop.None? {
        return None;
      }
      return Some((onStop.value, chunks));
    }
  }
}
