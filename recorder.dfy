/** The microphone side of the speech client, `record_audio`
    (speech_client.py:41-106): a per-frame state machine over 30 ms chunks
    of 16 kHz mono int16 audio. The voice activity detector, the microphone
    and the wall clock are inputs: each frame arrives with the detector's
    verdict, its samples, the clock reading and whether a status send made
    during it would go through. The WAV container and its base64 text are
    not modelled; a recording is its format fields and its samples. */
module Recorder {
  import opened JsonValue

  const SampleRate: nat := 16000
  const FrameDurationMs: nat := 30
  /** `int(SAMPLE_RATE * FRAME_DURATION / 1000)`; the division is exact. */
  const FrameSize: nat := SampleRate * FrameDurationMs / 1000
  const Channels: nat := 1
  const SampleWidth: nat := 2
  const VolumeThreshold: int := 3000
  /** Declared by the client and never read by it. */
  const SilenceThreshold: nat := 66
  /** Seconds of idle listening after which the loop is left. */
  const WaitLimit: real := 5.0
  /** Minimum seconds between two "waiting" status messages. */
  const StatusInterval: real := 10.0

  type int16 = x: int | -32768 <= x < 32768

  /** One `stream.read(FRAME_SIZE)`: exactly `FrameSize` samples. */
  type Chunk = s: seq<int16> | |s| == 480 witness seq(480, _ => 0)

  /** numpy's `abs` on int16: the most negative value has no positive
      counterpart and comes back unchanged. */
  function WrappedAbs(x: int16): (r: int16)
    ensures x == -32768 ==> r == -32768
    ensures x != -32768 ==> 0 <= r && (r == x || r == -x)
  {
    if x == -32768 then x else if x < 0 then -x else x
  }

  /** `np.max(np.abs(samples))`. */
  function Peak(s: seq<int16>): (m: int16)
    requires |s| > 0
    ensures exists i :: 0 <= i < |s| && m == WrappedAbs(s[i])
    ensures forall i :: 0 <= i < |s| ==> WrappedAbs(s[i]) <= m
  {
    if |s| == 1 then WrappedAbs(s[0])
    else
      var rest := Peak(s[1..]);
      assert forall i :: 1 <= i < |s| ==> s[i] == s[1..][i - 1];
      if WrappedAbs(s[0]) >= rest then WrappedAbs(s[0]) else rest
  }

  /** A chunk is loud enough exactly when some sample other than -32768
      has magnitude at least 3000: a clipped negative full-scale sample
      does not count. */
  lemma LoudIff(c: Chunk)
    ensures Peak(c) >= VolumeThreshold <==>
              exists i :: 0 <= i < |c| && c[i] != -32768 && (c[i] >= 3000 || c[i] <= -3000)
  {
    if Peak(c) >= VolumeThreshold {
      var i :| 0 <= i < |c| && Peak(c) == WrappedAbs(c[i]);
      assert c[i] != -32768 && (c[i] >= 3000 || c[i] <= -3000);
    }
    if exists i :: 0 <= i < |c| && c[i] != -32768 && (c[i] >= 3000 || c[i] <= -3000) {
      var i :| 0 <= i < |c| && c[i] != -32768 && (c[i] >= 3000 || c[i] <= -3000);
      assert WrappedAbs(c[i]) <= Peak(c);
    }
  }

  /** One loop iteration's inputs: the detector's verdict on the chunk,
      the chunk, the clock reading, and whether a status send would go
      through (otherwise it raises out of the recorder). */
  datatype Frame = Frame(voiced: bool, chunk: Chunk, now: real, sendOk: bool)

  /** The speech test: the detector says speech and the peak reaches the
      volume threshold. */
  predicate Speech(f: Frame) {
    f.voiced && Peak(f.chunk) >= VolumeThreshold
  }

  /** What one iteration did. */
  datatype Event = Heard | Waited | StatusSent | SendRaised | TimedOut

  /** A finished recording as written to the WAV container. */
  datatype Recording = Recording(channels: nat, sampleWidth: nat, rate: nat, samples: seq<int16>)

  function Concat(buffer: seq<Chunk>): (s: seq<int16>)
    ensures |s| == FrameSize * |buffer|
  {
    if buffer == [] then [] else buffer[0] + Concat(buffer[1..])
  }

  /** The result of `record_audio` for a buffer: `None` when nothing was
      recorded, else mono 16-bit 16 kHz audio of the chunks end to end. */
  function Encode(buffer: seq<Chunk>): Option<Recording> {
    if buffer == [] then None
    else Some(Recording(Channels, SampleWidth, SampleRate, Concat(buffer)))
  }

  /** Sample `j` of chunk `i` sits at `i * FrameSize + j` of the
      concatenation: the chunks are kept whole and in recording order. */
  lemma {:induction false} ConcatInOrder(buffer: seq<Chunk>, i: nat, j: nat)
    requires i < |buffer| && j < FrameSize
    ensures i * FrameSize + j < |Concat(buffer)|
    ensures Concat(buffer)[i * FrameSize + j] == buffer[i][j]
    decreases |buffer|
  {
    if i > 0 {
      ConcatInOrder(buffer[1..], i - 1, j);
      assert (i - 1) * FrameSize + j + FrameSize == i * FrameSize + j;
    }
  }

  /** A non-empty buffer encodes as mono, 16-bit, 16000 Hz audio holding
      every sample of every chunk, chunk by chunk. */
  lemma EncodeRecording(buffer: seq<Chunk>)
    ensures Encode(buffer).None? <==> buffer == []
    ensures Encode(buffer).Some? ==>
              var r := Encode(buffer).value;
              && r.channels == 1 && r.sampleWidth == 2 && r.rate == 16000
              && |r.samples| == FrameSize * |buffer|
              && forall i, j :: 0 <= i < |buffer| && 0 <= j < FrameSize ==>
                   i * FrameSize + j < |r.samples| && r.samples[i * FrameSize + j] == buffer[i][j]
  {
    forall i, j | 0 <= i < |buffer| && 0 <= j < FrameSize
      ensures i * FrameSize + j < |Concat(buffer)| && Concat(buffer)[i * FrameSize + j] == buffer[i][j]
    {
      ConcatInOrder(buffer, i, j);
    }
  }

  /** The local state of one `record_audio` call. */
  class Recorder {
    var buffer: seq<Chunk>
    var recording: bool
    var silenceCount: nat
    var lastStatusTime: real
    var startWaitingTime: real

    /** Idle means nothing buffered and no silence counted. */
    predicate Valid()
      reads this
    {
      && (!recording ==> buffer == [] && silenceCount == 0)
      && (recording ==> buffer != [])
    }

    constructor (now: real)
      ensures Valid()
      ensures buffer == [] && !recording && silenceCount == 0
      ensures lastStatusTime == now && startWaitingTime == now
    {
      buffer := [];
      recording := false;
      silenceCount := 0;
      lastStatusTime := now;
      startWaitingTime := now;
    }

    /** One iteration of the loop: a speech frame is recorded and restarts
        the silence count and the waiting timer; a quiet frame while
        recording is recorded and counted as silence; a quiet frame while
        idle times out after more than 5 s of waiting, or else sends a
        "waiting" status when 10 s have passed since the last one. */
    method Step(f: Frame) returns (event: Event)
      requires Valid()
      modifies this
      ensures Valid()
      ensures old(recording) ==> recording
      ensures Speech(f) ==>
                && event == Heard && buffer == old(buffer) + [f.chunk] && recording
                && silenceCount == 0 && startWaitingTime == f.now && lastStatusTime == old(lastStatusTime)
      ensures !Speech(f) && old(recording) ==>
                && event == Heard && buffer == old(buffer) + [f.chunk] && recording
                && silenceCount == old(silenceCount) + 1
                && startWaitingTime == old(startWaitingTime) && lastStatusTime == old(lastStatusTime)
      ensures !Speech(f) && !old(recording) ==>
                && buffer == [] && !recording && silenceCount == 0
                && startWaitingTime == old(startWaitingTime)
                && (f.now - old(startWaitingTime) > WaitLimit ==>
                      event == TimedOut && lastStatusTime == old(lastStatusTime))
                && (f.now - old(startWaitingTime) <= WaitLimit && f.now - old(lastStatusTime) >= StatusInterval ==>
                      if f.sendOk then event == StatusSent && lastStatusTime == f.now
                      else event == SendRaised && lastStatusTime == old(lastStatusTime))
                && (f.now - old(startWaitingTime) <= WaitLimit && f.now - old(lastStatusTime) < StatusInterval ==>
                      event == Waited && lastStatusTime == old(lastStatusTime))
      ensures event == TimedOut ==> !recording && buffer == []
    {
      if Speech(f) {
        buffer := buffer + [f.chunk];
        recording := true;
        silenceCount := 0;
        startWaitingTime := f.now;
        event := Heard;
      } else if recording {
        buffer := buffer + [f.chunk];
        silenceCount := silenceCount + 1;
        event := Heard;
      } else if f.now - startWaitingTime > WaitLimit {
        event := TimedOut;
      } else if f.now - lastStatusTime >= StatusInterval {
        if f.sendOk {
          lastStatusTime := f.now;
          event := StatusSent;
        } else {
          event := SendRaised;
        }
      } else {
        event := Waited;
      }
    }
  }

  /** How a `record_audio` call ended: it returned, a status send raised
      out of it, or the frames given ran out while it was still listening. */
  datatype RecordOutcome = Returned(audio: Option<Recording>) | Raised | Listening

  /** `record_audio` over the frames the microphone delivers, starting at
      clock reading `start`. It returns only after more than 5 s without
      speech while idle, and never after any speech, so it never returns a
      recording; "waiting" statuses go out at least 10 s apart. */
  method Record(start: real, frames: seq<Frame>) returns (outcome: RecordOutcome, used: nat, statusTimes: seq<real>)
    ensures used <= |frames|
    ensures outcome.Listening? ==> used == |frames|
    ensures !outcome.Listening? ==> 0 < used
    ensures outcome.Returned? ==> outcome.audio == None
    ensures outcome.Returned? ==>
              && (forall i :: 0 <= i < used ==> !Speech(frames[i]))
              && frames[used - 1].now - start > WaitLimit
    ensures outcome.Raised? ==> !Speech(frames[used - 1]) && !frames[used - 1].sendOk
    ensures outcome.Raised? ==> forall i :: 0 <= i < used ==> !Speech(frames[i])
    ensures statusTimes != [] ==> statusTimes[0] - start >= StatusInterval
    ensures forall k :: 0 < k < |statusTimes| ==> statusTimes[k] - statusTimes[k - 1] >= StatusInterval
  {
    var r := new Recorder(start);
    used, statusTimes := 0, [];
    outcome := Listening;
    var heard := false;
    while used < |frames|
      invariant used <= |frames|
      invariant r.Valid()
      invariant heard <==> r.recording
      invariant !heard ==> forall i :: 0 <= i < used ==> !Speech(frames[i])
      invariant !heard ==> r.startWaitingTime == start
      invariant statusTimes == [] ==> r.lastStatusTime == start
      invariant statusTimes != [] ==> r.lastStatusTime == statusTimes[|statusTimes| - 1]
      invariant statusTimes != [] ==> statusTimes[0] - start >= StatusInterval
      invariant forall k :: 0 < k < |statusTimes| ==> statusTimes[k] - statusTimes[k - 1] >= StatusInterval
      decreases |frames| - used
    {
      var f := frames[used];
      var event := r.Step(f);
      used := used + 1;
      heard := r.recording;
      if event == StatusSent {
        statusTimes := statusTimes + [f.now];
      } else if event == TimedOut {
        outcome := Returned(Encode(r.buffer));
        return;
      } else if event == SendRaised {
        outcome := Raised;
        return;
      }
    }
  }
}
