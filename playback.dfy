/** The playback side of the audio client (audio_client.py:60-177): a FIFO
    of `(text, audio)` clips, one worker that plays them one at a time while
    polling an interrupt flag, the two HTTP handlers that raise the flag and
    read back how much of the last clip was spoken, and the estimate of that
    spoken prefix.

    The sound device, the wall clock and the requests served while the
    worker sleeps are inputs: `Device` says how each device call site
    answers during one cycle (each site runs at most once per clip), and
    `Clock` gives every clock reading the cycle takes. Times and durations
    are exact reals. */
module Playback {
  import opened PyText
  import opened JsonValue
  import opened Decode

  /** The audio half of a queued clip: the worker only plays `bytes`. */
  datatype Payload = Bytes(data: seq<byte>) | NotBytes

  datatype Clip = Clip(text: string, payload: Payload)

  /** What one call into the sound device does: return normally, raise
      `sounddevice.PortAudioError`, or raise anything else. */
  datatype DeviceCall = Done | PortAudioError | OtherError

  /** How the device answers at each call site of one cycle: the `stop` and
      non-blocking `play` of the first attempt, the `stop` after an
      interrupt, and the `stop`, `wait` and blocking `play` of the recovery. */
  datatype Device = Device(stop: DeviceCall, play: DeviceCall, stopOnInterrupt: DeviceCall,
                           resetStop: DeviceCall, resetWait: DeviceCall, blockingPlay: DeviceCall)

  /** One turn of the polling loop: the clock reading compared against the
      duration, and whether a "Start speaking" request was served during the
      50 ms sleep that follows it. */
  datatype Tick = Tick(now: real, startSpeaking: bool)

  /** The clock readings of one cycle: `start` right after the non-blocking
      play, the polling ticks, whether a "Start speaking" request was served
      during the recovery's settling sleep, `resumed` right after the
      blocking play, and `end` when the spoken words are counted. */
  datatype Clock = Clock(start: real, ticks: seq<Tick>, settleStartSpeaking: bool, resumed: real, end: real)

  /** A clock that does not run backwards between the readings that matter. */
  predicate Monotone(c: Clock) {
    && c.start <= c.end
    && c.resumed <= c.end
    && forall i :: 0 <= i < |c.ticks| ==> c.start <= c.ticks[i].now <= c.end
  }

  datatype Ending = Interrupted | Completed | Recovered

  /** Exceptions nothing in the worker catches. They leave the worker task,
      make the `asyncio.gather` of the worker and both feeds fail, and
      propagate out of `asyncio.run`, which catches only
      `KeyboardInterrupt`: the whole audio client stops. */
  datatype Fault = Unreadable | BadShape | ZeroRate | DeviceFault

  /** What one turn of the worker comes to. `Waiting`: the queue is empty and
      the worker is suspended in `get()`. `StillPlaying`: the clock readings
      given ran out before the clip ended. */
  datatype Outcome =
    | Waiting
    | SkippedNotBytes
    | Crashed(fault: Fault)
    | StillPlaying
    | Played(ending: Ending, spoken: string)

  /** An HTTP answer: a text body, no response at all (the handler returned
      `None`), or a handler that raised. */
  datatype Reply = Text(body: string) | NoReply | Failed

  // ---------------------------------------------------------------------
  // Specification of one cycle
  // ---------------------------------------------------------------------

  /** How the polling loop ends when started at turn `i` with the interrupt
      flag equal to `flag`: stopped by the flag at turn `at`, ended because
      the clip's time elapsed at turn `at`, or still running when the ticks
      run out. */
  datatype PollEnd = Stopped(at: nat) | Elapsed(at: nat) | Exhausted

  function Poll(ticks: seq<Tick>, start: real, duration: real, i: nat, flag: bool): PollEnd
    requires i <= |ticks|
    decreases |ticks| - i
  {
    if flag then Stopped(i)
    else if i == |ticks| then Exhausted
    else if ticks[i].now - start >= duration then Elapsed(i)
    else Poll(ticks, start, duration, i + 1, ticks[i].startSpeaking)
  }

  /** Turns `lo` up to `hi` neither reached the duration nor served a request. */
  predicate Quiet(ticks: seq<Tick>, start: real, duration: real, lo: nat, hi: nat)
    requires lo <= hi <= |ticks|
  {
    forall j :: lo <= j < hi ==> ticks[j].now - start < duration && !ticks[j].startSpeaking
  }

  /** The number of words counted as spoken after `elapsed` seconds of a
      clip of `duration` seconds with `words` words: `int(elapsed / word_dur)`
      where `word_dur` is the duration per word, or 0 when that is 0. */
  function SpokenCount(elapsed: real, duration: real, words: nat): int {
    var wordDur := if words > 0 then duration / words as real else 0.0;
    if wordDur != 0.0 then Trunc(elapsed / wordDur) else 0
  }

  /** The spoken text for a clip started at `start` and assessed at `end`. */
  function SpokenText(words: seq<string>, start: real, end: real, duration: real): string {
    Join(PrefixSlice(words, SpokenCount(Min(end - start, duration), duration, |words|)))
  }

  /** What the first, non-blocking attempt comes to. */
  datatype Attempt = Raised(error: DeviceCall, served: bool) | Ended(ending: Ending) | Unfinished

  function FirstAttempt(d: Device, c: Clock, duration: real): Attempt {
    if d.stop != Done then Raised(d.stop, false)
    else if d.play != Done then Raised(d.play, false)
    else match Poll(c.ticks, c.start, duration, 0, false)
      case Exhausted => Unfinished
      case Elapsed(_) => Ended(Completed)
      case Stopped(_) => if d.stopOnInterrupt == Done then Ended(Interrupted) else Raised(d.stopOnInterrupt, true)
  }

  /** One cycle's outcome and whether a "Start speaking" request was served
      during it (which raised the flag and emptied the queue). */
  datatype Step = Step(outcome: Outcome, drained: bool)

  /** One turn of the worker on `clip`, given what the WAV reader yields for
      its bytes (`None`: it raised), the device and the clock. */
  function Cycle(clip: Clip, decoded: Option<Wav>, d: Device, c: Clock): Step {
    if clip.payload.NotBytes? then Step(SkippedNotBytes, false)
    else if decoded.None? then Step(Crashed(Unreadable), false)
    else match Arrange(decoded.value)
      case ShapeError => Step(Crashed(BadShape), false)
      case Laid(audio) =>
        if decoded.value.rate == 0 then Step(Crashed(ZeroRate), false)
        else
          var duration := Duration(audio, decoded.value.rate);
          var words := Split(clip.text);
          match FirstAttempt(d, c, duration)
          case Unfinished => Step(StillPlaying, false)
          case Ended(e) => Step(Played(e, SpokenText(words, c.start, c.end, duration)), e == Interrupted)
          case Raised(err, served) =>
            if err == OtherError || d.resetStop != Done || d.resetWait != Done then Step(Crashed(DeviceFault), served)
            else if d.blockingPlay != Done then Step(Crashed(DeviceFault), served || c.settleStartSpeaking)
            else Step(Played(Recovered, SpokenText(words, c.resumed - duration, c.end, duration)),
                      served || c.settleStartSpeaking)
  }

  /** The playback length of a clip the worker gets as far as playing. */
  function ClipDuration(decoded: Option<Wav>): real
    requires decoded.Some? && Arrange(decoded.value).Laid? && 0 < decoded.value.rate
  {
    Duration(Arrange(decoded.value).audio, decoded.value.rate)
  }

  /** A JSON object whose "message" is exactly "Start speaking". */
  predicate IsStartSpeaking(body: Raw) {
    && body.Parsed? && body.value.JObj?
    && "message" in body.value.fields
    && body.value.fields["message"] == JStr("Start speaking")
  }

  // ---------------------------------------------------------------------
  // Properties of the cycle
  // ---------------------------------------------------------------------

  /** From turn `i` with the flag clear, the polling loop stops on the flag
      one turn after the first request, ends at the first turn whose clock
      reading reaches the duration, and whichever comes first wins. */
  lemma {:induction false} PollFrom(ticks: seq<Tick>, start: real, duration: real, i: nat)
    requires i <= |ticks|
    ensures var p := Poll(ticks, start, duration, i, false);
      && (p.Stopped? ==> i < p.at <= |ticks| && ticks[p.at - 1].startSpeaking
                         && ticks[p.at - 1].now - start < duration
                         && Quiet(ticks, start, duration, i, p.at - 1))
      && (p.Elapsed? ==> i <= p.at < |ticks| && ticks[p.at].now - start >= duration
                         && Quiet(ticks, start, duration, i, p.at))
      && (p.Exhausted? ==> Quiet(ticks, start, duration, i, |ticks|))
    decreases |ticks| - i
  {
    if i < |ticks| && ticks[i].now - start < duration && !ticks[i].startSpeaking {
      PollFrom(ticks, start, duration, i + 1);
    }
  }

  /** The polling loop exits exactly when the flag is found set (one turn
      after the first served request) or when the clock first reaches the
      duration, whichever happens first; with neither it keeps polling. */
  lemma PollExits(ticks: seq<Tick>, start: real, duration: real, n: nat)
    requires n < |ticks|
    ensures var p := Poll(ticks, start, duration, 0, false);
      && (Quiet(ticks, start, duration, 0, n) && ticks[n].now - start >= duration ==> p == Elapsed(n))
      && ((Quiet(ticks, start, duration, 0, n) && ticks[n].now - start < duration && ticks[n].startSpeaking)
            ==> p == Stopped(n + 1))
      && (Quiet(ticks, start, duration, 0, |ticks|) <==> p == Exhausted)
  {
    PollFrom(ticks, start, duration, 0);
    var p := Poll(ticks, start, duration, 0, false);
    if p.Stopped? {
      assert !Quiet(ticks, start, duration, 0, |ticks|) by {
        assert ticks[p.at - 1].startSpeaking;
      }
    } else if p.Elapsed? {
      assert !Quiet(ticks, start, duration, 0, |ticks|) by {
        assert ticks[p.at].now - start >= duration;
      }
    }
  }

  /** The share of `words` words that `elapsed` seconds of a `duration`
      second clip stand for, rounded down: `floor(elapsed * words / duration)`. */
  function ElapsedShare(elapsed: real, duration: real, words: nat): int
    requires 0.0 < duration
  {
    (elapsed * (words as real) / duration).Floor
  }

  /** The spoken-word count: between 0 and the word count while the elapsed
      time is within the clip; 0 for an empty text or a zero-length clip;
      otherwise the elapsed share of the words, which is every word once the
      whole duration has elapsed. */
  lemma SpokenCountBounds(elapsed: real, duration: real, words: nat)
    requires 0.0 <= elapsed <= duration
    ensures var k := SpokenCount(elapsed, duration, words);
      && 0 <= k <= words
      && (duration == 0.0 || words == 0 ==> k == 0)
      && (0.0 < duration && 0 < words ==> k == ElapsedShare(elapsed, duration, words))
      && (0.0 < duration && elapsed == duration ==> k == words)
  {
    if 0.0 < duration && 0 < words {
      var w := words as real;
      var wordDur := duration / w;
      var x := elapsed / wordDur;
      var y := elapsed * w / duration;
      assert x == y by {
        assert wordDur * w == duration;
        assert x * wordDur == elapsed;
        assert y * duration == elapsed * w;
        assert x * duration == x * wordDur * w;
      }
      assert SpokenCount(elapsed, duration, words) == Trunc(x) == x.Floor == y.Floor;
      assert y <= w by {
        assert elapsed * w <= duration * w;
        DivMonotone(elapsed * w, duration * w, duration);
        assert duration * w / duration == w;
      }
      assert elapsed == duration ==> y == w;
      assert y == elapsed * (words as real) / duration;
      assert ElapsedShare(elapsed, duration, words) == y.Floor;
    }
  }

  lemma DivMonotone(a: real, b: real, d: real)
    requires 0.0 < d && a <= b
    ensures a / d <= b / d
  {
  }

  /** The text recorded for a clip is the first `k` words joined by single
      spaces, for the `k` of `SpokenCount`, and splitting it gives those
      words back. */
  lemma SpokenIsWordPrefix(words: seq<string>, start: real, end: real, duration: real)
    requires AllWords(words)
    requires start <= end && 0.0 <= duration
    ensures var k := SpokenCount(Min(end - start, duration), duration, |words|);
      && 0 <= k <= |words|
      && SpokenText(words, start, end, duration) == Join(words[..k])
      && Split(SpokenText(words, start, end, duration)) == words[..k]
  {
    var k := SpokenCount(Min(end - start, duration), duration, |words|);
    SpokenCountBounds(Min(end - start, duration), duration, |words|);
    assert PrefixSlice(words, k) == words[..k];
    assert AllWords(words[..k]);
    SplitJoin(words[..k]);
  }

  /** A played clip got through decoding, and its spoken text is counted
      from the start of the first attempt, or from `duration` before the
      blocking replay returned when the clip was recovered. */
  lemma PlayedSpoken(clip: Clip, decoded: Option<Wav>, d: Device, c: Clock)
    ensures var out := Cycle(clip, decoded, d, c).outcome;
      out.Played? ==>
        && decoded.Some? && Arrange(decoded.value).Laid? && 0 < decoded.value.rate
        && var duration := ClipDuration(decoded);
           var start := if out.ending == Recovered then c.resumed - duration else c.start;
           && out.spoken == SpokenText(Split(clip.text), start, c.end, duration)
           && (out.ending != Recovered ==> FirstAttempt(d, c, duration) == Ended(out.ending))
  {
  }

  /** Whatever way a clip is played to the end of a cycle, the spoken text
      is a normalised prefix of the clip's words: its own words, joined by
      single spaces, are a prefix of `text.split()`. */
  lemma PlayedSpeaksWordPrefix(clip: Clip, decoded: Option<Wav>, d: Device, c: Clock)
    requires Monotone(c)
    ensures var out := Cycle(clip, decoded, d, c).outcome;
      out.Played? ==> Split(out.spoken) <= Split(clip.text) && out.spoken == Join(Split(out.spoken))
  {
    var out := Cycle(clip, decoded, d, c).outcome;
    if out.Played? {
      PlayedSpoken(clip, decoded, d, c);
      var duration := ClipDuration(decoded);
      var start := if out.ending == Recovered then c.resumed - duration else c.start;
      SpokenIsWordPrefix(Split(clip.text), start, c.end, duration);
    }
  }

  /** A clip that plays to its end, or is replayed by the blocking recovery,
      reports its whole normalised text, except that a zero-length clip
      reports nothing (its time per word is 0). */
  lemma FinishedSpeaksAll(clip: Clip, decoded: Option<Wav>, d: Device, c: Clock)
    requires Monotone(c)
    ensures var out := Cycle(clip, decoded, d, c).outcome;
      out.Played? && out.ending != Interrupted ==>
        && decoded.Some? && Arrange(decoded.value).Laid? && 0 < decoded.value.rate
        && out.spoken == (if 0.0 < ClipDuration(decoded) then Join(Split(clip.text)) else "")
  {
    var out := Cycle(clip, decoded, d, c).outcome;
    if out.Played? && out.ending != Interrupted {
      PlayedSpoken(clip, decoded, d, c);
      var duration := ClipDuration(decoded);
      var words := Split(clip.text);
      var start := if out.ending == Recovered then c.resumed - duration else c.start;
      if out.ending == Completed {
        PollFrom(c.ticks, c.start, duration, 0);
      }
      assert Min(c.end - start, duration) == duration;
      SpokenCountBounds(duration, duration, |words|);
      assert PrefixSlice(words, |words|) == words;
    }
  }

  /** A clip stopped by an interrupt reports the first
      `floor(e * W / D)` words of its `W` words, where `D` is its duration
      and `e` the elapsed time capped at `D`; nothing when `D` or `W` is 0. */
  lemma InterruptedSpeaksElapsedShare(clip: Clip, decoded: Option<Wav>, d: Device, c: Clock)
    requires Monotone(c)
    ensures var out := Cycle(clip, decoded, d, c).outcome;
      out.Played? && out.ending == Interrupted ==>
        && decoded.Some? && Arrange(decoded.value).Laid? && 0 < decoded.value.rate
        && var duration := ClipDuration(decoded);
           var words := Split(clip.text);
           var e := Min(c.end - c.start, duration);
           && (duration == 0.0 || words == [] ==> out.spoken == "")
           && (0.0 < duration && words != [] ==>
                 var k := ElapsedShare(e, duration, |words|);
                 0 <= k <= |words| && out.spoken == Join(words[..k]))
  {
    var out := Cycle(clip, decoded, d, c).outcome;
    if out.Played? && out.ending == Interrupted {
      PlayedSpoken(clip, decoded, d, c);
      SharePrefix(Split(clip.text), c.start, c.end, ClipDuration(decoded));
    }
  }

  lemma SharePrefix(words: seq<string>, start: real, end: real, duration: real)
    requires start <= end && 0.0 <= duration
    ensures var e := Min(end - start, duration);
      && (duration == 0.0 || words == [] ==> SpokenText(words, start, end, duration) == "")
      && (0.0 < duration && words != [] ==>
            var k := ElapsedShare(e, duration, |words|);
            0 <= k <= |words| && SpokenText(words, start, end, duration) == Join(words[..k]))
  {
    var e := Min(end - start, duration);
    SpokenCountBounds(e, duration, |words|);
    var k := SpokenCount(e, duration, |words|);
    assert PrefixSlice(words, k) == words[..k];
  }

  /** The recovery happens at most once and only after a `PortAudioError`
      in the first attempt: a clip is `Recovered` exactly when that attempt
      raised `PortAudioError` and the reset and the blocking replay all
      returned; if any of those raises, the exception is not caught and the
      audio client stops instead of trying again. */
  lemma RecoveryOnlyOnce(clip: Clip, decoded: Option<Wav>, d: Device, c: Clock)
    requires clip.payload.Bytes? && decoded.Some? && Arrange(decoded.value).Laid? && 0 < decoded.value.rate
    ensures var out := Cycle(clip, decoded, d, c).outcome;
      var first := FirstAttempt(d, c, ClipDuration(decoded));
      && (out.Played? && out.ending == Recovered <==>
            first.Raised? && first.error == PortAudioError
            && d.resetStop == Done && d.resetWait == Done && d.blockingPlay == Done)
      && ((first.Raised? && first.error == PortAudioError
             && (d.resetStop != Done || d.resetWait != Done || d.blockingPlay != Done))
            ==> out == Crashed(DeviceFault))
  {
  }

  /** The flag is only ever raised, and the queue only emptied, by a
      "Start speaking" request served while the worker slept. */
  lemma DrainedOnlyByRequest(clip: Clip, decoded: Option<Wav>, d: Device, c: Clock)
    ensures Cycle(clip, decoded, d, c).drained ==>
              c.settleStartSpeaking || exists j :: 0 <= j < |c.ticks| && c.ticks[j].startSpeaking
  {
    if Cycle(clip, decoded, d, c).drained && !c.settleStartSpeaking {
      var duration := ClipDuration(decoded);
      PollFrom(c.ticks, c.start, duration, 0);
      var p := Poll(c.ticks, c.start, duration, 0, false);
      assert p.Stopped? && c.ticks[p.at - 1].startSpeaking;
    }
  }

  // ---------------------------------------------------------------------
  // The queue and the worker's state
  // ---------------------------------------------------------------------

  /** The unbounded `asyncio.Queue` of clips. */
  class ClipQueue {
    var items: seq<Clip>

    constructor ()
      ensures items == []
    {
      items := [];
    }

    /** `put_nowait`: the queue has no size bound, so it always succeeds. */
    method Put(c: Clip)
      modifies this
      ensures items == old(items) + [c]
    {
      items := items + [c];
    }

    method IsEmpty() returns (e: bool)
      ensures e <==> items == []
    {
      e := items == [];
    }

    /** `get_nowait`: the oldest clip, or `QueueEmpty` (here `None`). */
    method GetNowait() returns (c: Option<Clip>)
      modifies this
      ensures old(items) == [] ==> c == None && items == []
      ensures old(items) != [] ==> c == Some(old(items)[0]) && items == old(items)[1..]
    {
      if items == [] {
        c := None;
      } else {
        c := Some(items[0]);
        items := items[1..];
      }
    }
  }

  /** The worker's shared state: the queue, the interrupt flag
      (`stop_playback_event`) and the last spoken text. */
  class Agent {
    const queue: ClipQueue
    var interrupted: bool
    var spokenText: string

    constructor ()
      ensures fresh(queue) && queue.items == []
      ensures !interrupted && spokenText == ""
    {
      queue := new ClipQueue();
      interrupted := false;
      spokenText := "";
    }

    /** Raise the flag, then take clips off the queue until it is empty. */
    method Interrupt()
      modifies this, queue
      ensures interrupted && queue.items == []
      ensures spokenText == old(spokenText)
    {
      interrupted := true;
      while true
        invariant interrupted && spokenText == old(spokenText)
        modifies queue
        decreases |queue.items|
      {
        var empty := queue.IsEmpty();
        if empty {
          break;
        }
        var head := queue.GetNowait();
        if head.None? {
          break;
        }
      }
    }

    /** `POST /`: only a "Start speaking" message interrupts; it leaves the
        queue empty and answers "true". Any other JSON object gets no
        response and changes nothing; a body that is not a JSON object makes
        the handler raise. */
    method HandleStartSpeaking(body: Raw) returns (r: Reply)
      modifies this, queue
      ensures IsStartSpeaking(body) ==> r == Text("true") && interrupted && queue.items == []
      ensures !IsStartSpeaking(body) ==>
                && r == (if body.Parsed? && body.value.JObj? then NoReply else Failed)
                && interrupted == old(interrupted) && queue.items == old(queue.items)
      ensures spokenText == old(spokenText)
    {
      if !(body.Parsed? && body.value.JObj?) {
        return Failed;
      }
      var message := Get(body.value.fields, "message", JNull);
      if message == JStr("Start speaking") {
        Interrupt();
        r := Text("true");
      } else {
        r := NoReply;
      }
    }

    /** `POST /recording`: answers the current spoken text whatever the
        message says; a body that is not a JSON object makes it raise. */
    method HandleRecordingEnd(body: Raw) returns (r: Reply)
      ensures body.Parsed? && body.value.JObj? ==> r == Text(spokenText)
      ensures !(body.Parsed? && body.value.JObj?) ==> r == Failed
    {
      if !(body.Parsed? && body.value.JObj?) {
        return Failed;
      }
      r := Text(spokenText);
    }

    /** The polling loop of the first attempt: check the flag, then the
        elapsed time, then sleep 50 ms, during which a "Start speaking"
        request may be served. */
    method AwaitEnd(ticks: seq<Tick>, start: real, duration: real) returns (end: PollEnd)
      requires !interrupted
      modifies this, queue
      ensures end == Poll(ticks, start, duration, 0, false)
      ensures interrupted == end.Stopped?
      ensures queue.items == (if interrupted then [] else old(queue.items))
      ensures spokenText == old(spokenText)
    {
      var i := 0;
      while true
        invariant 0 <= i <= |ticks|
        invariant Poll(ticks, start, duration, i, interrupted) == Poll(ticks, start, duration, 0, false)
        invariant queue.items == (if interrupted then [] else old(queue.items))
        invariant spokenText == old(spokenText)
        decreases |ticks| - i
      {
        if interrupted {
          return Stopped(i);
        }
        if i == |ticks| {
          return Exhausted;
        }
        if ticks[i].now - start >= duration {
          return Elapsed(i);
        }
        if ticks[i].startSpeaking {
          Interrupt();
        }
        i := i + 1;
      }
    }

    /** The try block of the first attempt: stop the device, start a
        non-blocking play and poll until the flag or the duration ends it. */
    method TryPlay(device: Device, clock: Clock, duration: real) returns (first: Attempt)
      requires !interrupted
      modifies this, queue
      ensures first == FirstAttempt(device, clock, duration)
      ensures interrupted == ((first.Ended? && first.ending == Interrupted) || (first.Raised? && first.served))
      ensures queue.items == (if interrupted then [] else old(queue.items))
      ensures spokenText == old(spokenText)
    {
      if device.stop != Done {
        return Raised(device.stop, false);
      }
      if device.play != Done {
        return Raised(device.play, false);
      }
      var end := AwaitEnd(clock.ticks, clock.start, duration);
      if end.Exhausted? {
        first := Unfinished;
      } else if end.Elapsed? {
        first := Ended(Completed);
      } else if device.stopOnInterrupt == Done {
        first := Ended(Interrupted);
      } else {
        first := Raised(device.stopOnInterrupt, true);
      }
    }

    /** One turn of `playback_worker`: take the oldest clip, clear the flag,
        decode, play while polling the flag, recover once from a
        `PortAudioError` with a blocking play, then record the spoken text.
        `decoded` is what the WAV reader yields for the clip's bytes. */
    method PlayNext(decoded: Option<Wav>, device: Device, clock: Clock) returns (outcome: Outcome)
      modifies this, queue
      ensures old(queue.items) == [] ==>
                && outcome == Waiting && queue.items == []
                && interrupted == old(interrupted) && spokenText == old(spokenText)
      ensures old(queue.items) != [] ==>
                var step := Cycle(old(queue.items)[0], decoded, device, clock);
                && outcome == step.outcome
                && interrupted == step.drained
                && queue.items == (if step.drained then [] else old(queue.items)[1..])
                && spokenText == (if outcome.Played? then outcome.spoken else old(spokenText))
    {
      var next := queue.GetNowait();
      if next.None? {
        return Waiting;
      }
      var clip := next.value;
      ghost var rest := queue.items;
      interrupted := false;
      if clip.payload.NotBytes? {
        return SkippedNotBytes;
      }
      if decoded.None? {
        return Crashed(Unreadable);
      }
      var layout := Arrange(decoded.value);
      if layout.ShapeError? {
        return Crashed(BadShape);
      }
      if decoded.value.rate == 0 {
        return Crashed(ZeroRate);
      }
      var duration := FrameCount(layout.audio) as real / decoded.value.rate as real;
      var words := Split(clip.text);
      var wordDur := if |words| > 0 then duration / |words| as real else 0.0;

      var start := clock.start;
      var ending := Completed;
      for attempt := 1 to 3
        invariant attempt == 1
        invariant queue.items == rest && !interrupted && spokenText == old(spokenText)
      {
        var first := TryPlay(device, clock, duration);
        if first.Unfinished? {
          return StillPlaying;
        }
        if first.Ended? {
          ending := first.ending;
        } else {
          // the except clauses: only PortAudioError is caught
          if first.error == OtherError {
            return Crashed(DeviceFault);
          }
          if attempt == 2 {
            assert false;
          }
          if device.resetStop != Done || device.resetWait != Done {
            return Crashed(DeviceFault);
          }
          if clock.settleStartSpeaking {
            Interrupt();
          }
          if device.blockingPlay != Done {
            return Crashed(DeviceFault);
          }
          start := clock.resumed - duration;
          ending := Recovered;
        }
        break;
      }

      var elapsed := Min(clock.end - start, duration);
      var spokenWords := if wordDur != 0.0 then Trunc(elapsed / wordDur) else 0;
      spokenText := Join(PrefixSlice(words, spokenWords));
      outcome := Played(ending, spokenText);
    }
  }
}
