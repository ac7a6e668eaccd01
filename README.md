# Robot audio clients: playback, feeds and speech capture

A Dafny model of the two audio clients of a classroom robot.

The **audio client** (`audio_client.py`) plays spoken answers. A single
worker takes `(text, wav bytes)` clips off an unbounded FIFO one at a time.
For each clip it does the following:

- It clears the interrupt flag and lays the int16 samples out frame-major
  (`_decode_wav`).
- It plays the clip while polling the flag every 50 ms.
- On a `PortAudioError` it recovers once, with a blocking replay.
- Finally it records how many words of the clip's text were spoken before
  the stop: the first `floor(elapsed / (duration / #words))` words, joined
  by single spaces.

Two HTTP handlers raise the flag and flush the queue (`POST /`), and read
back the spoken text (`POST /recording`). Two feed connections, "primary"
and "lecture", reconnect forever with a `min(60, 2^retry)` second backoff.
They turn inbound JSON messages into clips; the primary feed first
registers and drops messages addressed to other robots.

The **speech client** (`speech_client.py`) records the user. A per-frame
state machine over 30 ms microphone chunks uses a voice activity detector
and a 3000 peak threshold. Recordings are stashed and uploaded in order. A
reconnect loop gives up after the sixth consecutive failure, and a backend
menu is consulted once.

Device, socket, clock, microphone, detector and terminal are inputs to the
model: each cycle or connection attempt is given the answers those would
produce. Times are exact reals, and integers are unbounded.

Modules:

- `PyText`: the Python string semantics the clients rely on.
  - `str.split()`, `str.strip()` and `" ".join`, with Python's whitespace
    set.
  - Slicing with negative bounds.
  - `int()` truncation.
- `JsonValue`: parsed JSON, truthiness and `dict.get`.
- `Decode`: the sample layout.
- `Playback`:
  - the worker cycle as a specification function `Cycle`, and the
    `Agent` class whose `PlayNext` method is proved against it;
  - the queue class and the handlers.
- `Feed`: message classification and the `Connector` class with its retry
  counter.
- `Recorder`: `record_audio`.
- `SpeechClient`: the menu, the stash and the reconnect loop.

What the code as written does that a reader may not expect:

- The clip queue has no size bound (`asyncio.Queue()` without `maxsize`):
  putting a clip never waits and never drops one.
- A clip the WAV reader rejects, a bad channel layout, a zero sample rate
  and a failure inside the blocking recovery are not caught (`Crashed`).
  The exception leaves the worker and fails the `asyncio.gather` in `main`
  (audio_client.py:255). It then escapes `asyncio.run`, which catches only
  `KeyboardInterrupt` (audio_client.py:259-262), so the whole audio client
  stops, feeds and HTTP server included.
- The feed's call to `enqueue_clip` names a function that exists only in a
  comment. The resulting `NameError` is swallowed by the conversion-error
  handler, so feed clips never reach the queue. `Classify` returns the clip
  that would have been enqueued.
- `bytes(audio)` also accepts a positive integer up to `sys.maxsize`
  (that many zero bytes) and `true`, not only a list of byte values.
- A connection whose inbound stream ends cleanly loops straight back to
  connecting, without counting a failure or sleeping.
- The retry counter is reset on connect, before the registration message
  is sent. A failed registration therefore sleeps 2 seconds.
- In the speech client, `record_audio` never returns a recording, as
  proved by `Recorder.Record`:
  - speech sets `recording` for good;
  - the loop is left only from the idle branch;
  - `SILENCE_THRESHOLD` is never read.
- Building the upload message reads an undefined `spoken_text` and raises
  a fatal `NameError` (`SpeechClient.AsWrittenSpeechRound`). The stash
  path is still modelled in full, with the step that raises given as an
  input.

## Model

| member | source | states |
|---|---|---|
| PyText.Split | audio_client.py:105 | every piece `text.split()` yields is a non-empty word free of whitespace |
| PyText.SplitBlank | audio_client.py:105 | a text of whitespace only has no words |
| PyText.SplitWord | audio_client.py:105 | a single word splits into itself |
| PyText.SplitAtSpace | audio_client.py:105 | any whitespace character separates: the words of `a c b` are those of `a` then those of `b`, so the words are the maximal non-space runs in order |
| PyText.SplitJoin | audio_client.py:105-138 | splitting words joined by single spaces gives back exactly those words |
| PyText.SplitJoinPrefix | audio_client.py:136-138 | a joined prefix of the words splits back into that prefix |
| PyText.NormaliseIdempotent | audio_client.py:105-138 | normalising a text (split, then join by spaces) is idempotent |
| PyText.Strip | speech_client.py:130 | `strip()` is a slice of the input with only whitespace cut at either end and none left at the ends |
| PyText.StripPadded | speech_client.py:130 | stripping whitespace padding around a core returns the core |
| PyText.PrefixSlice | audio_client.py:138 | `words[:k]` is always a prefix of `words`: of length `k` when `0 <= k <= len`, all of it past the end, all but the last `-k` for negative `k`, and empty past the start |
| PyText.Trunc | audio_client.py:137 | `int(x)` is the integer next to `x` on the side of zero: `n <= x < n + 1` for `x >= 0`, `n - 1 < x <= n` for `x < 0` |
| Decode.Rows | audio_client.py:79-80 | `reshape(-1, n_ch)` makes `#samples / n_ch` rows of `n_ch` samples |
| Decode.Duration | audio_client.py:98 | duration is non-negative and times the rate equals the frame count |
| Decode.RowsFrameMajor | audio_client.py:79-80 | row `i`, column `c` holds sample `i * n_ch + c` |
| Decode.FlattenRows | audio_client.py:79-80 | interleaving the rows gives back the samples |
| Decode.ArrangeLayout | audio_client.py:78-81 | layout fails iff several channels do not divide the sample count; mono keeps the samples, several channels give frame-major rows that interleave back to the samples |
| Playback.PollFrom | audio_client.py:113-120 | the poll loop stops one turn after the first request, ends at the first reading reaching the duration, all earlier turns being quiet |
| Playback.PollExits | audio_client.py:113-120 | the poll loop exits exactly on the flag or on elapsed >= duration, and keeps polling iff neither happens |
| Playback.SpokenCountBounds | audio_client.py:105-137 | the spoken-word count is within `[0, W]`, is 0 when `W` or the duration is 0, equals `floor(e * W / D)`, and is `W` at `e = D` |
| Playback.SpokenIsWordPrefix | audio_client.py:136-138 | the spoken text is the first `k` words joined by spaces and splits back into them |
| Playback.PlayedSpoken | audio_client.py:93-138 | a played clip was decoded with a positive rate, and its words are counted from the play start, or from `duration` before the blocking replay returned |
| Playback.PlayedSpeaksWordPrefix | audio_client.py:105-138 | for any played clip the spoken text's words are a prefix of `text.split()` and the text is normalised |
| Playback.FinishedSpeaksAll | audio_client.py:118-138 | a clip played to its end or recovered by the blocking replay reports its whole normalised text, or nothing if it lasts 0 s |
| Playback.InterruptedSpeaksElapsedShare | audio_client.py:114-138 | an interrupted clip reports the first `floor(min(now - start, D) * W / D)` words |
| Playback.RecoveryOnlyOnce | audio_client.py:108-133 | a clip is `Recovered` iff the first attempt raised `PortAudioError` and reset and blocking replay returned; any failure in the recovery is uncaught and stops the audio client |
| Playback.DrainedOnlyByRequest | audio_client.py:114-120 | the flag is raised and the queue emptied only when a "Start speaking" request was served during a sleep |
| Playback.ClipQueue.constructor | audio_client.py:63 | the queue starts empty |
| Playback.ClipQueue.Put | audio_client.py:63 | putting appends at the back and always succeeds |
| Playback.ClipQueue.IsEmpty | audio_client.py:164 | empty iff no clip is queued |
| Playback.ClipQueue.GetNowait | audio_client.py:164-168 | takes the oldest clip, or reports an empty queue and changes nothing |
| Playback.Agent.constructor | audio_client.py:63-65 | empty queue, flag clear, spoken text empty |
| Playback.Agent.Interrupt | audio_client.py:161-168 | sets the flag and leaves the queue empty, the spoken text unchanged |
| Playback.Agent.HandleStartSpeaking | audio_client.py:158-169 | "Start speaking" sets the flag, empties the queue and answers "true"; any other object changes nothing and gets no response; a non-object raises |
| Playback.Agent.HandleRecordingEnd | audio_client.py:172-176 | answers the current spoken text whatever the message |
| Playback.Agent.AwaitEnd | audio_client.py:113-120 | the polling loop ends as `Poll` says; the flag is set and the queue emptied exactly when it stopped on the flag |
| Playback.Agent.TryPlay | audio_client.py:109-121 | the try block's result is `FirstAttempt`; the flag ends set exactly when a request was served during it |
| Playback.Agent.PlayNext | audio_client.py:86-142 | one worker turn equals `Cycle` on the oldest clip: queue, flag and spoken text end as the cycle says, and an empty queue changes nothing |
| Feed.BytesOfItems | audio_client.py:233 | `bytes(list)` succeeds iff every element converts, keeping order and length |
| Feed.AudioAccepted | audio_client.py:229-238 | an `audio` field yields bytes iff it is a non-empty list of byte values or bools, a positive int no larger than `sys.maxsize`, or `true`; list values are kept and an int gives zero bytes |
| Feed.ClassifyOutcomes | audio_client.py:218-238 | each handling by message shape: bad JSON skipped, non-objects end the connection, other robots ignored on primary, a clip iff the audio converts, carrying `text` (default "") |
| Feed.HandleInOrder | audio_client.py:218-238 | messages are handled in arrival order until and including the first one that escapes |
| Feed.BackoffSchedule | audio_client.py:241 | delays are 2, 4, 8, 16, 32 s for the first five failures, 60 s from the sixth, always within `[2, 60]` |
| Feed.DelaysBounded | audio_client.py:239-243 | every sleep lasts 2 to 60 seconds |
| Feed.ConnectResets | audio_client.py:207 | a clean connection loops back without sleeping, with the counter at 0; a failed connection sleeps 2 s whatever the counter was |
| Feed.RefusalStreak | audio_client.py:239-243 | consecutive refusals sleep `min(60, 2^(r+1))`, `min(60, 2^(r+2))`, … and raise the counter by one each |
| Feed.Connector.constructor | audio_client.py:202 | the counter starts at 0 |
| Feed.Connector.Session | audio_client.py:203-243 | one pass sends the "register" message once connected (primary feed only, none when refused or on the lecture feed), handles messages in order, and sets the counter and sleep as `NextRetry`/`Backoff` say |
| Feed.Connector.Run | audio_client.py:203-243 | successive passes produce exactly the `Delays` sleeps |
| Recorder.WrappedAbs | speech_client.py:66 | numpy's int16 `abs` leaves -32768 unchanged and is the magnitude otherwise |
| Recorder.Peak | speech_client.py:66 | the peak is one sample's wrapped magnitude and no smaller than any |
| Recorder.LoudIff | speech_client.py:66 | a chunk reaches 3000 iff some sample other than -32768 has magnitude at least 3000 |
| Recorder.ConcatInOrder | speech_client.py:103 | sample `j` of chunk `i` lands at `i * 480 + j` of the joined frames |
| Recorder.EncodeRecording | speech_client.py:94-106 | an empty buffer gives `None`; otherwise mono 16-bit 16000 Hz audio of every chunk in recording order |
| Recorder.Recorder.constructor | speech_client.py:43-55 | idle, empty buffer, both timers at the start time |
| Recorder.Recorder.Step | speech_client.py:58-86 | speech appends and resets silence and timer; quiet while recording appends and counts silence; idle times out after 5 s or sends a status every 10 s; recording never reverts |
| Recorder.Record | speech_client.py:41-106 | returns, or raises from a status send, only while no speech frame has been seen, so once speech is heard the call never ends and it never returns a recording; statuses are at least 10 s apart |
| SpeechClient.SelectedIff | speech_client.py:130-133 | a line selects a backend iff it is a menu key with only whitespace around it, and the backend is that key's (the converse of `MenuEntry`) |
| SpeechClient.FirstSelectedSpec | speech_client.py:126-134 | the choice is the first selecting line's backend, all earlier lines rejected; none iff no line selects |
| SpeechClient.MenuEntry | speech_client.py:117-133 | a padded menu key selects its backend, one of the six ids |
| SpeechClient.ChooseBackend | speech_client.py:108-134 | reads lines until the first that selects a backend, and reports it |
| SpeechClient.FirstIndex | speech_client.py:180 | the position `list.remove` looks for: an element equal to `x` with none before it |
| SpeechClient.RemoveFirst | speech_client.py:180 | `list.remove` drops exactly the first occurrence (at `FirstIndex`), keeps the rest in order, and takes out one copy of `x` |
| SpeechClient.Delivered | speech_client.py:169-181 | the number of uploads whose send returned, all of them when nothing raises |
| SpeechClient.Stash.constructor | speech_client.py:35 | the stash starts empty |
| SpeechClient.Stash.Push | speech_client.py:136-138 | `push` appends |
| SpeechClient.Stash.SendAll | speech_client.py:169-182 | sent items then remaining items are the old stash; the count sent is `Delivered`; the failure is the fault's kind iff it strikes |
| SpeechClient.GiveUpOnSixth | speech_client.py:188-203 | from counter `r`, handled failures sleep 5 s `5 - r` times and the next one gives up |
| SpeechClient.ConnectResets | speech_client.py:156-159 | after a connection opens the counter is 0, or 1 when it later fails with a sleep; it never gives up |
| SpeechClient.BackendKept | speech_client.py:160-161 | a chosen backend is kept across every later reconnect |
| SpeechClient.RoundsKeepOrder | speech_client.py:165-182 | the pending stash is one contiguous run of the old stash followed by the new recordings |
| SpeechClient.AsWrittenSpeechRound | speech_client.py:172-179 | as written, the first kept recording ends the client with nothing sent and the recording still stashed |
| SpeechClient.Client.constructor | speech_client.py:142-145 | counter 0, no backend, empty stash |
| SpeechClient.Client.Fail | speech_client.py:188-203 | a handled failure counts and sleeps 5 s while the count is at most 5, then gives up; any other exception ends the client |
| SpeechClient.Client.Session | speech_client.py:147-203 | one pass changes counter, backend and stash exactly as `Next` says |
| SpeechClient.Client.Run | speech_client.py:147-203 | successive passes end exactly as `RunSpec` says, stopping at the first that does not sleep |

## Left out

- WAV container parsing and writing, the float scaling by 1/32768 and base64 encoding (RFC 4648 section 4). The WAV reader's result is an input (`Option<Wav>`) and recordings are kept as samples.
- sounddevice/PortAudio, PyAudio and webrtcvad: each device call, chunk and detector verdict is an input that returns or raises.
- The websockets transport, JSON parsing and the aiohttp server with its bind failure and `sys.exit(1)` path: messages arrive already parsed.
- asyncio scheduling, `gather` and the sleeps: requests served during a sleep are flags on the clock readings, and sleeps are reported as their length.
- Floating-point rounding: times, durations and the word count use exact reals. Under IEEE doubles, `elapsed == duration` can yield one word fewer.
- The `isinstance(text, dict)` branch of the worker (audio_client.py:102-103): clip texts are strings in the model.
- The commented-out older copy of the audio client (audio_client.py:266-459) and the commented-out `enqueue_clip` (audio_client.py:147-153).
- Terminal input through `run_in_executor`, `datetime` and `tzlocal` in the speech client: menu lines are an input, and the time fields of the upload message are not modelled.
- vision_client.py is not part of this model.
- Playback.Agent.PlayNext: every clock reading is given in `Clock`; time going backwards is covered by modelling Python's `int()` truncation and negative slicing, and the lemmas assume a monotone clock (`Monotone`).
- Recorder.Recorder.Step: the up to three `time.time()` readings of one loop iteration are taken as a single reading per frame.
- Recorder.Record: `stream.read` and the stream clean-up are not modelled as failing.
- SpeechClient.Client.Session: a recording round is abstracted to its result (`Round`); `Recorder.Record` shows separately that, as written, only `Silence` and `ListenFailed` rounds occur.
- Feed.AudioAccepted: an integer count up to `sys.maxsize` that exceeds the memory available raises `MemoryError`, which the same handler catches; the model treats every such count as converting.
- Feed.Connector.Session: an `Attempt` carries a finite list of inbound messages; an endless stream is observed through its finite prefixes.
