/** The connection side of the speech client (speech_client.py:108-203): the
    backend menu, the stash of recordings waiting to be uploaded, and the
    reconnect loop with its bounded retry counter. The socket, the terminal
    and the microphone are inputs: a connection attempt arrives as an
    `Attempt` holding the menu input typed during it and the outcome of each
    recording round. */
module SpeechClient {
  import opened JsonValue
  import opened PyText

  const MaxRetries: nat := 5
  /** Declared by the client and never read by it. */
  const RetryDelay: nat := 6
  /** Seconds slept after a handled connection failure. */
  const ReconnectSleep: nat := 5

  /** The backend menu: entry number to transcription backend. */
  const Options: map<string, string> :=
    map["1" := "whisper-1", "2" := "gpt-4o-transcribe", "3" := "gpt-4o-mini-transcribe",
        "4" := "en-US", "5" := "hi-IN", "6" := "te-IN"]

  /** The backend one typed line selects, if any. */
  function Selected(line: string): Option<string> {
    if Strip(line) in Options then Some(Options[Strip(line)]) else None
  }

  /** The first line that selects a backend, if any. */
  function FirstSelected(lines: seq<string>): Option<string> {
    if lines == [] then None
    else if Selected(lines[0]).Some? then Selected(lines[0])
    else FirstSelected(lines[1..])
  }

  /** The menu accepts exactly the entries "1" to "6", with surrounding
      whitespace ignored, and the first accepted line decides: every line
      before it is rejected, and nothing is chosen when no line is
      accepted. */
  lemma {:induction false} FirstSelectedSpec(lines: seq<string>)
    ensures FirstSelected(lines).None? <==> forall i :: 0 <= i < |lines| ==> Selected(lines[i]).None?
    ensures FirstSelected(lines).Some? ==>
              exists n :: 0 <= n < |lines| && FirstSelected(lines) == Selected(lines[n])
                          && forall i :: 0 <= i < n ==> Selected(lines[i]).None?
    decreases |lines|
  {
    if lines == [] {
    } else if Selected(lines[0]).Some? {
      assert FirstSelected(lines) == Selected(lines[0]);
    } else {
      var rest := lines[1..];
      FirstSelectedSpec(rest);
      assert FirstSelected(lines) == FirstSelected(rest);
      if FirstSelected(rest).Some? {
        var n :| 0 <= n < |rest| && FirstSelected(rest) == Selected(rest[n])
                 && forall i :: 0 <= i < n ==> Selected(rest[i]).None?;
        assert rest[n] == lines[n + 1];
        forall i | 0 <= i < n + 1
          ensures Selected(lines[i]).None?
        {
          if i > 0 {
            assert lines[i] == rest[i - 1];
          }
        }
      } else {
        forall i | 0 <= i < |lines|
          ensures Selected(lines[i]).None?
        {
          if i > 0 {
            assert lines[i] == rest[i - 1];
          }
        }
      }
    }
  }

  /** A menu entry typed with whitespace around it selects the entry's
      backend, and every backend the menu can yield is one of the six. */
  lemma MenuEntry(pre: string, key: string, post: string)
    requires key in Options
    requires forall k :: 0 <= k < |pre| ==> IsSpace(pre[k])
    requires forall k :: 0 <= k < |post| ==> IsSpace(post[k])
    ensures Selected(pre + key + post) == Some(Options[key])
    ensures Options[key] in {"whisper-1", "gpt-4o-transcribe", "gpt-4o-mini-transcribe", "en-US", "hi-IN", "te-IN"}
  {
    KeyShape(key);
    StripPadded(pre, key, post);
    BackendIds(key);
  }

  /** A menu key with only whitespace around it, at `line[i..j]`. */
  predicate PaddedKey(line: string, i: int, j: int) {
    && 0 <= i <= j <= |line| && line[i..j] in Options
    && (forall k :: 0 <= k < i ==> IsSpace(line[k]))
    && (forall k :: j <= k < |line| ==> IsSpace(line[k]))
  }

  /** The converse of `MenuEntry`: a line selects a backend exactly when it
      is a menu key with only whitespace around it, and then the backend is
      that key's. */
  lemma SelectedIff(line: string)
    ensures Selected(line).Some? <==> exists i, j :: PaddedKey(line, i, j)
    ensures Selected(line).Some? ==>
              exists i, j :: PaddedKey(line, i, j) && Selected(line).value == Options[line[i..j]]
  {
    if Selected(line).Some? {
      SelectedIsPadded(line);
    }
    if exists i, j :: PaddedKey(line, i, j) {
      var i, j :| PaddedKey(line, i, j);
      PaddedSelects(line, i, j);
    }
  }

  lemma SelectedIsPadded(line: string)
    requires Selected(line).Some?
    ensures exists i, j :: PaddedKey(line, i, j) && Selected(line).value == Options[line[i..j]]
  {
    var i, j :| 0 <= i <= j <= |line| && Strip(line) == line[i..j]
                && (forall k :: 0 <= k < i ==> IsSpace(line[k]))
                && (forall k :: j <= k < |line| ==> IsSpace(line[k]));
    assert PaddedKey(line, i, j);
  }

  lemma PaddedSelects(line: string, i: int, j: int)
    requires PaddedKey(line, i, j)
    ensures Selected(line) == Some(Options[line[i..j]])
  {
    var pre, key, post := line[..i], line[i..j], line[j..];
    assert line == pre + key + post;
    assert forall k :: 0 <= k < |pre| ==> pre[k] == line[k];
    assert forall k :: 0 <= k < |post| ==> post[k] == line[j + k];
    MenuEntry(pre, key, post);
  }

  /** Every menu key is a single non-space character. */
  lemma KeyShape(key: string)
    requires key in Options
    ensures |key| == 1 && !IsSpace(key[0])
  {
  }

  lemma BackendIds(key: string)
    requires key in Options
    ensures Options[key] in {"whisper-1", "gpt-4o-transcribe", "gpt-4o-mini-transcribe", "en-US", "hi-IN", "te-IN"}
  {
  }

  /** `get_backend_choice`: read lines until one selects a backend. `used`
      is the number of lines read; when none selects, all are read and the
      prompt is still open. */
  method ChooseBackend(lines: seq<string>) returns (choice: Option<string>, used: nat)
    ensures choice == FirstSelected(lines)
    ensures used <= |lines|
    ensures choice.None? ==> used == |lines|
    ensures choice.Some? ==> 0 < used && choice == Selected(lines[used - 1])
    ensures forall i :: 0 <= i < used - 1 ==> Selected(lines[i]).None?
  {
    used := 0;
    while used < |lines|
      invariant used <= |lines|
      invariant FirstSelected(lines) == FirstSelected(lines[used..])
      invariant forall i :: 0 <= i < used ==> Selected(lines[i]).None?
    {
      assert lines[used..][0] == lines[used] && lines[used..][1..] == lines[used + 1..];
      var line := Strip(lines[used]);
      assert Selected(lines[used]) == if line in Options then Some(Options[line]) else None;
      used := used + 1;
      if line in Options {
        return Some(Options[line]), used;
      }
    }
    return None, used;
  }

  /** The position of the first element equal to `x`. */
  function FirstIndex<T(==)>(xs: seq<T>, x: T): (i: nat)
    requires x in xs
    ensures i < |xs| && xs[i] == x && x !in xs[..i]
  {
    if xs[0] == x then 0
    else
      var k := FirstIndex(xs[1..], x);
      assert xs[..k + 1] == [xs[0]] + xs[1..][..k];
      k + 1
  }

  /** `list.remove(x)`: drop the first element equal to `x`, keeping the
      others in order. */
  function RemoveFirst<T(==)>(xs: seq<T>, x: T): (r: seq<T>)
    requires x in xs
    ensures |r| == |xs| - 1
    ensures multiset(r) + multiset{x} == multiset(xs)
    ensures r == xs[..FirstIndex(xs, x)] + xs[FirstIndex(xs, x) + 1..]
  {
    var i := FirstIndex(xs, x);
    var r := (
      if xs[0] == x then
        assert i == 0 && xs[..0] == [];
        xs[1..]
      else
        assert xs == [xs[0]] + xs[1..] && x in xs[1..];
        var k := FirstIndex(xs[1..], x);
        assert i == k + 1;
        ConsSlices(xs, k);
        [xs[0]] + RemoveFirst(xs[1..], x));
    assert r == xs[..i] + xs[i + 1..];
    DropAt(xs, i);
    r
  }

  /** Putting the head back in front of a slice pair of the tail. */
  lemma ConsSlices<T>(xs: seq<T>, k: nat)
    requires k + 1 < |xs|
    ensures [xs[0]] + (xs[1..][..k] + xs[1..][k + 1..]) == xs[..k + 1] + xs[k + 2..]
  {
    assert xs[..k + 1] == [xs[0]] + xs[1..][..k];
    assert xs[k + 2..] == xs[1..][k + 1..];
  }

  /** Dropping the element at `i` takes exactly that element out. */
  lemma DropAt<T>(xs: seq<T>, i: nat)
    requires i < |xs|
    ensures multiset(xs[..i] + xs[i + 1..]) + multiset{xs[i]} == multiset(xs)
  {
    assert xs == xs[..i] + [xs[i]] + xs[i + 1..];
  }

  /** How an exception ends a connection: a `ConnectionClosedError`,
      `InvalidMessage` or `OSError` is handled by the retry loop; anything
      else ends the client. */
  datatype Failure = Handled | Fatal

  /** The three steps of one upload: building the message, sending it and
      awaiting the reply (the stash entry is removed between the last two). */
  datatype Stage = Build | Send | Recv

  /** The first step of the upload loop that raises: at item `index`,
      stage `stage`, with an exception of kind `kind`. As written, building
      the first message always raises a `NameError`, which is fatal. */
  datatype SendFault = SendFault(index: nat, stage: Stage, kind: Failure)

  const AsWrittenFault: SendFault := SendFault(0, Build, Fatal)

  /** Whether the fault strikes within a stash of `n` items. */
  predicate Strikes(n: nat, fault: Option<SendFault>) {
    fault.Some? && fault.value.index < n
  }

  /** How many stash items are removed: those whose send returned. */
  function Delivered(n: nat, fault: Option<SendFault>): (k: nat)
    ensures k <= n
    ensures !Strikes(n, fault) ==> k == n
  {
    if !Strikes(n, fault) then n
    else fault.value.index + (if fault.value.stage == Recv then 1 else 0)
  }

  /** The global list of base64 recordings not yet uploaded. */
  class Stash {
    var items: seq<string>

    constructor ()
      ensures items == []
    {
      items := [];
    }

    /** `push`: append a recording. */
    method Push(audio: string)
      modifies this
      ensures items == old(items) + [audio]
    {
      items := items + [audio];
    }

    /** The upload loop over a snapshot of the stash: each item is sent and
        then removed, so when a step raises, the items not yet sent stay in
        the stash, in order, for the next round. */
    method SendAll(fault: Option<SendFault>) returns (sent: seq<string>, failure: Option<Failure>)
      modifies this
      ensures sent + items == old(items)
      ensures |sent| == Delivered(|old(items)|, fault)
      ensures failure == (if Strikes(|old(items)|, fault) then Some(fault.value.kind) else None)
    {
      var snapshot := items;
      sent, failure := [], None;
      var i := 0;
      while i < |snapshot|
        invariant i <= |snapshot|
        invariant sent == snapshot[..i] && items == snapshot[i..]
        invariant fault.None? || i <= fault.value.index
      {
        var audio := snapshot[i];
        if fault.Some? && fault.value.index == i && fault.value.stage != Recv {
          failure := Some(fault.value.kind);
          assert sent + items == snapshot;
          return;
        }
        sent := sent + [audio];
        items := RemoveFirst(items, audio);
        assert snapshot[..i + 1] == snapshot[..i] + [snapshot[i]];
        i := i + 1;
        if fault.Some? && fault.value.index == i - 1 {
          failure := Some(fault.value.kind);
          assert sent + items == snapshot;
          return;
        }
      }
      assert snapshot[..i] == snapshot;
    }
  }

  /** One `record_audio` round of a connection: it returned `None` (no
      speech), returned a recording whose upload then meets `fault`, or
      raised. */
  datatype Round = Silence | Speech(audio: string, fault: Option<SendFault>) | ListenFailed(kind: Failure)

  /** One pass of the reconnect loop: connecting or sending the id raised,
      or the connection opened with the menu input typed during it and the
      recording rounds run on it. */
  datatype Attempt = Unreachable(kind: Failure) | Opened(menu: seq<string>, rounds: seq<Round>)

  /** How a pass ends: sleeping before the next one, giving up after too
      many failures, ending the client on an unhandled exception, or still
      running when the inputs run out. */
  datatype SessionEnd = Sleep(seconds: nat) | GaveUp | Crashed | Running

  datatype ClientState = ClientState(retry: nat, backend: Option<string>, stash: seq<string>)

  /** The exception handlers: a handled failure counts and sleeps 5 s
      while at most 5 have been counted, and the next one gives up. */
  function AfterFailure(retry: nat, kind: Failure): (nat, SessionEnd) {
    if kind == Fatal then (retry, Crashed)
    else if retry + 1 <= MaxRetries then (retry + 1, Sleep(ReconnectSleep))
    else (retry + 1, GaveUp)
  }

  /** The stash after the rounds of one connection, and the failure that
      ended them, if any. */
  function Rounds(stash: seq<string>, rounds: seq<Round>): (seq<string>, Option<Failure>)
    decreases |rounds|
  {
    if rounds == [] then (stash, None)
    else
      match rounds[0]
      case Silence => Rounds(stash, rounds[1..])
      case ListenFailed(kind) => (stash, Some(kind))
      case Speech(audio, fault) =>
        var pushed := stash + [audio];
        var left := pushed[Delivered(|pushed|, fault)..];
        if Strikes(|pushed|, fault) then (left, Some(fault.value.kind))
        else Rounds(left, rounds[1..])
  }

  /** The state after one pass of `process_audio_and_send`'s loop and how
      the pass ended. */
  function Next(st: ClientState, a: Attempt): (ClientState, SessionEnd) {
    match a
    case Unreachable(kind) =>
      var (r, e) := AfterFailure(st.retry, kind);
      (st.(retry := r), e)
    case Opened(menu, rounds) =>
      var backend := if st.backend.None? then FirstSelected(menu) else st.backend;
      if backend.None? then (ClientState(0, None, st.stash), Running)
      else
        var (stash, failure) := Rounds(st.stash, rounds);
        if failure.None? then (ClientState(0, backend, stash), Running)
        else
          var (r, e) := AfterFailure(0, failure.value);
          (ClientState(r, backend, stash), e)
  }

  /** The loop over successive passes, up to the first that does not end in
      a sleep. */
  function RunSpec(st: ClientState, attempts: seq<Attempt>): (ClientState, seq<SessionEnd>)
    decreases |attempts|
  {
    if attempts == [] then (st, [])
    else
      var (st', e) := Next(st, attempts[0]);
      if e.Sleep? then
        var (fin, ends) := RunSpec(st', attempts[1..]);
        (fin, [e] + ends)
      else (st', [e])
  }

  /** From a fresh counter, refused connections sleep 5 s five times and
      the sixth gives up; in general, from counter `r` it takes `6 - r`
      consecutive handled failures to give up. */
  lemma {:induction false} GiveUpOnSixth(st: ClientState, attempts: seq<Attempt>)
    requires st.retry <= MaxRetries
    requires MaxRetries + 1 - st.retry <= |attempts|
    requires forall i :: 0 <= i < |attempts| ==> attempts[i] == Unreachable(Handled)
    ensures RunSpec(st, attempts).1 == seq(MaxRetries - st.retry, _ => Sleep(5)) + [GaveUp]
    ensures RunSpec(st, attempts).0 == st.(retry := MaxRetries + 1)
    decreases |attempts|
  {
    if st.retry < MaxRetries {
      var st' := st.(retry := st.retry + 1);
      assert Next(st, attempts[0]) == (st', Sleep(5));
      GiveUpOnSixth(st', attempts[1..]);
      assert seq(MaxRetries - st.retry, _ => Sleep(5)) == [Sleep(5)] + seq(MaxRetries - st'.retry, _ => Sleep(5));
    } else {
      assert Next(st, attempts[0]) == (st.(retry := MaxRetries + 1), GaveUp);
    }
  }

  /** A connection that opens resets the counter: if it later fails with a
      handled error the counter is 1 and the client sleeps, whatever the
      counter was before. */
  lemma ConnectResets(st: ClientState, menu: seq<string>, rounds: seq<Round>)
    ensures var (st', e) := Next(st, Opened(menu, rounds));
            && st'.retry <= 1
            && (e.Sleep? <==> st'.retry == 1)
            && (e.Sleep? ==> e.seconds == ReconnectSleep)
            && e != GaveUp
  {
  }

  /** The backend is chosen on the first connection that gets an answer
      from the menu and kept across every later reconnect. */
  lemma {:induction false} BackendKept(st: ClientState, attempts: seq<Attempt>)
    requires st.backend.Some?
    ensures RunSpec(st, attempts).0.backend == st.backend
    decreases |attempts|
  {
    if attempts != [] {
      var (st', e) := Next(st, attempts[0]);
      assert st'.backend == st.backend;
      BackendKept(st', attempts[1..]);
    }
  }

  /** `part` is one contiguous run of `whole`. */
  predicate Contiguous(part: seq<string>, whole: seq<string>) {
    exists k, m :: 0 <= k <= m <= |whole| && part == whole[k..m]
  }

  lemma ContiguousShift(part: seq<string>, front: seq<string>, tail: seq<string>)
    requires Contiguous(part, tail)
    ensures Contiguous(part, front + tail)
  {
    var k, m :| 0 <= k <= m <= |tail| && part == tail[k..m];
    assert part == (front + tail)[|front| + k..|front| + m];
  }

  /** Recordings are never reordered by a connection's rounds: the stash
      afterwards is one contiguous run of the old stash followed by the new
      recordings, so whatever is still pending goes out oldest first. */
  lemma {:induction false} RoundsKeepOrder(stash: seq<string>, rounds: seq<Round>)
    ensures Contiguous(Rounds(stash, rounds).0, stash + Recorded(rounds))
    decreases |rounds|
  {
    var all := stash + Recorded(rounds);
    if rounds == [] {
      assert Rounds(stash, rounds).0 == all[0..|stash|];
    } else {
      var tail := Recorded(rounds[1..]);
      match rounds[0]
      case Silence =>
        assert Recorded(rounds) == tail;
        assert Rounds(stash, rounds) == Rounds(stash, rounds[1..]);
        RoundsKeepOrder(stash, rounds[1..]);
      case ListenFailed(_) =>
        assert Rounds(stash, rounds).0 == all[0..|stash|];
      case Speech(audio, fault) =>
        var pushed := stash + [audio];
        var d := Delivered(|pushed|, fault);
        assert Recorded(rounds) == [audio] + tail;
        assert all == pushed + tail;
        if Strikes(|pushed|, fault) {
          assert Rounds(stash, rounds).0 == all[d..|pushed|];
        } else {
          assert pushed[d..] == [];
          assert Rounds(stash, rounds) == Rounds([], rounds[1..]);
          RoundsKeepOrder([], rounds[1..]);
          assert [] + tail == tail;
          ContiguousShift(Rounds([], rounds[1..]).0, pushed, tail);
        }
    }
  }

  /** The recordings made in a connection's rounds, in order. */
  function Recorded(rounds: seq<Round>): seq<string> {
    if rounds == [] then []
    else (if rounds[0].Speech? then [rounds[0].audio] else []) + Recorded(rounds[1..])
  }

  /** As written, the first recording a connection keeps ends the client:
      its upload message cannot be built, so nothing is sent, the stash
      keeps the recording, and the pass ends in the unhandled exception. */
  lemma AsWrittenSpeechRound(st: ClientState, menu: seq<string>, audio: string, rest: seq<Round>)
    requires st.backend.Some?
    ensures Next(st, Opened(menu, [Speech(audio, Some(AsWrittenFault))] + rest))
            == (ClientState(0, st.backend, st.stash + [audio]), Crashed)
  {
    var rounds := [Speech(audio, Some(AsWrittenFault))] + rest;
    assert rounds[0] == Speech(audio, Some(AsWrittenFault));
    assert Rounds(st.stash, rounds) == (st.stash + [audio], Some(Fatal));
  }

  /** The state of the reconnect loop: the retry counter and backend choice
      of `process_audio_and_send`, and the global stash. */
  class Client {
    var retryCount: nat
    var backend: Option<string>
    const stash: Stash

    constructor ()
      ensures retryCount == 0 && backend == None
      ensures fresh(stash) && stash.items == []
    {
      retryCount := 0;
      backend := None;
      stash := new Stash();
    }

    function State(): ClientState
      reads this, stash
    {
      ClientState(retryCount, backend, stash.items)
    }

    /** The exception handlers of the reconnect loop. */
    method Fail(kind: Failure) returns (end: SessionEnd)
      modifies this
      ensures (retryCount, end) == AfterFailure(old(retryCount), kind)
      ensures backend == old(backend)
    {
      if kind == Fatal {
        end := Crashed;
      } else {
        retryCount := retryCount + 1;
        if retryCount <= MaxRetries {
          end := Sleep(ReconnectSleep);
        } else {
          end := GaveUp;
        }
      }
    }

    /** One pass of the `while True` loop: connect and send the id, reset
        the counter, choose a backend if none is chosen yet, then record and
        upload round after round until something raises. */
    method Session(a: Attempt) returns (end: SessionEnd)
      modifies this, stash
      ensures (State(), end) == Next(old(State()), a)
    {
      match a {
        case Unreachable(kind) =>
          end := Fail(kind);
        case Opened(menu, rounds) =>
          retryCount := 0;
          if backend.None? {
            var choice, _ := ChooseBackend(menu);
            backend := choice;
            if choice.None? {
              return Running;
            }
          }
          var i := 0;
          while i < |rounds|
            invariant i <= |rounds|
            invariant retryCount == 0 && backend.Some?
            invariant backend == (if old(backend).None? then FirstSelected(menu) else old(backend))
            invariant Rounds(old(stash.items), rounds) == Rounds(stash.items, rounds[i..])
          {
            assert rounds[i..][1..] == rounds[i + 1..];
            match rounds[i] {
              case Silence =>
              case ListenFailed(kind) =>
                end := Fail(kind);
                return;
              case Speech(audio, fault) =>
                stash.Push(audio);
                ghost var pushed := stash.items;
                var sent, failure := stash.SendAll(fault);
                assert stash.items == pushed[|sent|..] by {
                  assert sent + stash.items == pushed;
                }
                if failure.Some? {
                  end := Fail(failure.value);
                  return;
                }
            }
            i := i + 1;
          }
          end := Running;
      }
    }

    /** The reconnect loop over successive passes, until one ends in
        anything other than a sleep. */
    method Run(attempts: seq<Attempt>) returns (ends: seq<SessionEnd>)
      modifies this, stash
      ensures (State(), ends) == RunSpec(old(State()), attempts)
    {
      ends := [];
      var i := 0;
      assert attempts[0..] == attempts;
      assert State() == old(State());
      assert ends + RunSpec(State(), attempts).1 == RunSpec(State(), attempts).1;
      while i < |attempts|
        invariant i <= |attempts|
        invariant RunSpec(old(State()), attempts)
                  == (RunSpec(State(), attempts[i..]).0, ends + RunSpec(State(), attempts[i..]).1)
      {
        ghost var before := RunSpec(State(), attempts[i..]);
        assert attempts[i..][0] == attempts[i];
        assert attempts[i..][1..] == attempts[i + 1..];
        var e := Session(attempts[i]);
        if e.Sleep? {
          ghost var after := RunSpec(State(), attempts[i + 1..]);
          assert before == (after.0, [e] + after.1);
          assert ends + before.1 == (ends + [e]) + after.1;
        } else {
          assert before == (State(), [e]);
        }
        ends := ends + [e];
        i := i + 1;
        if !e.Sleep? {
          return;
        }
      }
      assert attempts[i..] == [];
      assert ends + [] == ends;
    }
  }
}
