/** The two feed connections of the audio client (`_generic_socket`,
    audio_client.py:201-243): what each inbound message turns into, and the
    reconnect counter with its capped exponential backoff. The socket, the
    JSON parser and the sleeps are outside the model: a connection attempt
    arrives as an `Attempt` holding its already-parsed inbound messages, and
    a sleep is reported as the delay it would last. */
module Feed {
  import opened JsonValue

  /** The robot this client serves; the primary feed drops other robots'
      messages. */
  const RobotId: string := "robot_1"

  /** Which of the two feeds a connection belongs to. */
  datatype Label = Primary | Lecture

  /** What the handler does with one inbound message. */
  datatype Handling =
    | Skipped                             // not JSON: logged, next message
    | Ignored                             // primary feed, another robot
    | NoAudio                             // no truthy "audio" field
    | Unconvertible                       // bytes(audio) raised: logged, dropped
    | Clip(text: Json, audio: seq<byte>)  // what would be handed to the player
    | Escaped                             // raised outside the handlers: ends the connection

  /** `bytes(x)` for one element of an iterable: an int in 0..255, or a bool
      (Python's bool is an int). Anything else raises. */
  function ByteOf(j: Json): Option<byte> {
    match j
    case JInt(i) => if 0 <= i < 256 then Some(i) else None
    case JBool(b) => Some(if b then 1 else 0)
    case _ => None
  }

  /** `bytes(list)`: every element must convert, and the bytes keep the
      list's order. */
  function BytesOfItems(items: seq<Json>): (r: Option<seq<byte>>)
    ensures r.Some? <==> forall i :: 0 <= i < |items| ==> ByteOf(items[i]).Some?
    ensures r.Some? ==> |r.value| == |items|
    ensures r.Some? ==> forall i :: 0 <= i < |items| ==> r.value[i] == ByteOf(items[i]).value
  {
    if items == [] then Some([])
    else
      match (ByteOf(items[0]), BytesOfItems(items[1..]))
      case (Some(b), Some(bs)) => Some([b] + bs)
      case _ => None
  }

  /** `sys.maxsize` on a 64-bit build: the largest count `bytes(n)` takes. */
  const MaxSize: int := 0x7fff_ffff_ffff_ffff

  /** `bytes(x)` on a parsed JSON value: an int gives that many zero bytes
      (a negative one raises `ValueError`, one above `sys.maxsize`
      `OverflowError`), a bool likewise, a list converts element by element,
      a dict iterates its (string) keys, and strings, floats and `None`
      raise. */
  function ToBytes(j: Json): Option<seq<byte>> {
    match j
    case JInt(n) => if 0 <= n <= MaxSize then Some(seq(n, _ => 0)) else None
    case JBool(b) => Some(if b then [0] else [])
    case JArr(items) => BytesOfItems(items)
    case JObj(fields) => if fields == map[] then Some([]) else None
    case _ => None
  }

  /** The handling of one inbound frame on the feed `feed`. */
  function Classify(feed: Label, raw: Raw): Handling {
    match raw
    case BadJson => Skipped
    case BadEncoding => Escaped
    case Parsed(j) =>
      if !j.JObj? then Escaped
      else if feed == Primary && Get(j.fields, "robot_id", JNull) != JStr(RobotId) then Ignored
      else
        var text := Get(j.fields, "text", JStr(""));
        var audio := Get(j.fields, "audio", JNull);
        if !Truthy(audio) then NoAudio
        else
          match ToBytes(audio)
          case None => Unconvertible
          case Some(b) => Clip(text, b)
  }

  /** A list element `bytes()` accepts. */
  predicate IsByteItem(j: Json) {
    (j.JInt? && 0 <= j.i < 256) || j.JBool?
  }

  /** The `audio` values that yield a clip: a non-empty list of byte values
      (or bools), a positive int no larger than `sys.maxsize`, or `true`. */
  predicate AcceptedAudio(a: Json) {
    || (a.JArr? && a.items != [] && forall i :: 0 <= i < |a.items| ==> IsByteItem(a.items[i]))
    || (a.JInt? && 0 < a.i <= MaxSize)
    || a == JBool(true)
  }

  /** An `audio` field converts exactly when it is one of the accepted
      shapes; a list keeps its values, an int `n` gives `n` zero bytes. */
  lemma AudioAccepted(a: Json)
    ensures Truthy(a) && ToBytes(a).Some? <==> AcceptedAudio(a)
    ensures AcceptedAudio(a) && a.JArr? ==>
              |ToBytes(a).value| == |a.items|
              && forall i :: 0 <= i < |a.items| && a.items[i].JInt? ==> ToBytes(a).value[i] == a.items[i].i
    ensures AcceptedAudio(a) && a.JInt? ==> ToBytes(a).value == seq(a.i, _ => 0)
  {
    if a.JArr? {
      assert (forall i :: 0 <= i < |a.items| ==> IsByteItem(a.items[i]))
         <==> (forall i :: 0 <= i < |a.items| ==> ByteOf(a.items[i]).Some?);
    }
  }

  /** Every outcome of the handler, by the shape of the frame: non-JSON is
      skipped, undecodable bytes and non-object JSON end the connection,
      another robot's message on the primary feed is ignored, and a clip
      results exactly when the `audio` field converts, carrying the `text`
      field (default `""`) and the converted bytes. */
  lemma ClassifyOutcomes(feed: Label, raw: Raw)
    ensures Classify(feed, raw) == Skipped <==> raw == BadJson
    ensures Classify(feed, raw) == Escaped <==> (raw == BadEncoding || (raw.Parsed? && !raw.value.JObj?))
    ensures Classify(feed, raw) == Ignored <==>
              (feed == Primary && raw.Parsed? && raw.value.JObj?
               && Get(raw.value.fields, "robot_id", JNull) != JStr(RobotId))
    ensures Classify(feed, raw).Clip? <==>
              (&& raw.Parsed? && raw.value.JObj?
               && (feed == Primary ==> Get(raw.value.fields, "robot_id", JNull) == JStr(RobotId))
               && "audio" in raw.value.fields
               && AcceptedAudio(raw.value.fields["audio"]))
    ensures Classify(feed, raw).Clip? ==>
              && Classify(feed, raw).text == Get(raw.value.fields, "text", JStr(""))
              && Classify(feed, raw).audio == ToBytes(raw.value.fields["audio"]).value
  {
    if raw.Parsed? && raw.value.JObj? {
      AudioAccepted(Get(raw.value.fields, "audio", JNull));
    }
  }

  /** The messages of one connection, handled in order until one escapes. */
  function Handle(feed: Label, inbound: seq<Raw>): seq<Handling> {
    if inbound == [] then []
    else
      var h := Classify(feed, inbound[0]);
      [h] + (if h == Escaped then [] else Handle(feed, inbound[1..]))
  }

  /** Handling is message by message, in arrival order, and stops right
      after the first message that escapes (and only there). */
  lemma {:induction false} HandleInOrder(feed: Label, inbound: seq<Raw>)
    ensures |Handle(feed, inbound)| <= |inbound|
    ensures forall i :: 0 <= i < |Handle(feed, inbound)| ==>
              Handle(feed, inbound)[i] == Classify(feed, inbound[i])
    ensures forall i :: 0 <= i < |Handle(feed, inbound)| - 1 ==> Handle(feed, inbound)[i] != Escaped
    ensures |Handle(feed, inbound)| < |inbound| ==>
              Handle(feed, inbound) != [] && Handle(feed, inbound)[|Handle(feed, inbound)| - 1] == Escaped
    decreases |inbound|
  {
    if inbound != [] && Classify(feed, inbound[0]) != Escaped {
      HandleInOrder(feed, inbound[1..]);
    }
  }

  /** One pass of the reconnect loop: the connection is refused, or it opens
      and then (primary feed only) the registration send returns or raises,
      the inbound messages arrive, and the stream ends cleanly or raises. */
  datatype Attempt =
    | Refused
    | Connected(ts: real, registered: bool, inbound: seq<Raw>, closedCleanly: bool)

  /** The registration the primary feed sends once connected. */
  function Registration(ts: real): Json {
    JObj(map["type" := JStr("register"),
             "data" := JObj(map["client" := JStr("audio")]),
             "ts" := JFloat(ts)])
  }

  /** Whether the registration send stops the connection. */
  predicate RegistrationFails(feed: Label, a: Attempt)
    requires a.Connected?
  {
    feed == Primary && !a.registered
  }

  /** What the connection sends. */
  function Sent(feed: Label, a: Attempt): seq<Json> {
    if a.Connected? && feed == Primary && a.registered then [Registration(a.ts)] else []
  }

  /** The messages the connection handles. */
  function Handled(feed: Label, a: Attempt): seq<Handling> {
    if a.Refused? || RegistrationFails(feed, a) then [] else Handle(feed, a.inbound)
  }

  /** Whether the pass ends in the exception handler (and so in a sleep). */
  predicate Fails(feed: Label, a: Attempt) {
    a.Refused? || RegistrationFails(feed, a) || Escaped in Handled(feed, a) || !a.closedCleanly
  }

  function Pow2(n: nat): (p: nat)
    ensures 1 <= p
  {
    if n == 0 then 1 else 2 * Pow2(n - 1)
  }

  /** `min(60, 2 ** retry)` seconds. */
  function Backoff(retry: nat): nat {
    if Pow2(retry) < 60 then Pow2(retry) else 60
  }

  /** The counter after one pass: a connect resets it and a failure adds
      one, so a failure after a connect leaves it at one. */
  function NextRetry(retry: nat, feed: Label, a: Attempt): nat {
    if a.Connected? then (if Fails(feed, a) then 1 else 0) else retry + 1
  }

  /** The sleeps of a sequence of passes, in order. */
  function Delays(retry: nat, feed: Label, attempts: seq<Attempt>): seq<nat>
    decreases |attempts|
  {
    if attempts == [] then []
    else
      var r := NextRetry(retry, feed, attempts[0]);
      (if Fails(feed, attempts[0]) then [Backoff(r)] else [])
      + Delays(r, feed, attempts[1..])
  }

  function RetryAfter(retry: nat, feed: Label, attempts: seq<Attempt>): nat
    decreases |attempts|
  {
    if attempts == [] then retry
    else RetryAfter(NextRetry(retry, feed, attempts[0]), feed, attempts[1..])
  }

  lemma {:induction false} Pow2Grows(n: nat)
    requires 6 <= n
    ensures 64 <= Pow2(n)
    decreases n
  {
    if n > 6 {
      Pow2Grows(n - 1);
    }
  }

  /** The backoff schedule: 2, 4, 8, 16, 32 seconds for the first five
      failures, then 60 seconds from the sixth on; never outside [2, 60]
      once the counter has been incremented. */
  lemma BackoffSchedule(n: nat)
    ensures 1 <= n <= 5 ==> Backoff(n) == Pow2(n)
    ensures 6 <= n ==> Backoff(n) == 60
    ensures 1 <= n ==> 2 <= Backoff(n) <= 60
  {
    assert Pow2(1) == 2 && Pow2(2) == 4 && Pow2(3) == 8 && Pow2(4) == 16 && Pow2(5) == 32;
    if 6 <= n {
      Pow2Grows(n);
    }
  }

  /** Every sleep lasts between 2 and 60 seconds, whatever the counter
      started at. */
  lemma {:induction false} DelaysBounded(retry: nat, feed: Label, attempts: seq<Attempt>)
    ensures forall i :: 0 <= i < |Delays(retry, feed, attempts)| ==> 2 <= Delays(retry, feed, attempts)[i] <= 60
    decreases |attempts|
  {
    if attempts != [] {
      var r := NextRetry(retry, feed, attempts[0]);
      BackoffSchedule(r);
      DelaysBounded(r, feed, attempts[1..]);
    }
  }

  /** A connection that ends cleanly loops straight back: no sleep, and the
      counter is back at zero. A connection that fails sleeps 2 seconds,
      whatever the counter was before it. */
  lemma ConnectResets(retry: nat, feed: Label, a: Attempt, rest: seq<Attempt>)
    requires a.Connected?
    ensures !Fails(feed, a) ==>
              Delays(retry, feed, [a] + rest) == Delays(0, feed, rest)
              && RetryAfter(retry, feed, [a] + rest) == RetryAfter(0, feed, rest)
    ensures Fails(feed, a) ==>
              Delays(retry, feed, [a] + rest) == [2] + Delays(1, feed, rest)
  {
    assert ([a] + rest)[1..] == rest;
    assert Pow2(1) == 2;
  }

  /** A run of refused connections sleeps `Backoff(retry + 1)`,
      `Backoff(retry + 2)`, ...: after a connect that failed, that is 4, 8,
      16, 32, 60, 60, ... */
  lemma {:induction false} RefusalStreak(retry: nat, feed: Label, attempts: seq<Attempt>)
    requires forall i :: 0 <= i < |attempts| ==> attempts[i].Refused?
    ensures Delays(retry, feed, attempts) == seq(|attempts|, i requires 0 <= i => Backoff(retry + i + 1))
    ensures RetryAfter(retry, feed, attempts) == retry + |attempts|
    decreases |attempts|
  {
    if attempts != [] {
      RefusalStreak(retry + 1, feed, attempts[1..]);
      var tail := seq(|attempts| - 1, i requires 0 <= i => Backoff(retry + 1 + i + 1));
      assert Delays(retry, feed, attempts) == [Backoff(retry + 1)] + tail;
    }
  }

  /** One feed connection loop, `_generic_socket(uri, feed)`. */
  class Connector {
    const feed: Label
    var retry: nat

    constructor (feed: Label)
      ensures this.feed == feed && retry == 0
    {
      this.feed := feed;
      retry := 0;
    }

    /** One pass of the `while True` loop: connect, register (primary feed),
        handle the inbound messages, and on an exception bump the counter and
        sleep `delay` seconds. */
    method Session(a: Attempt) returns (sent: seq<Json>, handled: seq<Handling>, delay: Option<nat>)
      modifies this
      ensures sent == Sent(feed, a)
      ensures handled == Handled(feed, a)
      ensures retry == NextRetry(old(retry), feed, a)
      ensures delay == (if Fails(feed, a) then Some(Backoff(retry)) else None)
    {
      sent, handled := [], [];
      var failed := false;
      if a.Refused? {
        failed := true;
      } else {
        retry := 0;
        if feed == Primary && !a.registered {
          failed := true;
        } else {
          if feed == Primary {
            sent := [Registration(a.ts)];
          }
          var i := 0;
          while i < |a.inbound| && !failed
            invariant 0 <= i <= |a.inbound|
            invariant !failed ==> Handle(feed, a.inbound) == handled + Handle(feed, a.inbound[i..])
            invariant !failed ==> Escaped !in handled
            invariant failed ==> handled == Handle(feed, a.inbound) && Escaped in handled
          {
            var h := Classify(feed, a.inbound[i]);
            assert a.inbound[i..][1..] == a.inbound[i + 1..];
            handled := handled + [h];
            if h == Escaped {
              failed := true;
            }
            i := i + 1;
          }
          if !a.closedCleanly {
            failed := true;
          }
        }
      }
      if failed {
        retry := retry + 1;
        delay := Some(Backoff(retry));
      } else {
        delay := None;
      }
    }

    /** The loop over a sequence of passes, collecting the sleeps. */
    method Run(attempts: seq<Attempt>) returns (delays: seq<nat>)
      modifies this
      ensures delays == Delays(old(retry), feed, attempts)
      ensures retry == RetryAfter(old(retry), feed, attempts)
    {
      delays := [];
      var i := 0;
      while i < |attempts|
        invariant 0 <= i <= |attempts|
        invariant Delays(old(retry), feed, attempts) == delays + Delays(retry, feed, attempts[i..])
        invariant RetryAfter(old(retry), feed, attempts) == RetryAfter(retry, feed, attempts[i..])
      {
        ghost var before := retry;
        ghost var rest := attempts[i..];
        assert rest[0] == attempts[i] && rest[1..] == attempts[i + 1..];
        var _, _, d := Session(attempts[i]);
        var step := if d.Some? then [d.value] else [];
        assert Delays(before, feed, rest) == step + Delays(retry, feed, attempts[i + 1..]);
        assert RetryAfter(before, feed, rest) == RetryAfter(retry, feed, attempts[i + 1..]);
        assert delays + Delays(before, feed, rest) == (delays + step) + Delays(retry, feed, attempts[i + 1..]);
        delays := delays + step;
        i := i + 1;
      }
    }
  }
}
