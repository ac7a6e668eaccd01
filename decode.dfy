/** The sample layout step of `_decode_wav` (audio_client.py:71-81): the
    int16 samples of a WAV clip are kept flat for mono audio and regrouped
    frame-major into rows of `n_ch` samples otherwise, and the playback
    length is the row count over the sample rate. The WAV container parse
    and the float scaling by 1/32768 are outside the model: the samples stay
    integers. */
module Decode {

  /** What the `wave` reader yields for one clip: frame rate, channel count
      and the interleaved int16 samples. */
  datatype Wav = Wav(rate: nat, channels: nat, samples: seq<int>)

  /** The decoded array: one-dimensional for mono, `(frames, channels)`
      otherwise. */
  datatype Audio = Mono(samples: seq<int>) | Framed(rows: seq<seq<int>>)

  /** `reshape(-1, n_ch)` fails when the sample count is not a multiple of
      the channel count. */
  datatype Layout = Laid(audio: Audio) | ShapeError

  /** Euclidean division has one quotient and one remainder. */
  lemma DivUnique(x: int, n: int, q: int, r: int)
    requires 0 < n && x == n * q + r && 0 <= r < n
    ensures x / n == q && x % n == r
  {
    var q', r' := x / n, x % n;
    assert x == n * q' + r';
    MulGap(n, q', q);
    MulGap(n, q, q');
  }

  /** Multiples of `n` below one another are at least `n` apart. */
  lemma {:induction false} MulGap(n: int, a: int, b: int)
    requires 0 < n
    ensures a < b ==> n * a + n <= n * b
    decreases if a < b then b - a else 0
  {
    if a + 1 < b {
      MulGap(n, a, b - 1);
      assert n * b == n * (b - 1) + n;
    } else if a + 1 == b {
      assert n * b == n * a + n;
    }
  }

  /** Removing one row keeps divisibility and drops the quotient by one. */
  lemma DivStep(a: nat, n: nat)
    requires 0 < n <= a
    ensures (a - n) % n == a % n
    ensures (a - n) / n == a / n - 1
  {
    var q, r := a / n, a % n;
    assert a == n * q + r;
    assert a - n == n * (q - 1) + r;
    DivUnique(a - n, n, q - 1, r);
  }

  /** The samples cut into consecutive rows of `n`. */
  function Rows(s: seq<int>, n: nat): (rows: seq<seq<int>>)
    requires 0 < n && |s| % n == 0
    ensures |rows| == |s| / n
    ensures forall i :: 0 <= i < |rows| ==> |rows[i]| == n
    decreases |s|
  {
    if |s| < n then
      DivUnique(|s|, n, 0, |s|);
      []
    else
      DivStep(|s|, n);
      [s[..n]] + Rows(s[n..], n)
  }

  /** The rows laid end to end again (what interleaving the channels does). */
  function Flatten(rows: seq<seq<int>>): seq<int> {
    if rows == [] then [] else rows[0] + Flatten(rows[1..])
  }

  /** The layout `_decode_wav` gives the samples. */
  function Arrange(w: Wav): Layout {
    if w.channels <= 1 then Laid(Mono(w.samples))
    else if |w.samples| % w.channels == 0 then Laid(Framed(Rows(w.samples, w.channels)))
    else ShapeError
  }

  /** `len(audio)`: the number of frames. */
  function FrameCount(a: Audio): nat {
    match a
    case Mono(s) => |s|
    case Framed(rows) => |rows|
  }

  /** `len(audio) / sr`, in seconds. */
  function Duration(a: Audio, rate: nat): (d: real)
    requires 0 < rate
    ensures 0.0 <= d
    ensures d * rate as real == FrameCount(a) as real
  {
    FrameCount(a) as real / rate as real
  }

  /** Position of channel `c` of frame `i` in the interleaved samples of
      `n`-channel audio. */
  function Offset(i: nat, n: nat, c: nat): nat {
    i * n + c
  }

  /** A positive quotient means the divisor fits at least once. */
  lemma QuotientPositive(a: int, n: int)
    requires 0 < n && 0 <= a && 0 < a / n
    ensures n <= a
  {
    MulGap(n, 0, a / n);
  }

  lemma OffsetStep(i: nat, n: nat, c: nat)
    requires 0 < i
    ensures Offset(i, n, c) == Offset(i - 1, n, c) + n
  {
    assert i * n == (i - 1) * n + n;
  }

  /** Frame-major layout: row `i`, channel `c` holds sample `i * n + c`. */
  lemma {:induction false} RowsFrameMajor(s: seq<int>, n: nat, i: nat, c: nat)
    requires 0 < n && |s| % n == 0
    requires i < |s| / n && c < n
    ensures Offset(i, n, c) < |s|
    ensures Rows(s, n)[i][c] == s[Offset(i, n, c)]
    decreases |s|
  {
    QuotientPositive(|s|, n);
    DivStep(|s|, n);
    var rest := s[n..];
    var rows := Rows(s, n);
    assert rows == [s[..n]] + Rows(rest, n);
    if i == 0 {
      assert rows[0] == s[..n];
    } else {
      RowsFrameMajor(rest, n, i - 1, c);
      OffsetStep(i, n, c);
      assert rows[i] == Rows(rest, n)[i - 1];
    }
  }

  /** Interleaving the rows again gives back the decoded samples. */
  lemma {:induction false} FlattenRows(s: seq<int>, n: nat)
    requires 0 < n && |s| % n == 0
    ensures Flatten(Rows(s, n)) == s
    decreases |s|
  {
    if |s| < n {
      DivUnique(|s|, n, 0, |s|);
    } else {
      DivStep(|s|, n);
      var rest := s[n..];
      FlattenRows(rest, n);
      assert Rows(s, n)[1..] == Rows(rest, n);
      assert s == s[..n] + rest;
    }
  }

  /** Whenever the layout succeeds it loses nothing and reorders nothing:
      the frame count is the sample count over the channel count, each
      multi-channel row has one sample per channel, sample `i * n_ch + c`
      lands in row `i`, column `c`, and the rows interleave back to the
      samples. It fails exactly when several channels do not divide the
      sample count. */
  lemma ArrangeLayout(w: Wav)
    ensures Arrange(w).ShapeError? <==> (1 < w.channels && |w.samples| % w.channels != 0)
    ensures Arrange(w).Laid? && w.channels <= 1 ==>
              Arrange(w).audio == Mono(w.samples) && FrameCount(Arrange(w).audio) == |w.samples|
    ensures Arrange(w).Laid? && 1 < w.channels ==>
              var rows := Arrange(w).audio.rows;
              && FrameCount(Arrange(w).audio) == |w.samples| / w.channels
              && Flatten(rows) == w.samples
              && (forall i :: 0 <= i < |rows| ==> |rows[i]| == w.channels)
              && (forall i, c :: 0 <= i < |rows| && 0 <= c < w.channels ==>
                    Offset(i, w.channels, c) < |w.samples| && rows[i][c] == w.samples[Offset(i, w.channels, c)])
  {
    if 1 < w.channels && |w.samples| % w.channels == 0 {
      assert Arrange(w) == Laid(Framed(Rows(w.samples, w.channels)));
      RowsLayout(w.samples, w.channels);
    }
  }

  lemma RowsLayout(s: seq<int>, n: nat)
    requires 1 < n && |s| % n == 0
    ensures var rows := Rows(s, n);
              && Flatten(rows) == s
              && (forall i, c :: 0 <= i < |rows| && 0 <= c < n ==>
                    Offset(i, n, c) < |s| && rows[i][c] == s[Offset(i, n, c)])
  {
    FlattenRows(s, n);
    var rows := Rows(s, n);
    forall i, c | 0 <= i < |rows| && 0 <= c < n
      ensures Offset(i, n, c) < |s| && rows[i][c] == s[Offset(i, n, c)]
    {
      RowsFrameMajor(s, n, i, c);
    }
  }
}
