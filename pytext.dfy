/** The few Python string, slice and number operations the clients rely on:
    `str.split()` with no argument, `str.strip()`, `" ".join(...)`, the
    slice `xs[:k]` (negative `k` counts from the end) and `int(x)` on a float,
    which truncates toward zero. Strings are sequences of code points. */
module PyText {

  /** Python's `str.isspace()` for one code point: the characters
      `str.split()` and `str.strip()` treat as separators. */
  predicate IsSpace(c: char) {
    ('\U{0009}' <= c <= '\U{000D}') || ('\U{001C}' <= c <= '\U{0020}')
    || c == '\U{0085}' || c == '\U{00A0}' || c == '\U{1680}'
    || ('\U{2000}' <= c <= '\U{200A}') || c == '\U{2028}' || c == '\U{2029}'
    || c == '\U{202F}' || c == '\U{205F}' || c == '\U{3000}'
  }

  /** A word as `str.split()` produces it: non-empty, no whitespace. */
  predicate IsWord(w: string) {
    |w| > 0 && forall i :: 0 <= i < |w| ==> !IsSpace(w[i])
  }

  predicate AllWords(ws: seq<string>) {
    forall i :: 0 <= i < |ws| ==> IsWord(ws[i])
  }

  /** Length of the run of non-space characters at the front of `s`. */
  function WordLen(s: string): (n: nat)
    ensures n <= |s|
    ensures forall i :: 0 <= i < n ==> !IsSpace(s[i])
    ensures n < |s| ==> IsSpace(s[n])
  {
    if s == [] || IsSpace(s[0]) then 0 else 1 + WordLen(s[1..])
  }

  /** `s.split()`: the maximal runs of non-space characters, in order. */
  function Split(s: string): (ws: seq<string>)
    ensures AllWords(ws)
    decreases |s|
  {
    if s == [] then []
    else if IsSpace(s[0]) then Split(s[1..])
    else
      var n := WordLen(s);
      [s[..n]] + Split(s[n..])
  }

  /** `" ".join(ws)`. */
  function Join(ws: seq<string>): string {
    if ws == [] then ""
    else if |ws| == 1 then ws[0]
    else ws[0] + " " + Join(ws[1..])
  }

  /** Number of whitespace characters at the front of `s`. */
  function LeadingSpaces(s: string): (i: nat)
    ensures i <= |s|
    ensures forall k :: 0 <= k < i ==> IsSpace(s[k])
    ensures i < |s| ==> !IsSpace(s[i])
  {
    if s != [] && IsSpace(s[0]) then 1 + LeadingSpaces(s[1..]) else 0
  }

  /** Index where the trailing whitespace of `s` begins. */
  function TrailingStart(s: string): (j: nat)
    ensures j <= |s|
    ensures forall k :: j <= k < |s| ==> IsSpace(s[k])
    ensures 0 < j ==> !IsSpace(s[j - 1])
  {
    if s != [] && IsSpace(s[|s| - 1]) then TrailingStart(s[..|s| - 1]) else |s|
  }

  /** `s.strip()`: `s` without its leading and trailing whitespace. */
  function Strip(s: string): (r: string)
    ensures exists i, j :: 0 <= i <= j <= |s| && r == s[i..j]
                           && (forall k :: 0 <= k < i ==> IsSpace(s[k]))
                           && (forall k :: j <= k < |s| ==> IsSpace(s[k]))
    ensures r == [] || (!IsSpace(r[0]) && !IsSpace(r[|r| - 1]))
  {
    var i, j := LeadingSpaces(s), TrailingStart(s);
    if i == |s| then
      assert s[i..i] == [];
      []
    else
      assert i < j;
      s[i..j]
  }

  /** The slice `xs[:k]`: a negative `k` counts from the end, and both
      ends are clamped to the sequence. The result is always a prefix: the
      first `k` elements (all of them when `k` runs past the end), or all
      but the last `-k` (none when `-k` runs past the start). */
  function PrefixSlice<T>(xs: seq<T>, k: int): (r: seq<T>)
    ensures r <= xs
    ensures 0 <= k <= |xs| ==> |r| == k
    ensures |xs| < k ==> r == xs
    ensures -|xs| <= k < 0 ==> |r| + -k == |xs|
    ensures k < -|xs| ==> r == []
  {
    if k >= 0 then xs[..if k <= |xs| then k else |xs|]
    else xs[..if -k <= |xs| then |xs| + k else 0]
  }

  /** `int(x)` for a float `x`: the integer next to `x` on the side of
      zero, so that `x` lies in `[n, n + 1)` when non-negative and in
      `(n - 1, n]` when negative. */
  function Trunc(x: real): (n: int)
    ensures 0.0 <= x ==> 0 <= n && n as real <= x < n as real + 1.0
    ensures x < 0.0 ==> n <= 0 && n as real - 1.0 < x <= n as real
  {
    if x >= 0.0 then x.Floor else -((-x).Floor)
  }

  function Min(a: real, b: real): (m: real)
    ensures m <= a && m <= b && (m == a || m == b)
  {
    if a <= b then a else b
  }

  /** The front word of a joined list is recognised by `WordLen`. */
  lemma {:induction false} WordLenOfWord(w: string, rest: string)
    requires IsWord(w)
    requires rest == [] || IsSpace(rest[0])
    ensures WordLen(w + rest) == |w|
    decreases |w|
  {
    var s := w + rest;
    assert s[0] == w[0];
    if |w| > 1 {
      assert s[1..] == w[1..] + rest;
      WordLenOfWord(w[1..], rest);
    } else {
      assert s[1..] == rest;
    }
  }

  /** Splitting a single space followed by `s` is splitting `s`. */
  lemma SplitSpaceFront(s: string)
    ensures Split(" " + s) == Split(s)
  {
    assert (" " + s)[1..] == s;
  }

  /** `Split` undoes `Join` on words: the joined text splits back into
      exactly the words that were joined. */
  lemma {:induction false} SplitJoin(ws: seq<string>)
    requires AllWords(ws)
    ensures Split(Join(ws)) == ws
    decreases |ws|
  {
    if ws == [] {
    } else if |ws| == 1 {
      var w := ws[0];
      assert w == w + [];
      WordLenOfWord(w, []);
      assert w[..|w|] == w;
      assert w[|w|..] == [];
    } else {
      var w, rest := ws[0], " " + Join(ws[1..]);
      var s := w + rest;
      assert Join(ws) == s;
      WordLenOfWord(w, rest);
      assert !IsSpace(s[0]);
      assert s[..|w|] == w;
      assert s[|w|..] == rest;
      SplitSpaceFront(Join(ws[1..]));
      SplitJoin(ws[1..]);
      assert ws == [w] + ws[1..];
    }
  }

  /** Joining a prefix of the words of a text and splitting it again gives
      back that prefix: the prefix is recoverable from the joined string. */
  lemma SplitJoinPrefix(s: string, k: nat)
    requires k <= |Split(s)|
    ensures Split(Join(Split(s)[..k])) == Split(s)[..k]
  {
    SplitJoin(Split(s)[..k]);
  }

  /** Re-splitting the normalised text (words joined by single spaces)
      yields the same words: normalising is idempotent. */
  lemma NormaliseIdempotent(s: string)
    ensures Split(Join(Split(s))) == Split(s)
  {
    SplitJoin(Split(s));
  }

  /** Text made only of whitespace has no words. */
  lemma {:induction false} SplitBlank(s: string)
    requires forall k :: 0 <= k < |s| ==> IsSpace(s[k])
    ensures Split(s) == []
    decreases |s|
  {
    if s != [] {
      SplitBlank(s[1..]);
    }
  }

  /** A single word splits into itself. */
  lemma SplitWord(w: string)
    requires IsWord(w)
    ensures Split(w) == [w]
  {
    SplitJoin([w]);
  }

  /** The front word of `a` ends where it would in `a + t` when `t` starts
      with whitespace. */
  lemma {:induction false} WordLenAppend(a: string, t: string)
    requires t != [] && IsSpace(t[0])
    ensures WordLen(a + t) == WordLen(a)
    decreases |a|
  {
    if a == [] {
      assert a + t == t;
    } else {
      assert (a + t)[0] == a[0];
      assert (a + t)[1..] == a[1..] + t;
      WordLenAppend(a[1..], t);
    }
  }

  /** Any whitespace character separates: the words of `a c b` are the
      words of `a` followed by those of `b`. With `SplitBlank` and
      `SplitWord` this pins `Split` down as the maximal non-space runs of
      the text, in order. */
  lemma {:induction false} SplitAtSpace(a: string, c: char, b: string)
    requires IsSpace(c)
    ensures Split(a + [c] + b) == Split(a) + Split(b)
    decreases |a|
  {
    var s := a + [c] + b;
    if a == [] {
      assert s == [c] + b;
      assert s[1..] == b;
    } else if IsSpace(a[0]) {
      assert s[0] == a[0];
      assert s[1..] == a[1..] + [c] + b;
      SplitAtSpace(a[1..], c, b);
    } else {
      var t := [c] + b;
      assert s == a + t;
      WordLenAppend(a, t);
      var n := WordLen(a);
      assert s[0] == a[0];
      assert s[..n] == a[..n];
      assert s[n..] == a[n..] + [c] + b;
      SplitAtSpace(a[n..], c, b);
    }
  }

  /** `strip()` removes exactly the whitespace around a word-like core:
      padding on either side is dropped and the core is kept whole. */
  lemma StripPadded(pre: string, w: string, post: string)
    requires forall k :: 0 <= k < |pre| ==> IsSpace(pre[k])
    requires forall k :: 0 <= k < |post| ==> IsSpace(post[k])
    requires w != [] && !IsSpace(w[0]) && !IsSpace(w[|w| - 1])
    ensures Strip(pre + w + post) == w
  {
    var s := pre + w + post;
    var i, j := LeadingSpaces(s), TrailingStart(s);
    assert s[|pre|] == w[0];
    assert s[|pre| + |w| - 1] == w[|w| - 1];
    assert forall k :: 0 <= k < |pre| ==> s[k] == pre[k];
    assert forall k :: |pre| + |w| <= k < |s| ==> s[k] == post[k - |pre| - |w|];
    assert i == |pre|;
    assert j == |pre| + |w|;
    assert s[i..j] == w;
  }
}
