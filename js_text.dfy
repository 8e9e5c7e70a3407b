/**
 * The JavaScript string operations the server relies on, over `string`
 * (a `seq<char>`): `String.prototype.split` with a one-character separator,
 * the inverse `Array.prototype.join`, and the decimal rendering of a
 * non-negative integer that `'' + n` produces.
 */
module JsText {
  import opened Wrappers

  /** Position of the first `c` in `s`, or `|s|` when `s` has none. */
  function IndexOf(s: string, c: char): (k: nat)
    ensures k <= |s|
  {
    if s == [] then 0
    else if s[0] == c then 0
    else 1 + IndexOf(s[1..], c)
  }

  /** `IndexOf` finds the first occurrence, and reports `|s|` exactly when there is none. */
  lemma {:induction false} IndexOfFirst(s: string, c: char)
    ensures IndexOf(s, c) < |s| ==> s[IndexOf(s, c)] == c
    ensures forall j :: 0 <= j < IndexOf(s, c) ==> s[j] != c
    ensures IndexOf(s, c) == |s| <==> c !in s
  {
    if s != [] && s[0] != c {
      IndexOfFirst(s[1..], c);
      assert forall j :: 1 <= j < |s| ==> s[j] == s[1..][j - 1];
    }
  }

  /** `s.split(sep)`: the maximal separator-free pieces of `s`, in order. */
  function Split(s: string, sep: char): (parts: seq<string>)
    ensures |parts| >= 1
    decreases |s|
  {
    var k := IndexOf(s, sep);
    if k == |s| then [s]
    else [s[..k]] + Split(s[k + 1..], sep)
  }

  /** No piece of a split contains the separator. */
  lemma {:induction false} SplitPiecesFree(s: string, sep: char)
    ensures forall k :: 0 <= k < |Split(s, sep)| ==> sep !in Split(s, sep)[k]
    decreases |s|
  {
    var k := IndexOf(s, sep);
    IndexOfFirst(s, sep);
    if k < |s| {
      SplitPiecesFree(s[k + 1..], sep);
      var rest := Split(s[k + 1..], sep);
      assert Split(s, sep) == [s[..k]] + rest;
      assert sep !in s[..k];
    }
  }

  /** `parts.join(sep)`. */
  function Join(parts: seq<string>, sep: char): string
  {
    if |parts| == 0 then ""
    else if |parts| == 1 then parts[0]
    else parts[0] + [sep] + Join(parts[1..], sep)
  }

  /** `s.split(sep)[n]`, which is `undefined` (here None) past the last piece. */
  function Segment(s: string, sep: char, n: nat): Option<string>
  {
    var parts := Split(s, sep);
    if n < |parts| then Some(parts[n]) else None
  }

  /** A segment exists exactly when the split has more than `n` pieces, and holds no separator. */
  lemma SegmentFree(s: string, sep: char, n: nat)
    ensures Segment(s, sep, n).Some? <==> n < |Split(s, sep)|
    ensures Segment(s, sep, n).Some? ==> sep !in Segment(s, sep, n).value
  {
    SplitPiecesFree(s, sep);
  }

  /** Joining the pieces of a split gives back the original string. */
  lemma {:induction false} JoinSplit(s: string, sep: char)
    ensures Join(Split(s, sep), sep) == s
    decreases |s|
  {
    var k := IndexOf(s, sep);
    IndexOfFirst(s, sep);
    if k < |s| {
      var rest := Split(s[k + 1..], sep);
      JoinSplit(s[k + 1..], sep);
      assert Split(s, sep) == [s[..k]] + rest;
      assert ([s[..k]] + rest)[1..] == rest;
      assert s == s[..k] + [sep] + s[k + 1..];
    }
  }

  /** The first separator in `p + [sep] + t` is the one after `p`, when `p` has none. */
  lemma IndexOfAfterPiece(p: string, sep: char, t: string)
    requires sep !in p
    ensures IndexOf(p + [sep] + t, sep) == |p|
  {
    var s := p + [sep] + t;
    var k := IndexOf(s, sep);
    IndexOfFirst(s, sep);
    assert s[|p|] == sep;
    assert forall j :: 0 <= j < |p| ==> s[j] == p[j];
  }

  /** Splitting a join of separator-free pieces gives back the pieces. */
  lemma {:induction false} SplitJoin(parts: seq<string>, sep: char)
    requires |parts| >= 1
    requires forall k :: 0 <= k < |parts| ==> sep !in parts[k]
    ensures Split(Join(parts, sep), sep) == parts
  {
    if |parts| > 1 {
      var p, rest := parts[0], parts[1..];
      var tail := Join(rest, sep);
      var s := p + [sep] + tail;
      assert Join(parts, sep) == s;
      IndexOfAfterPiece(p, sep, tail);
      assert s[..|p|] == p && s[|p| + 1..] == tail;
      assert Split(s, sep) == [p] + Split(tail, sep);
      SplitJoin(rest, sep);
      assert parts == [p] + rest;
    } else {
      IndexOfFirst(parts[0], sep);
    }
  }

  /**
   * The host of an absolute URL: for `scheme//host/path` with no `/` in the
   * scheme or the host, the third piece after splitting on `/` is the host.
   */
  lemma HostSegment(scheme: string, host: string, path: string)
    requires '/' !in scheme && '/' !in host
    ensures Segment(scheme + "//" + host + "/" + path, '/', 2) == Some(host)
  {
    var tail := Split(path, '/');
    var parts := [scheme, "", host] + tail;
    JoinSplit(path, '/');
    SplitPiecesFree(path, '/');
    assert forall k :: 3 <= k < |parts| ==> parts[k] == tail[k - 3];
    assert parts[1..] == ["", host] + tail;
    assert parts[1..][1..] == [host] + tail;
    assert ([host] + tail)[1..] == tail;
    assert Join([host] + tail, '/') == host + "/" + path;
    assert Join(parts[1..], '/') == "" + "/" + host + "/" + path;
    assert Join(parts, '/') == scheme + "//" + host + "/" + path;
    SplitJoin(parts, '/');
  }

  // ---- Decimal rendering of non-negative integers ----

  predicate IsDigit(c: char) { '0' <= c <= '9' }

  predicate AllDigits(s: string) { forall k :: 0 <= k < |s| ==> IsDigit(s[k]) }

  function DigitChar(d: nat): (c: char)
    requires d < 10
    ensures IsDigit(c)
  {
    (48 + d) as char
  }

  function DigitValue(c: char): (d: nat)
    requires IsDigit(c)
    ensures d < 10
  {
    c as int - 48
  }

  /** `'' + n` for a non-negative integer: its shortest decimal digit string. */
  function Decimal(n: nat): (s: string)
    ensures |s| >= 1 && AllDigits(s)
    ensures s[0] == '0' ==> n == 0
  {
    if n < 10 then [DigitChar(n)]
    else Decimal(n / 10) + [DigitChar(n % 10)]
  }

  /** The number a digit string denotes (the reference reading of `Decimal`). */
  function DecimalValue(s: string): nat
    requires AllDigits(s)
  {
    if s == [] then 0
    else DecimalValue(s[..|s| - 1]) * 10 + DigitValue(s[|s| - 1])
  }

  /** Reading back a rendered number gives the number. */
  lemma {:induction false} DecimalRoundTrip(n: nat)
    ensures DecimalValue(Decimal(n)) == n
  {
    if n >= 10 {
      var s := Decimal(n);
      assert s[..|s| - 1] == Decimal(n / 10);
      DecimalRoundTrip(n / 10);
    }
  }

  /** Distinct numbers have distinct renderings. */
  lemma DecimalInjective(a: nat, b: nat)
    requires Decimal(a) == Decimal(b)
    ensures a == b
  {
    DecimalRoundTrip(a);
    DecimalRoundTrip(b);
  }

  function Pow10(k: nat): (p: nat)
    ensures p >= 1
  {
    if k == 0 then 1 else 10 * Pow10(k - 1)
  }

  /** A number with `k` digits is rendered with exactly `k` characters. */
  lemma {:induction false} DecimalLength(n: nat, k: nat)
    requires k >= 1 && Pow10(k - 1) <= n < Pow10(k)
    ensures |Decimal(n)| == k
  {
    if n >= 10 {
      assert k >= 2;
      DecimalLength(n / 10, k - 1);
    }
  }
}
