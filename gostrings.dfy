/**
 * The two functions of Go's `strings` package that the page reader relies on:
 * `TrimSpace` (applied to the captured markup) and `Contains` (behind
 * `PageReader.Contains`). Go strings are UTF-8 byte strings; here a string is a
 * sequence of code points, which is what `TrimSpace` decodes it into.
 */
module GoStrings {

  /** `unicode.IsSpace`: the Latin-1 spaces plus the other White_Space code points. */
  predicate IsSpace(c: char) {
    c == '\t' || c == '\n' || c == '\U{000B}' || c == '\U{000C}' || c == '\r' || c == ' '
    || c == '\U{0085}' || c == '\U{00A0}' || c == '\U{1680}'
    || ('\U{2000}' <= c <= '\U{200A}')
    || c == '\U{2028}' || c == '\U{2029}' || c == '\U{202F}' || c == '\U{205F}' || c == '\U{3000}'
  }

  /** Drops the leading white space: the result is the suffix of `s` after it. */
  function TrimLeft(s: string): (r: string)
    ensures |r| <= |s| && r == s[|s| - |r|..]
    ensures forall i :: 0 <= i < |s| - |r| ==> IsSpace(s[i])
    ensures r != [] ==> !IsSpace(r[0])
  {
    if s != [] && IsSpace(s[0]) then TrimLeft(s[1..]) else s
  }

  /** Drops the trailing white space: the result is the prefix of `s` before it. */
  function TrimRight(s: string): (r: string)
    ensures |r| <= |s| && r == s[..|r|]
    ensures forall i :: |r| <= i < |s| ==> IsSpace(s[i])
    ensures r != [] ==> !IsSpace(r[|r| - 1])
  {
    if s != [] && IsSpace(s[|s| - 1]) then TrimRight(s[..|s| - 1]) else s
  }

  /**
   * `r` is the slice of `s` that starts at `k`, and everything in `s`
   * before and after that slice is white space.
   */
  predicate SliceBetweenSpaces(s: string, r: string, k: int) {
    && 0 <= k && k + |r| <= |s| && r == s[k..k + |r|]
    && (forall i :: 0 <= i < k ==> IsSpace(s[i]))
    && (forall i :: k + |r| <= i < |s| ==> IsSpace(s[i]))
  }

  /**
   * `strings.TrimSpace`: the slice of `s` left after its leading white space
   * (the first `k` characters) and its trailing white space are removed, so
   * no white space is left at either end.
   */
  function TrimSpace(s: string): (r: string)
    ensures |r| <= |s|
    ensures SliceBetweenSpaces(s, r, |s| - |TrimLeft(s)|)
    ensures r != [] ==> !IsSpace(r[0]) && !IsSpace(r[|r| - 1])
    ensures r == [] <==> forall i :: 0 <= i < |s| ==> IsSpace(s[i])
  {
    TrimBothEnds(s, TrimLeft(s), TrimRight(TrimLeft(s)));
    TrimRight(TrimLeft(s))
  }

  /**
   * What trimming both ends gives, from what trimming each end does: a
   * suffix `l` of `s` after white space, not starting with white space, and
   * a prefix `r` of `l` before white space, not ending with white space.
   * Then `r` is the slice of `s` between two runs of white space, has none
   * at either end, and is empty exactly when `s` is all white space.
   */
  lemma TrimBothEnds(s: string, l: string, r: string)
    requires |l| <= |s| && l == s[|s| - |l|..]
    requires forall i :: 0 <= i < |s| - |l| ==> IsSpace(s[i])
    requires l != [] ==> !IsSpace(l[0])
    requires |r| <= |l| && r == l[..|r|]
    requires forall i :: |r| <= i < |l| ==> IsSpace(l[i])
    requires r != [] ==> !IsSpace(r[|r| - 1])
    ensures |r| <= |s|
    ensures SliceBetweenSpaces(s, r, |s| - |l|)
    ensures r != [] ==> !IsSpace(r[0]) && !IsSpace(r[|r| - 1])
    ensures r == [] <==> forall i :: 0 <= i < |s| ==> IsSpace(s[i])
  {
    var k := |s| - |l|;
    PrefixOfSuffix(s, k, |r|);
    forall i | k + |r| <= i < |s| ensures IsSpace(s[i]) {
      assert s[i] == l[i - k];
    }
    if r != [] {
      assert r[0] == l[0] == s[k];
    }
  }

  /** The first `n` elements of the suffix from `k` are the slice from `k` to `k + n`. */
  lemma PrefixOfSuffix<T>(s: seq<T>, k: int, n: int)
    requires 0 <= k && 0 <= n && k + n <= |s|
    ensures s[k..][..n] == s[k..k + n]
  {
  }

  /** A string with no white space at either end is left as it is. */
  lemma TrimSpaceKeepsTrimmed(s: string)
    requires s == [] || (!IsSpace(s[0]) && !IsSpace(s[|s| - 1]))
    ensures TrimSpace(s) == s
  {
  }

  /** Trimming twice is trimming once. */
  lemma TrimSpaceIdempotent(s: string)
    ensures TrimSpace(TrimSpace(s)) == TrimSpace(s)
  {
    TrimSpaceKeepsTrimmed(TrimSpace(s));
  }

  /** `strings.Contains(h, s)`: `s` occurs in `h` (the empty string occurs everywhere). */
  function ContainsText(h: string, s: string): bool
  {
    s <= h || (h != [] && ContainsText(h[1..], s))
  }

  /** `s` occurs in `h` starting at index `i`. */
  predicate OccursAt(h: string, s: string, i: int) {
    0 <= i <= |h| - |s| && h[i..i + |s|] == s
  }

  /** The reference definition of containment: `s` occurs in `h` at some index. */
  lemma {:induction false} ContainsTextAt(h: string, s: string)
    ensures ContainsText(h, s) <==> exists i :: OccursAt(h, s, i)
  {
    if s <= h {
      assert OccursAt(h, s, 0);
    } else if h == [] {
    } else {
      ContainsTextAt(h[1..], s);
      if ContainsText(h[1..], s) {
        var i :| OccursAt(h[1..], s, i);
        assert h[i + 1..i + 1 + |s|] == h[1..][i..i + |s|];
        assert OccursAt(h, s, i + 1);
      }
      if exists i :: OccursAt(h, s, i) {
        var i :| OccursAt(h, s, i);
        assert i != 0;
        assert h[1..][i - 1..i - 1 + |s|] == h[i..i + |s|];
        assert OccursAt(h[1..], s, i - 1);
      }
    }
  }

  /** Only the empty string occurs in the empty string. */
  lemma ContainsTextInEmpty(s: string)
    ensures ContainsText("", s) <==> s == ""
  {
  }

  /**
   * The UTF-8 encoding of one code point, as byte values: one byte below
   * U+0080, otherwise a lead byte that announces the length followed by
   * continuation bytes in [0x80, 0xC0), six payload bits each.
   */
  function Utf8(c: char): (bs: seq<int>)
    ensures 1 <= |bs| <= 4
    ensures forall i :: 0 <= i < |bs| ==> 0 <= bs[i] < 256
    ensures (c as int < 0x80) <==> |bs| == 1
    ensures |bs| == 1 ==> bs[0] == c as int
    ensures |bs| == 2 ==> 0xC2 <= bs[0] < 0xE0
    ensures |bs| == 3 ==> 0xE0 <= bs[0] < 0xF0
    ensures |bs| == 4 ==> 0xF0 <= bs[0] < 0xF5
    ensures forall i :: 1 <= i < |bs| ==> 0x80 <= bs[i] < 0xC0
  {
    var n := c as int;
    if n < 0x80 then [n]
    else if n < 0x800 then [0xC0 + n / 64, 0x80 + n % 64]
    else if n < 0x10000 then [0xE0 + n / 4096, 0x80 + n / 64 % 64, 0x80 + n % 64]
    else [0xF0 + n / 262144, 0x80 + n / 4096 % 64, 0x80 + n / 64 % 64, 0x80 + n % 64]
  }

  /** The code point a well-formed one-to-four byte UTF-8 sequence stands for. */
  function Utf8Decode(bs: seq<int>): int
    requires 1 <= |bs| <= 4
  {
    if |bs| == 1 then bs[0]
    else if |bs| == 2 then (bs[0] - 0xC0) * 64 + (bs[1] - 0x80)
    else if |bs| == 3 then (bs[0] - 0xE0) * 4096 + (bs[1] - 0x80) * 64 + (bs[2] - 0x80)
    else (bs[0] - 0xF0) * 262144 + (bs[1] - 0x80) * 4096 + (bs[2] - 0x80) * 64 + (bs[3] - 0x80)
  }

  /** Decoding the encoding of a code point gives the code point back. */
  lemma Utf8RoundTrip(c: char)
    ensures Utf8Decode(Utf8(c)) == c as int
  {
    var n := c as int;
    assert n / 4096 == n / 64 / 64;
    assert n / 262144 == n / 4096 / 64;
  }

  /** The bytes of a Go string: the UTF-8 encodings of its code points, in order. */
  function Utf8Encode(s: string): (bs: seq<int>)
    ensures |s| <= |bs| <= 4 * |s|
    ensures forall i :: 0 <= i < |bs| ==> 0 <= bs[i] < 256
  {
    if s == [] then [] else Utf8(s[0]) + Utf8Encode(s[1..])
  }
}
