/** Go strings as the bytes of their UTF-8 encoding, so that `|s|` is Go's
    `len(s)`, together with the few standard-library string helpers the
    handlers rely on: strings.TrimSpace, strings.SplitN's search for the
    separator, filepath.Ext and strings.ToLower. */
module Text {
  newtype byte = b: int | 0 <= b < 256
  type Bytes = seq<byte>

  const NUL: byte := 0
  const DOUBLE_QUOTE: byte := 34
  const HASH: byte := 35
  const SINGLE_QUOTE: byte := 39
  const DOT: byte := 46
  const SLASH: byte := 47
  const EQUALS: byte := 61

  /** The ASCII white space strings.TrimSpace removes: tab, line feed,
      vertical tab, form feed, carriage return and space. */
  predicate IsSpace(b: byte) {
    b == 32 || 9 <= b <= 13
  }

  predicate OnlySpace(s: Bytes) {
    forall i :: 0 <= i < |s| ==> IsSpace(s[i])
  }

  /** Neither end of `s` is white space. */
  predicate IsTrimmed(s: Bytes) {
    s == [] || (!IsSpace(s[0]) && !IsSpace(s[|s| - 1]))
  }

  /** The first index at or after `i` that does not hold white space,
      or |s|: the forward scan of strings.TrimSpace. */
  function SpanStart(s: Bytes, i: nat): (k: nat)
    requires i <= |s|
    ensures i <= k <= |s|
    ensures k < |s| ==> !IsSpace(s[k])
    decreases |s| - i
  {
    if i < |s| && IsSpace(s[i]) then SpanStart(s, i + 1) else i
  }

  /** The end of the span that starts at `lo` once the white space before
      `j` is dropped: the backward scan of strings.TrimSpace. */
  function SpanEnd(s: Bytes, lo: nat, j: nat): (k: nat)
    requires lo <= j <= |s|
    ensures lo <= k <= j
    ensures k > lo ==> !IsSpace(s[k - 1])
    decreases j
  {
    if j > lo && IsSpace(s[j - 1]) then SpanEnd(s, lo, j - 1) else j
  }

  /** The forward scan steps over white space only. */
  lemma {:induction false} SpanStartSkipsSpace(s: Bytes, i: nat)
    requires i <= |s|
    ensures forall k :: i <= k < SpanStart(s, i) ==> IsSpace(s[k])
    decreases |s| - i
  {
    if i < |s| && IsSpace(s[i]) {
      SpanStartSkipsSpace(s, i + 1);
    }
  }

  /** The backward scan steps over white space only. */
  lemma {:induction false} SpanEndSkipsSpace(s: Bytes, lo: nat, j: nat)
    requires lo <= j <= |s|
    ensures forall k :: SpanEnd(s, lo, j) <= k < j ==> IsSpace(s[k])
    decreases j
  {
    if j > lo && IsSpace(s[j - 1]) {
      SpanEndSkipsSpace(s, lo, j - 1);
    }
  }

  /** strings.TrimSpace: `s` with the white space at both ends removed. A
      trimmed input comes back unchanged; TrimSpaceIsInfix says that the
      result is the part of `s` between its leading and trailing space. */
  function TrimSpace(s: Bytes): (r: Bytes)
    ensures IsTrimmed(r)
    ensures |r| <= |s|
    ensures IsTrimmed(s) ==> r == s
  {
    var lo := SpanStart(s, 0);
    var hi := SpanEnd(s, lo, |s|);
    assert IsTrimmed(s) && s != [] ==> lo == 0 && hi == |s|;
    s[lo..hi]
  }

  lemma TrimSpaceIsInfix(s: Bytes) returns (a: nat)
    ensures a + |TrimSpace(s)| <= |s| && TrimSpace(s) == s[a..a + |TrimSpace(s)|]
    ensures OnlySpace(s[..a]) && OnlySpace(s[a + |TrimSpace(s)|..])
  {
    a := SpanStart(s, 0);
    var hi := SpanEnd(s, a, |s|);
    SpanStartSkipsSpace(s, 0);
    SpanEndSkipsSpace(s, a, |s|);
    assert forall k :: 0 <= k < |s[hi..]| ==> s[hi..][k] == s[hi + k];
  }

  /** The trimmed string starts at the first byte that is not white
      space, and is empty exactly when there is none. */
  lemma TrimSpaceFirst(s: Bytes) returns (k: nat)
    ensures k <= |s| && OnlySpace(s[..k])
    ensures TrimSpace(s) == [] <==> k == |s|
    ensures k < |s| ==> !IsSpace(s[k]) && TrimSpace(s)[0] == s[k]
  {
    k := SpanStart(s, 0);
    SpanStartSkipsSpace(s, 0);
    SpanEndSkipsSpace(s, k, |s|);
  }

  /** Trimming only removes bytes: a byte `s` lacks is not in the result. */
  lemma TrimSpaceOmits(s: Bytes, b: byte)
    requires b !in s
    ensures b !in TrimSpace(s)
  {
  }

  /** The index of the first `b` in `s`, or -1 when `s` holds none: how
      strings.SplitN(s, sep, 2) decides where to cut. */
  function IndexOf(s: Bytes, b: byte): (r: int)
    ensures -1 <= r < |s|
    ensures r == -1 <==> b !in s
    ensures 0 <= r ==> s[r] == b && b !in s[..r]
  {
    if s == [] then -1
    else if s[0] == b then 0
    else
      var i := IndexOf(s[1..], b);
      assert s[1..][..if i < 0 then 0 else i] == s[1..if i < 0 then 1 else i + 1];
      if i < 0 then -1 else i + 1
  }

  /** The index of a byte is where it first occurs. */
  lemma IndexOfFirst(s: Bytes, b: byte, i: nat)
    requires i < |s| && s[i] == b && b !in s[..i]
    ensures IndexOf(s, b) == i
  {
  }

  /** filepath.Ext on a slash-separated path: the suffix that starts at the
      final dot of the last path element, or empty when that element has
      no dot. */
  function Ext(p: Bytes): (r: Bytes)
    ensures |r| <= |p| && r == p[|p| - |r|..]
    ensures r != [] ==> r[0] == DOT && forall i :: 1 <= i < |r| ==> r[i] != DOT && r[i] != SLASH
    ensures r == [] ==> forall i :: 0 <= i < |p| && p[i] == DOT ==> SLASH in p[i..]
  {
    if p == [] || p[|p| - 1] == SLASH then []
    else if p[|p| - 1] == DOT then [DOT]
    else
      var init := p[..|p| - 1];
      var e := Ext(init);
      if e == [] then
        assert forall i :: 0 <= i < |init| ==> init[i..] <= p[i..];
        []
      else
        e + [p[|p| - 1]]
  }

  /** unicode.ToLower restricted to ASCII letters. */
  function LowerByte(b: byte): byte {
    if 65 <= b <= 90 then b + 32 else b
  }

  /** strings.ToLower, byte by byte on ASCII letters. */
  function ToLower(s: Bytes): Bytes {
    seq(|s|, i requires 0 <= i < |s| => LowerByte(s[i]))
  }

  /** Lower-casing keeps the length, turns every upper-case letter into its
      lower-case letter, keeps every other byte, and leaves no upper-case
      letter behind. */
  lemma ToLowerLetters(s: Bytes)
    ensures |ToLower(s)| == |s|
    ensures forall i :: 0 <= i < |s| && 65 <= s[i] <= 90 ==> ToLower(s)[i] == s[i] + 32
    ensures forall i :: 0 <= i < |s| && !(65 <= s[i] <= 90) ==> ToLower(s)[i] == s[i]
    ensures forall i :: 0 <= i < |s| ==> !(65 <= ToLower(s)[i] <= 90)
  {
  }
}
