/**
 * The few Python `str` operations the comparator relies on, over `seq<char>`:
 * `str.isspace` on one character, `str.strip()` with no argument, and the
 * first / last position of a character (what the comparator's regular
 * expression `\{.*\}` reduces to, see `Comparator.BraceSpan`).
 */
module PyStr {

  /** Python's `str.isspace()` for one character: the ASCII controls
      TAB..CR and FS..US, SPACE, NEL, NBSP and the Unicode space separators,
      line and paragraph separators. */
  predicate IsSpace(c: char) {
    c == ' ' || ('\t' <= c <= '\r') || ('\U{1C}' <= c <= '\U{1F}')
    || c == '\U{85}' || c == '\U{A0}' || c == '\U{1680}'
    || ('\U{2000}' <= c <= '\U{200A}') || c == '\U{2028}' || c == '\U{2029}'
    || c == '\U{202F}' || c == '\U{205F}' || c == '\U{3000}'
  }

  /** Python's whitespace code points listed one by one, as `str.isspace`
      documents them (the characters with bidirectional class WS, B or S, or
      general category Zs). */
  const Whitespace: seq<char> := [
    '\t', '\n', '\U{0B}', '\U{0C}', '\r', '\U{1C}', '\U{1D}', '\U{1E}', '\U{1F}', ' ',
    '\U{85}', '\U{A0}', '\U{1680}',
    '\U{2000}', '\U{2001}', '\U{2002}', '\U{2003}', '\U{2004}', '\U{2005}',
    '\U{2006}', '\U{2007}', '\U{2008}', '\U{2009}', '\U{200A}',
    '\U{2028}', '\U{2029}', '\U{202F}', '\U{205F}', '\U{3000}'
  ]

  /** `IsSpace` accepts exactly the listed code points. */
  lemma IsSpaceListed(c: char)
    ensures IsSpace(c) <==> c in Whitespace
  {
  }

  predicate AllSpace(s: string) {
    forall k :: 0 <= k < |s| ==> IsSpace(s[k])
  }

  /** `s.lstrip()`: drops the leading whitespace, and only that. */
  function LStrip(s: string): (r: string)
    ensures |r| <= |s| && r == s[|s| - |r|..]
    ensures AllSpace(s[..|s| - |r|])
    ensures r == [] || !IsSpace(r[0])
  {
    if s != [] && IsSpace(s[0]) then LStrip(s[1..]) else s
  }

  /** `s.rstrip()`: drops the trailing whitespace, and only that. */
  function RStrip(s: string): (r: string)
    ensures |r| <= |s| && r == s[..|r|]
    ensures AllSpace(s[|r|..])
    ensures r == [] || !IsSpace(r[|r| - 1])
  {
    if s != [] && IsSpace(s[|s| - 1]) then
      var r := RStrip(s[..|s| - 1]);
      assert s[|r|..] == s[..|s| - 1][|r|..] + [s[|s| - 1]];
      r
    else s
  }

  /** `s.strip()`: neither end of the result is whitespace. */
  function Strip(s: string): (r: string)
    ensures |r| <= |s|
    ensures r == [] || (!IsSpace(r[0]) && !IsSpace(r[|r| - 1]))
  {
    RStrip(LStrip(s))
  }

  /** `strip` returns a slice of its argument: it adds nothing and reorders nothing. */
  lemma StripIsSlice(s: string) returns (a: nat)
    ensures a + |Strip(s)| <= |s| && Strip(s) == s[a..a + |Strip(s)|]
  {
    var l := LStrip(s);
    a := |s| - |l|;
    assert Strip(s) == l[..|Strip(s)|];
  }

  /** The padding that `strip` removes is exactly the whitespace around a word
      that neither starts nor ends with whitespace. */
  lemma {:induction false} StripPadded(a: string, w: string, c: string)
    requires AllSpace(a) && AllSpace(c)
    requires w == [] || (!IsSpace(w[0]) && !IsSpace(w[|w| - 1]))
    ensures Strip(a + w + c) == w
  {
    if w == [] {
      assert a + w + c == a + c;
      LStripPadded(a + c, []);
      assert a + c + [] == a + c;
    } else {
      assert a + w + c == a + (w + c);
      LStripPadded(a, w + c);
      RStripPadded(w, c);
    }
  }

  lemma {:induction false} LStripPadded(a: string, s: string)
    requires AllSpace(a)
    requires s == [] || !IsSpace(s[0])
    ensures LStrip(a + s) == s
  {
    if a != [] {
      assert (a + s)[1..] == a[1..] + s;
      LStripPadded(a[1..], s);
    } else {
      assert a + s == s;
    }
  }

  lemma {:induction false} RStripPadded(w: string, c: string)
    requires AllSpace(c)
    requires w != [] && !IsSpace(w[|w| - 1])
    ensures RStrip(w + c) == w
  {
    if c != [] {
      assert (w + c)[..|w + c| - 1] == w + c[..|c| - 1];
      RStripPadded(w, c[..|c| - 1]);
    } else {
      assert w + c == w;
    }
  }

  /** The first position of `x` in `s`, or `|s|` when there is none
      (Python's `str.find` answers -1 in that case). */
  function IndexOf<T(==)>(s: seq<T>, x: T): (r: nat)
    ensures r <= |s|
    ensures r < |s| ==> s[r] == x
    ensures forall k :: 0 <= k < r ==> s[k] != x
    ensures x !in s[..r]
  {
    if s == [] then 0
    else if s[0] == x then 0
    else
      assert s[..1 + IndexOf(s[1..], x)] == [s[0]] + s[1..][..IndexOf(s[1..], x)];
      1 + IndexOf(s[1..], x)
  }

  /** The last position of `x` in `s`, or -1 when there is none
      (Python's `str.rfind`). */
  function LastIndexOf<T(==)>(s: seq<T>, x: T): (r: int)
    ensures -1 <= r < |s|
    ensures 0 <= r ==> s[r] == x
    ensures forall k :: r < k < |s| ==> s[k] != x
  {
    if s == [] then -1
    else if s[|s| - 1] == x then |s| - 1
    else LastIndexOf(s[..|s| - 1], x)
  }
}
