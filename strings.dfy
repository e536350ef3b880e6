/**
 * The handful of Python `str` operations the program relies on, stated over
 * `string` (a sequence of Unicode scalar values, as Python's code points).
 */
module Strings {

  /** The characters for which Python's `str.isspace` holds; `str.strip()` removes exactly these. */
  predicate IsWhitespace(c: char) {
    || ('\t' <= c <= '\r')
    || ('\U{1C}' <= c <= '\U{1F}')
    || c == ' '
    || c == '\U{85}'
    || c == '\U{A0}'
    || c == '\U{1680}'
    || ('\U{2000}' <= c <= '\U{200A}')
    || c == '\U{2028}'
    || c == '\U{2029}'
    || c == '\U{202F}'
    || c == '\U{205F}'
    || c == '\U{3000}'
  }

  /** `not s.strip()`: every character is whitespace (the empty string included). */
  predicate IsBlank(s: string) {
    forall i :: 0 <= i < |s| ==> IsWhitespace(s[i])
  }

  /** `s.lstrip()`: `s` without its leading whitespace. */
  function LStrip(s: string): (r: string)
    ensures |r| <= |s|
    ensures s != [] && IsWhitespace(s[0]) ==> |r| < |s|
    decreases |s|
  {
    if s != [] && IsWhitespace(s[0]) then LStrip(s[1..]) else s
  }

  /** `s.rstrip()`: `s` without its trailing whitespace. */
  function RStrip(s: string): (r: string)
    ensures |r| <= |s|
    decreases |s|
  {
    if s != [] && IsWhitespace(s[|s| - 1]) then RStrip(s[..|s| - 1]) else s
  }

  /** `s.strip()`: `s` without its leading and its trailing whitespace. */
  function Strip(s: string): (r: string)
    ensures |r| <= |s|
    ensures s != [] && IsWhitespace(s[0]) ==> |r| < |s|
  {
    RStrip(LStrip(s))
  }

  /** `LStrip` keeps a suffix and drops only whitespace, up to a character that is not whitespace. */
  lemma {:induction false} LStripParts(s: string)
    ensures var r := LStrip(s);
      && r == s[|s| - |r|..] && IsBlank(s[..|s| - |r|])
      && (r == [] || !IsWhitespace(r[0]))
    decreases |s|
  {
    if s != [] && IsWhitespace(s[0]) {
      var t := s[1..];
      LStripParts(t);
      var r := LStrip(t);
      assert s[|s| - |r|..] == t[|t| - |r|..];
      assert s[..|s| - |r|] == [s[0]] + t[..|t| - |r|];
    } else {
      assert s[..0] == [];
    }
  }

  /** `RStrip` keeps a prefix and drops only whitespace, up to a character that is not whitespace. */
  lemma {:induction false} RStripParts(s: string)
    ensures var r := RStrip(s);
      && r == s[..|r|] && IsBlank(s[|r|..])
      && (r == [] || !IsWhitespace(r[|r| - 1]))
    decreases |s|
  {
    if s != [] && IsWhitespace(s[|s| - 1]) {
      var t := s[..|s| - 1];
      RStripParts(t);
      var r := RStrip(t);
      assert s[..|r|] == t[..|r|];
      assert s[|r|..] == t[|r|..] + [s[|s| - 1]];
    } else {
      assert s[|s|..] == [];
    }
  }

  /** The whitespace `Strip` drops in front of its result. */
  function Lead(s: string): string {
    s[..|s| - |LStrip(s)|]
  }

  /** The whitespace `Strip` drops after its result. */
  function Trail(s: string): string {
    var l := LStrip(s);
    l[|RStrip(l)|..]
  }

  /** `Strip` drops whitespace only: `s` is the leading whitespace, the result and the trailing whitespace. */
  lemma StripParts(s: string)
    ensures s == Lead(s) + Strip(s) + Trail(s)
    ensures IsBlank(Lead(s)) && IsBlank(Trail(s))
  {
    var l := LStrip(s);
    var r := RStrip(l);
    LStripParts(s);
    RStripParts(l);
    assert s == Lead(s) + l;
    assert l == r + Trail(s);
  }

  /** The result of `Strip` is empty exactly when `s` is blank, and otherwise starts and ends with a character that is not whitespace. */
  lemma StripEnds(s: string)
    ensures var r := Strip(s);
      && (r == [] <==> IsBlank(s))
      && (r == [] || (!IsWhitespace(r[0]) && !IsWhitespace(r[|r| - 1])))
  {
    var l := LStrip(s);
    var r := RStrip(l);
    LStripParts(s);
    RStripParts(l);
    StripParts(s);
    if r == [] {
      assert s == Lead(s) + Trail(s);
      BlankConcat(Lead(s), Trail(s));
    } else {
      assert r[0] == l[0];
      var n := |s| - |l|;
      assert s[n] == l[0];
    }
  }

  lemma BlankConcat(a: string, b: string)
    ensures IsBlank(a + b) <==> IsBlank(a) && IsBlank(b)
  {
    if IsBlank(a + b) {
      forall i | 0 <= i < |a| ensures IsWhitespace(a[i]) { assert a[i] == (a + b)[i]; }
      forall i | 0 <= i < |b| ensures IsWhitespace(b[i]) { assert b[i] == (a + b)[|a| + i]; }
    }
    if IsBlank(a) && IsBlank(b) {
      forall i | 0 <= i < |a + b| ensures IsWhitespace((a + b)[i]) {
        if i < |a| { assert (a + b)[i] == a[i]; } else { assert (a + b)[i] == b[i - |a|]; }
      }
    }
  }

  /** The string with every whitespace character deleted. */
  function RemoveWhitespace(s: string): (r: string)
    ensures |r| <= |s|
    ensures forall i :: 0 <= i < |r| ==> !IsWhitespace(r[i])
  {
    if s == [] then []
    else (if IsWhitespace(s[0]) then [] else [s[0]]) + RemoveWhitespace(s[1..])
  }

  lemma {:induction false} RemoveWhitespaceConcat(a: string, b: string)
    ensures RemoveWhitespace(a + b) == RemoveWhitespace(a) + RemoveWhitespace(b)
    decreases |a|
  {
    if a == [] {
      assert a + b == b;
    } else {
      assert (a + b)[0] == a[0] && (a + b)[1..] == a[1..] + b;
      RemoveWhitespaceConcat(a[1..], b);
    }
  }

  lemma {:induction false} RemoveWhitespaceBlank(s: string)
    ensures IsBlank(s) <==> RemoveWhitespace(s) == []
    decreases |s|
  {
    if s != [] {
      RemoveWhitespaceBlank(s[1..]);
      assert IsBlank(s) <==> IsWhitespace(s[0]) && IsBlank(s[1..]) by {
        if IsWhitespace(s[0]) && IsBlank(s[1..]) {
          forall i | 0 <= i < |s| ensures IsWhitespace(s[i]) { if i > 0 { assert s[i] == s[1..][i - 1]; } }
        }
      }
    }
  }

  /** Stripping changes a string only by whitespace. */
  lemma StripKeepsContent(s: string)
    ensures RemoveWhitespace(Strip(s)) == RemoveWhitespace(s)
  {
    var r := Strip(s);
    StripParts(s);
    var lead, trail := Lead(s), Trail(s);
    RemoveWhitespaceConcat(lead + r, trail);
    RemoveWhitespaceConcat(lead, r);
    RemoveWhitespaceBlank(lead);
    RemoveWhitespaceBlank(trail);
  }

  /**
   * `s.rfind(c, 0, end)` for a single character and `0 <= end <= len(s)`:
   * an index below `end` holding `c`, or -1; `RFindIsLast` shows it is the
   * highest such index.
   */
  function RFind(s: string, c: char, end: int): (r: int)
    requires 0 <= end <= |s|
    ensures -1 <= r < end
    ensures r >= 0 ==> s[r] == c
    decreases end
  {
    if end == 0 then -1 else if s[end - 1] == c then end - 1 else RFind(s, c, end - 1)
  }

  /** `RFind` misses nothing: no `c` lies after the index it returns, and none at all when it returns -1. */
  lemma {:induction false} RFindIsLast(s: string, c: char, end: int)
    requires 0 <= end <= |s|
    ensures var r := RFind(s, c, end);
      && (r >= 0 ==> forall j :: r < j < end ==> s[j] != c)
      && (r == -1 ==> forall j :: 0 <= j < end ==> s[j] != c)
    decreases end
  {
    if end > 0 && s[end - 1] != c {
      RFindIsLast(s, c, end - 1);
    }
  }

  /** `s.find(c)` for a single character: the lowest index holding `c`, or -1. */
  function Find(s: string, c: char): (r: int)
    ensures -1 <= r < |s|
    ensures r >= 0 ==> s[r] == c && forall j :: 0 <= j < r ==> s[j] != c
    ensures r == -1 ==> forall j :: 0 <= j < |s| ==> s[j] != c
  {
    if s == [] then -1
    else if s[0] == c then 0
    else
      var r := Find(s[1..], c);
      assert forall j :: 0 < j < |s| ==> s[j] == s[1..][j - 1];
      if r == -1 then -1 else r + 1
  }

  /** `sep` occurs in `s` starting at index `p`. */
  predicate OccursAt(s: string, sep: string, p: int) {
    0 <= p && p + |sep| <= |s| && s[p..p + |sep|] == sep
  }

  /** `s.find(sep)`: the leftmost occurrence of a non-empty `sep`, or -1. */
  function FindSub(s: string, sep: string): (r: int)
    requires sep != []
    ensures -1 <= r
    ensures r >= 0 ==> OccursAt(s, sep, r) && forall q :: 0 <= q < r ==> !OccursAt(s, sep, q)
    ensures r == -1 ==> forall q :: 0 <= q <= |s| - |sep| ==> !OccursAt(s, sep, q)
    decreases |s|
  {
    if |s| < |sep| then -1
    else if s[..|sep|] == sep then 0
    else
      var r := FindSub(s[1..], sep);
      assert forall q :: 1 <= q <= |s| - |sep| ==> (OccursAt(s, sep, q) <==> OccursAt(s[1..], sep, q - 1)) by {
        forall q | 1 <= q <= |s| - |sep| ensures OccursAt(s, sep, q) <==> OccursAt(s[1..], sep, q - 1) {
          assert s[1..][q - 1..q - 1 + |sep|] == s[q..q + |sep|];
        }
      }
      if r == -1 then -1 else r + 1
  }

  /** `s.rfind(sep)`: the rightmost occurrence of a non-empty `sep`, or -1. */
  function RFindSub(s: string, sep: string): (r: int)
    requires sep != []
    ensures -1 <= r
    ensures r >= 0 ==> OccursAt(s, sep, r) && forall q :: r < q <= |s| - |sep| ==> !OccursAt(s, sep, q)
    ensures r == -1 ==> forall q :: 0 <= q <= |s| - |sep| ==> !OccursAt(s, sep, q)
    decreases |s|
  {
    if |s| < |sep| then -1
    else if s[|s| - |sep|..] == sep then |s| - |sep|
    else
      var r := RFindSub(s[..|s| - 1], sep);
      assert forall q :: 0 <= q < |s| - |sep| ==> (OccursAt(s, sep, q) <==> OccursAt(s[..|s| - 1], sep, q)) by {
        forall q | 0 <= q < |s| - |sep| ensures OccursAt(s, sep, q) <==> OccursAt(s[..|s| - 1], sep, q) {
          assert s[..|s| - 1][q..q + |sep|] == s[q..q + |sep|];
        }
      }
      r
  }
}
