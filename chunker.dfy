/**
 * The text chunker, `split_text_into_chunks` (src/app.py:54-65): while the
 * remaining text is longer than `max_length`, cut it at the last space in the
 * first `max_length` characters (or exactly at `max_length` if there is none),
 * emit the prefix and strip the rest.
 */
module Chunker {
  import opened Strings

  /** The default of `MAX_CHUNK_SIZE` (src/app.py:32). */
  const MaxChunkSize := 4096

  /**
   * Where one round of the loop cuts (lines 58-60): the last space in the
   * window `text[0..maxLength)`, or `maxLength` when the window has none.
   */
  function SplitIndex(text: string, maxLength: int): (i: int)
    requires 0 <= maxLength < |text|
    ensures 0 <= i <= maxLength
    ensures i < maxLength ==> text[i] == ' '
  {
    var r := RFind(text, ' ', maxLength);
    if r == -1 then maxLength else r
  }

  /** The cut is at the last space of the window, or at `maxLength` when the window holds none. */
  lemma SplitIndexIsLastSpace(text: string, maxLength: int)
    requires 0 <= maxLength < |text|
    ensures var i := SplitIndex(text, maxLength);
      && (i < maxLength ==> forall j :: i < j < maxLength ==> text[j] != ' ')
      && (i == maxLength ==> forall j :: 0 <= j < maxLength ==> text[j] != ' ')
  {
    RFindIsLast(text, ' ', maxLength);
  }

  /** The chunks the loop emits for `text`: the specification of `SplitTextIntoChunks`. */
  function Chunks(text: string, maxLength: int): seq<string>
    requires maxLength >= 1
    decreases |text|
  {
    if |text| > maxLength then
      var i := SplitIndex(text, maxLength);
      assert i == 0 ==> IsWhitespace(text[i..][0]);
      [text[..i]] + Chunks(Strip(text[i..]), maxLength)
    else if text != "" then [text]
    else []
  }

  /**
   * `split_text_into_chunks(text, max_length)`, written as the source's loop:
   * `rest` plays the part of the rebound `text`.
   */
  method SplitTextIntoChunks(text: string, maxLength: int) returns (chunks: seq<string>)
    requires maxLength >= 1
    ensures chunks == Chunks(text, maxLength)
  {
    chunks := [];
    var rest := text;
    while |rest| > maxLength
      invariant chunks + Chunks(rest, maxLength) == Chunks(text, maxLength)
      decreases |rest|
    {
      var splitIndex := RFind(rest, ' ', maxLength);
      if splitIndex == -1 {
        splitIndex := maxLength;
      }
      var next := Strip(rest[splitIndex..]);
      assert |next| < |rest| && chunks + Chunks(rest, maxLength) == (chunks + [rest[..splitIndex]]) + Chunks(next, maxLength) by {
        assert splitIndex == SplitIndex(rest, maxLength);
        ChunksStep(rest, maxLength);
      }
      chunks := chunks + [rest[..splitIndex]];
      rest := next;
    }
    ShortTextChunks(rest, maxLength);
    if rest != "" {
      chunks := chunks + [rest];
    } else {
      assert chunks + [] == chunks;
    }
  }

  /** Text of at most `maxLength` characters is one chunk, or none when it is empty. */
  lemma ShortTextChunks(text: string, maxLength: int)
    requires 1 <= maxLength && |text| <= maxLength
    ensures Chunks(text, maxLength) == if text == "" then [] else [text]
  {
  }

  /** One round of the loop: the first chunk is cut off and `Chunks` goes on with the stripped, strictly shorter rest. */
  lemma ChunksStep(text: string, maxLength: int)
    requires 1 <= maxLength < |text|
    ensures var i := SplitIndex(text, maxLength);
      && |Strip(text[i..])| < |text|
      && Chunks(text, maxLength) == [text[..i]] + Chunks(Strip(text[i..]), maxLength)
  {
    var i := SplitIndex(text, maxLength);
    assert i == 0 ==> IsWhitespace(text[i..][0]);
  }

  /** Every chunk is at most `maxLength` characters long. */
  lemma {:induction false} ChunksBounded(text: string, maxLength: int)
    requires maxLength >= 1
    ensures forall k :: 0 <= k < |Chunks(text, maxLength)| ==> |Chunks(text, maxLength)[k]| <= maxLength
    decreases |text|
  {
    if |text| > maxLength {
      var i := SplitIndex(text, maxLength);
      assert i == 0 ==> IsWhitespace(text[i..][0]);
      ChunksBounded(Strip(text[i..]), maxLength);
    }
  }

  /** The chunks concatenated in order. */
  function Concat(cs: seq<string>): string {
    if cs == [] then "" else cs[0] + Concat(cs[1..])
  }

  /** The chunks interleaved with the text that lay between them: `cs[0] + gs[0] + cs[1] + gs[1] + ...`. */
  function Join(cs: seq<string>, gs: seq<string>): string
    requires |cs| == |gs|
  {
    if cs == [] then "" else cs[0] + gs[0] + Join(cs[1..], gs[1..])
  }

  /** A chunk the loop cut at `maxLength` because its window held no space. */
  predicate ForcedCut(c: string, maxLength: int) {
    |c| == maxLength && forall j :: 0 <= j < |c| ==> c[j] != ' '
  }

  /** A chunk the loop cut before a space, which then begins the dropped text `g`. */
  predicate CutAtSpace(c: string, g: string, maxLength: int) {
    |c| < maxLength && g != [] && g[0] == ' '
  }

  /**
   * `text` is the chunks `cs` with the whitespace `gs` put back after each of
   * them, and every chunk but the last was either cut before a space or forced.
   */
  ghost predicate IsLayout(text: string, maxLength: int, cs: seq<string>, gs: seq<string>) {
    && |gs| == |cs|
    && Join(cs, gs) == text
    && (forall k :: 0 <= k < |gs| ==> IsBlank(gs[k]))
    && (forall k :: 0 <= k < |cs| - 1 ==> CutAtSpace(cs[k], gs[k], maxLength) || ForcedCut(cs[k], maxLength))
  }

  lemma {:induction false} JoinAppendLast(cs: seq<string>, gs: seq<string>, t: string)
    requires |cs| == |gs| > 0
    ensures Join(cs, gs[..|gs| - 1] + [gs[|gs| - 1] + t]) == Join(cs, gs) + t
    decreases |cs|
  {
    var gs2 := gs[..|gs| - 1] + [gs[|gs| - 1] + t];
    if |cs| == 1 {
      assert gs2 == [gs[0] + t];
    } else {
      assert gs2[1..] == gs[1..][..|gs| - 2] + [gs[|gs| - 1] + t];
      JoinAppendLast(cs[1..], gs[1..], t);
    }
  }

  /**
   * The gaps after one more chunk: the whitespace `lead` cut off in front of
   * the rest goes after the new chunk, and the whitespace `trail` stripped off
   * its end is added to the last gap of the rest's gaps `gs`.
   */
  function ConsGaps(lead: string, trail: string, gs: seq<string>): seq<string> {
    if gs == [] then [lead + trail]
    else [lead] + (gs[..|gs| - 1] + [gs[|gs| - 1] + trail])
  }

  /** The first round of the loop takes `text` apart into the chunk, the stripped whitespace and the new rest. */
  lemma CutParts(text: string, maxLength: int)
    requires 1 <= maxLength < |text|
    ensures var i := SplitIndex(text, maxLength);
      var rest := text[i..];
      && text == text[..i] + Lead(rest) + Strip(rest) + Trail(rest)
      && IsBlank(Lead(rest)) && IsBlank(Trail(rest))
      && (CutAtSpace(text[..i], Lead(rest), maxLength) || ForcedCut(text[..i], maxLength))
  {
    var i := SplitIndex(text, maxLength);
    var rest := text[i..];
    var lead, s, trail := Lead(rest), Strip(rest), Trail(rest);
    StripParts(rest);
    assert text == text[..i] + lead + s + trail by {
      assert text == text[..i] + rest;
      Regroup(text[..i], lead, s, trail);
    }
    FirstCutShape(text, maxLength);
  }

  lemma Regroup(a: string, b: string, c: string, d: string)
    ensures a + (b + c + d) == a + b + c + d
  {
  }

  /** The whitespace dropped after each chunk of `Chunks(text, maxLength)`. */
  ghost function Gaps(text: string, maxLength: int): seq<string>
    requires maxLength >= 1
    decreases |text|
  {
    if |text| > maxLength then
      var i := SplitIndex(text, maxLength);
      assert i == 0 ==> IsWhitespace(text[i..][0]);
      ConsGaps(Lead(text[i..]), Trail(text[i..]), Gaps(Strip(text[i..]), maxLength))
    else if text != "" then [""]
    else []
  }

  /**
   * The chunks tile the text: put the whitespace each cut dropped back
   * between them and the original text comes out, character for character.
   * A chunk shorter than `maxLength` (other than the last) was followed by a
   * space; one of exactly `maxLength` holds no space.
   */
  lemma {:induction false} ChunksLayout(text: string, maxLength: int)
    requires maxLength >= 1
    ensures IsLayout(text, maxLength, Chunks(text, maxLength), Gaps(text, maxLength))
    decreases |text|
  {
    if |text| > maxLength {
      var i := SplitIndex(text, maxLength);
      var s := Strip(text[i..]);
      var lead, trail := Lead(text[i..]), Trail(text[i..]);
      ChunksStep(text, maxLength);
      ChunksLayout(s, maxLength);
      CutParts(text, maxLength);
      LayoutGlue(text[..i], lead, s, trail, maxLength, Chunks(s, maxLength), Gaps(s, maxLength));
    } else if text != "" {
      assert IsBlank([""][0]);
      assert IsLayout(text, maxLength, [text], [""]);
    } else {
      assert IsLayout(text, maxLength, [], []);
    }
  }

  /** A cut, the whitespace after it, a layout, and whitespace after that make a layout. */
  lemma LayoutGlue(c0: string, lead: string, s: string, trail: string, maxLength: int, cs: seq<string>, gs: seq<string>)
    requires IsLayout(s, maxLength, cs, gs)
    requires IsBlank(lead) && IsBlank(trail)
    requires CutAtSpace(c0, lead, maxLength) || ForcedCut(c0, maxLength)
    ensures IsLayout(c0 + lead + s + trail, maxLength, [c0] + cs, ConsGaps(lead, trail, gs))
  {
    if cs == [] {
      assert s == [];
      BlankConcat(lead, trail);
      assert Join([c0], [lead + trail]) == c0 + (lead + trail) + Join([], []);
      assert c0 + lead + s + trail == c0 + (lead + trail);
    } else {
      LayoutCons(c0, lead, s, trail, maxLength, cs, gs);
    }
  }

  /** Putting one more cut in front of a layout, and the stripped trailing whitespace behind it, gives a layout. */
  lemma LayoutCons(c0: string, lead: string, s: string, trail: string, maxLength: int, cs: seq<string>, gs: seq<string>)
    requires IsLayout(s, maxLength, cs, gs) && cs != []
    requires IsBlank(lead) && IsBlank(trail)
    requires CutAtSpace(c0, lead, maxLength) || ForcedCut(c0, maxLength)
    ensures IsLayout(c0 + lead + s + trail, maxLength, [c0] + cs, [lead] + (gs[..|gs| - 1] + [gs[|gs| - 1] + trail]))
  {
    var m := |gs|;
    var last := gs[m - 1] + trail;
    var tail := gs[..m - 1] + [last];
    var cs2, gs2 := [c0] + cs, [lead] + tail;
    JoinAppendLast(cs, gs, trail);
    assert cs2[1..] == cs && gs2[1..] == tail;
    assert Join(cs2, gs2) == c0 + lead + (s + trail);
    BlankConcat(gs[m - 1], trail);
    forall j | 0 <= j < |gs2| ensures IsBlank(gs2[j]) {
      if j == 0 { assert gs2[j] == lead; }
      else if j < m { assert gs2[j] == gs[j - 1]; }
      else { assert gs2[j] == last; }
    }
    forall j | 0 <= j < |cs2| - 1
      ensures CutAtSpace(cs2[j], gs2[j], maxLength) || ForcedCut(cs2[j], maxLength)
    {
      if j > 0 {
        assert cs2[j] == cs[j - 1] && gs2[j] == gs[j - 1];
      }
    }
  }

  /** The first cut is made before a space, which the remainder's stripped whitespace begins with, or is forced. */
  lemma FirstCutShape(text: string, maxLength: int)
    requires 1 <= maxLength < |text|
    ensures var i := SplitIndex(text, maxLength);
      var rest := text[i..];
      CutAtSpace(text[..i], Lead(rest), maxLength) || ForcedCut(text[..i], maxLength)
  {
    var i := SplitIndex(text, maxLength);
    var rest := text[i..];
    if i < maxLength {
      assert rest[0] == ' ' && IsWhitespace(rest[0]);
      assert |LStrip(rest)| < |rest|;
      assert Lead(rest)[0] == rest[0];
    } else {
      SplitIndexIsLastSpace(text, maxLength);
      assert forall j :: 0 <= j < i ==> text[..i][j] == text[j];
    }
  }

  lemma {:induction false} JoinRemoveWhitespace(cs: seq<string>, gs: seq<string>)
    requires |cs| == |gs|
    requires forall k :: 0 <= k < |gs| ==> IsBlank(gs[k])
    ensures RemoveWhitespace(Join(cs, gs)) == RemoveWhitespace(Concat(cs))
    decreases |cs|
  {
    if cs != [] {
      JoinRemoveWhitespace(cs[1..], gs[1..]);
      RemoveWhitespaceConcat(cs[0] + gs[0], Join(cs[1..], gs[1..]));
      RemoveWhitespaceConcat(cs[0], gs[0]);
      RemoveWhitespaceBlank(gs[0]);
      RemoveWhitespaceConcat(cs[0], Concat(cs[1..]));
    }
  }

  /** Content is preserved up to whitespace: the chunks and the text carry the same non-whitespace characters in the same order. */
  lemma ChunksKeepContent(text: string, maxLength: int)
    requires maxLength >= 1
    ensures RemoveWhitespace(Concat(Chunks(text, maxLength))) == RemoveWhitespace(text)
  {
    ChunksLayout(text, maxLength);
    JoinRemoveWhitespace(Chunks(text, maxLength), Gaps(text, maxLength));
  }

  /** Text that does not start with whitespace (as every stripped remainder) yields no empty chunk. */
  lemma {:induction false} StrippedChunksNonEmpty(text: string, maxLength: int)
    requires maxLength >= 1
    requires text == [] || !IsWhitespace(text[0])
    ensures forall k :: 0 <= k < |Chunks(text, maxLength)| ==> Chunks(text, maxLength)[k] != ""
    decreases |text|
  {
    if |text| > maxLength {
      var i := SplitIndex(text, maxLength);
      assert i != 0;
      var s := Strip(text[i..]);
      StripEnds(text[i..]);
      StrippedChunksNonEmpty(s, maxLength);
      assert Chunks(text, maxLength) == [text[..i]] + Chunks(s, maxLength);
    }
  }

  /**
   * Only the first chunk can be empty, and it is exactly when the text is
   * longer than `maxLength`, starts with a space, and its window holds no
   * other space.
   */
  lemma EmptyChunk(text: string, maxLength: int, k: int)
    requires maxLength >= 1
    requires 0 <= k < |Chunks(text, maxLength)|
    ensures Chunks(text, maxLength)[k] == "" <==>
      && k == 0 && |text| > maxLength && text[0] == ' '
      && forall j :: 1 <= j < maxLength ==> text[j] != ' '
  {
    if |text| > maxLength {
      var i := SplitIndex(text, maxLength);
      assert i == 0 ==> IsWhitespace(text[i..][0]);
      var s := Strip(text[i..]);
      StripEnds(text[i..]);
      StrippedChunksNonEmpty(s, maxLength);
      assert Chunks(text, maxLength) == [text[..i]] + Chunks(s, maxLength);
      SplitIndexIsLastSpace(text, maxLength);
    }
  }

  /** A text that is not blank ends with a non-empty chunk. */
  lemma LastChunkNonEmpty(text: string, maxLength: int)
    requires maxLength >= 1
    requires !IsBlank(text)
    ensures |Chunks(text, maxLength)| > 0
    ensures Chunks(text, maxLength)[|Chunks(text, maxLength)| - 1] != ""
  {
    var cs := Chunks(text, maxLength);
    if |text| > maxLength {
      var i := SplitIndex(text, maxLength);
      var rest := text[i..];
      assert i == 0 ==> IsWhitespace(rest[0]);
      var s := Strip(rest);
      StripEnds(rest);
      assert cs == [text[..i]] + Chunks(s, maxLength);
      if s == [] {
        assert text == text[..i] + rest;
        BlankConcat(text[..i], rest);
      } else {
        StrippedChunksNonEmpty(s, maxLength);
      }
    }
  }

  /** Without the non-blank precondition the last chunk can be empty: `" \t"` with `maxLength` 1 gives `[""]`. */
  lemma BlankTextCanEndEmpty()
    ensures Chunks(" \t", 1) == [""]
  {
    assert SplitIndex(" \t", 1) == 0;
    assert LStrip(" \t"[1..]) == [] by { assert " \t"[1..][1..] == []; }
    assert Strip(" \t"[0..]) == [] by { assert " \t"[0..] == " \t"; }
  }

  /** With `maxLength` 0 (refused above) a round on stripped non-blank text emits `""` and leaves the text unchanged, so the loop never ends. */
  lemma ZeroMaxLengthMakesNoProgress(text: string)
    requires text != [] && !IsWhitespace(text[0]) && !IsWhitespace(text[|text| - 1])
    ensures SplitIndex(text, 0) == 0 && text[..0] == ""
    ensures Strip(text[0..]) == text
  {
    assert text[0..] == text;
    assert LStrip(text) == text;
  }

  lemma StripWithoutWhitespace(s: string)
    requires forall j :: 0 <= j < |s| ==> !IsWhitespace(s[j])
    ensures Strip(s) == s
  {
    if s != [] {
      assert !IsWhitespace(s[0]) && !IsWhitespace(s[|s| - 1]);
    }
  }

  /** `CeilDiv(n, d)`: the number of pieces of at most `d` that `n` splits into. */
  function CeilDiv(n: nat, d: int): nat
    requires d >= 1
  {
    if n == 0 then 0 else if n <= d then 1 else 1 + CeilDiv(n - d, d)
  }

  /** `text` cut into consecutive pieces of exactly `d` characters, the last one possibly shorter. */
  function Pieces(text: string, d: int): (ps: seq<string>)
    requires d >= 1
    decreases |text|
  {
    if |text| > d then [text[..d]] + Pieces(text[d..], d)
    else if text != "" then [text]
    else []
  }

  /** The pieces concatenate to the text, and there are `CeilDiv(|text|, d)` of them. */
  lemma {:induction false} PiecesShape(text: string, d: int)
    requires d >= 1
    ensures Concat(Pieces(text, d)) == text
    ensures |Pieces(text, d)| == CeilDiv(|text|, d)
    decreases |text|
  {
    if |text| > d {
      PiecesShape(text[d..], d);
      assert Pieces(text, d)[1..] == Pieces(text[d..], d);
      assert text == text[..d] + text[d..];
    } else if text != "" {
      assert Concat([text]) == text + Concat([]);
    }
  }

  /**
   * Text without any whitespace is cut only by force: its chunks are its
   * consecutive pieces of `maxLength` characters.
   */
  lemma {:induction false} ChunksWithoutWhitespace(text: string, maxLength: int)
    requires maxLength >= 1
    requires forall j :: 0 <= j < |text| ==> !IsWhitespace(text[j])
    ensures Chunks(text, maxLength) == Pieces(text, maxLength)
    decreases |text|
  {
    if |text| > maxLength {
      ForcedStep(text, maxLength);
      ChunksWithoutWhitespace(text[maxLength..], maxLength);
    }
  }

  /** The number of chunks of a text without whitespace: `CeilDiv(|text|, maxLength)`. */
  lemma ChunkCountWithoutWhitespace(text: string, maxLength: int)
    requires maxLength >= 1
    requires forall j :: 0 <= j < |text| ==> !IsWhitespace(text[j])
    ensures |Chunks(text, maxLength)| == CeilDiv(|text|, maxLength)
    ensures Concat(Chunks(text, maxLength)) == text
  {
    ChunksWithoutWhitespace(text, maxLength);
    PiecesShape(text, maxLength);
  }

  /** On text without whitespace a round of the loop cuts exactly `maxLength` characters and strips nothing. */
  lemma ForcedStep(text: string, maxLength: int)
    requires 1 <= maxLength < |text|
    requires forall j :: 0 <= j < |text| ==> !IsWhitespace(text[j])
    ensures Chunks(text, maxLength) == [text[..maxLength]] + Chunks(text[maxLength..], maxLength)
    ensures forall j :: 0 <= j < |text[maxLength..]| ==> !IsWhitespace(text[maxLength..][j])
  {
    var i := SplitIndex(text, maxLength);
    assert i == maxLength by { if i < maxLength { assert IsWhitespace(text[i]); } }
    StripWithoutWhitespace(text[i..]);
    ChunksStep(text, maxLength);
  }

  /** A 10000-character document without whitespace becomes three chunks of at most 4096 characters that together are the document. */
  lemma TenThousandCharacters(text: string)
    requires |text| == 10000 && forall j :: 0 <= j < |text| ==> !IsWhitespace(text[j])
    ensures |Chunks(text, MaxChunkSize)| == 3
    ensures Concat(Chunks(text, MaxChunkSize)) == text
  {
    ChunkCountWithoutWhitespace(text, MaxChunkSize);
  }
}
