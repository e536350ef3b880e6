/**
 * Chunk file names and their order. `generate_audio` writes chunk `i` of a
 * document with stem `stem` to `<temp>/<stem>/<stem>_part_<i + 1>.mp3`
 * (src/app.py:82-85); `process_file` sorts the finished files by the number
 * it reads back out of each name with `int(x.stem.split('_part_')[-1])`
 * (src/app.py:150).
 */
module Naming {
  import opened Options
  import opened Strings

  predicate IsDigit(c: char) {
    '0' <= c <= '9'
  }

  function DigitChar(k: nat): (c: char)
    requires k < 10
    ensures IsDigit(c)
  {
    ('0' as int + k) as char
  }

  function DigitValue(c: char): nat
    requires IsDigit(c)
  {
    c as int - '0' as int
  }

  /** `str(n)` for a natural number: its decimal digits, most significant first. */
  function Decimal(n: nat): (d: string)
    ensures d != []
    ensures forall j :: 0 <= j < |d| ==> IsDigit(d[j])
    decreases n
  {
    if n < 10 then [DigitChar(n)] else Decimal(n / 10) + [DigitChar(n % 10)]
  }

  /** The number a string of decimal digits denotes. */
  function DigitsValue(s: string): nat
    requires forall j :: 0 <= j < |s| ==> IsDigit(s[j])
    decreases |s|
  {
    if s == [] then 0 else 10 * DigitsValue(s[..|s| - 1]) + DigitValue(s[|s| - 1])
  }

  /**
   * `int(s)` on the strings it meets here: a non-empty run of ASCII digits is
   * a number, anything else raises `ValueError` (here `None`).
   */
  function ParseDecimal(s: string): Option<nat> {
    if s != [] && forall j :: 0 <= j < |s| ==> IsDigit(s[j]) then Some(DigitsValue(s)) else None
  }

  /** `int(str(n)) == n`. */
  lemma {:induction false} DecimalRoundTrip(n: nat)
    ensures ParseDecimal(Decimal(n)) == Some(n)
    decreases n
  {
    var d := Decimal(n);
    if n < 10 {
      assert d == [DigitChar(n)] && d[..0] == [];
      assert DigitsValue(d) == n;
    } else {
      DecimalRoundTrip(n / 10);
      assert d[..|d| - 1] == Decimal(n / 10);
    }
  }

  /** `Path(p).name`: the part after the last `/`. */
  function PathName(p: string): string {
    p[RFind(p, '/', |p|) + 1..]
  }

  /** `Path.stem` of a file name: the name without its last suffix, if it has one that is neither leading nor empty. */
  function PathStem(name: string): string {
    var i := RFind(name, '.', |name|);
    if 0 < i < |name| - 1 then name[..i] else name
  }

  /** A file stem, taken from the name after the last `/`, holds no `/`. */
  lemma FileStemNoSlash(p: string)
    ensures '/' !in PathStem(PathName(p))
  {
    var r := RFind(p, '/', |p|);
    RFindIsLast(p, '/', |p|);
    var name := PathName(p);
    forall j | 0 <= j < |name| ensures name[j] != '/' {
      assert name[j] == p[r + 1 + j];
    }
    var stem := PathStem(name);
    forall j | 0 <= j < |stem| ensures stem[j] != '/' {
      assert stem[j] == name[j];
    }
  }

  /** The stem of `dir/base.ext`, for a base and an extension without `/` or `.`, is `base`. */
  lemma StemOfFile(dir: string, base: string, ext: string)
    requires base != [] && ext != []
    requires '/' !in base && '.' !in base && '/' !in ext && '.' !in ext
    ensures PathStem(PathName(dir + "/" + base + "." + ext)) == base
  {
    var name := base + "." + ext;
    var p := dir + "/" + name;
    assert p == dir + "/" + base + "." + ext;
    forall j | |dir| < j < |p| ensures p[j] != '/' {
      assert p[j] == name[j - |dir| - 1];
      if j - |dir| - 1 < |base| { assert name[j - |dir| - 1] == base[j - |dir| - 1]; }
      else if j - |dir| - 1 > |base| { assert name[j - |dir| - 1] == ext[j - |dir| - 2 - |base|]; }
    }
    RFindAt(p, '/', |dir|);
    assert PathName(p) == name;
    forall j | |base| < j < |name| ensures name[j] != '.' {
      assert name[j] == ext[j - |base| - 1];
    }
    RFindAt(name, '.', |base|);
    assert name[..|base|] == base;
  }

  /** The marker between a document's stem and a chunk number. */
  const PartMarker := "_part_"

  /** The file name of chunk `index` (counted from 0) of the document with stem `stem` (src/app.py:85). */
  function ChunkFileName(stem: string, index: nat): string {
    stem + PartMarker + Decimal(index + 1) + ".mp3"
  }

  /** The per-document folder under the temporary folder (src/app.py:82). */
  function ChunkDir(tempDir: string, stem: string): string {
    tempDir + "/" + stem
  }

  /** The path `generate_audio` writes chunk `index` to and returns. */
  function ChunkPath(tempDir: string, stem: string, index: nat): string {
    ChunkDir(tempDir, stem) + "/" + ChunkFileName(stem, index)
  }

  /** `s.split(sep)[-1]`: what follows the last occurrence `split` finds scanning from the left, without overlaps. */
  function SplitLast(s: string, sep: string): string
    requires sep != []
    decreases |s|
  {
    var p := FindSub(s, sep);
    if p == -1 then s else SplitLast(s[p + |sep|..], sep)
  }

  /** `s.rsplit(sep, 1)[-1]`: what follows the rightmost occurrence of `sep`. */
  function RSplitLast(s: string, sep: string): string
    requires sep != []
  {
    var p := RFindSub(s, sep);
    if p == -1 then s else s[p + |sep|..]
  }

  /** The sort key as written at src/app.py:150: `int(Path(p).stem.split('_part_')[-1])`. */
  function PartKeyAsWritten(path: string): Option<nat> {
    ParseDecimal(SplitLast(PathStem(PathName(path)), PartMarker))
  }

  /** The sort key as intended: the number after the LAST `_part_`, `int(Path(p).stem.rsplit('_part_', 1)[-1])`. */
  function PartKey(path: string): Option<nat> {
    ParseDecimal(RSplitLast(PathStem(PathName(path)), PartMarker))
  }

  predicate EndsWith(s: string, suffix: string) {
    |suffix| <= |s| && s[|s| - |suffix|..] == suffix
  }

  /** `s.rfind(c)` finds `q` when `s[q]` is `c` and no later character is. */
  lemma RFindAt(s: string, c: char, q: int)
    requires 0 <= q < |s| && s[q] == c
    requires forall j :: q < j < |s| ==> s[j] != c
    ensures RFind(s, c, |s|) == q
  {
    RFindIsLast(s, c, |s|);
  }

  /** The name of a chunk path is the chunk file name, provided the stem holds no `/` (a file stem never does). */
  lemma ChunkPathName(tempDir: string, stem: string, index: nat)
    requires '/' !in stem
    ensures PathName(ChunkPath(tempDir, stem, index)) == ChunkFileName(stem, index)
  {
    var dir, name := ChunkDir(tempDir, stem), ChunkFileName(stem, index);
    var p := ChunkPath(tempDir, stem, index);
    var d := Decimal(index + 1);
    assert name == stem + (PartMarker + d + ".mp3");
    assert forall j :: 0 <= j < |name| ==> name[j] != '/' by {
      forall j | 0 <= j < |name| ensures name[j] != '/' {
        if j < |stem| {
          assert name[j] == stem[j];
        } else if j < |stem| + 6 {
          assert name[j] == PartMarker[j - |stem|];
        } else if j < |stem| + 6 + |d| {
          assert name[j] == d[j - |stem| - 6];
        } else {
          assert name[j] == ".mp3"[j - |stem| - 6 - |d|];
        }
      }
    }
    assert p == dir + "/" + name;
    assert p[|dir|] == '/';
    assert forall j :: |dir| < j < |p| ==> p[j] == name[j - |dir| - 1];
    RFindAt(p, '/', |dir|);
    assert p[|dir| + 1..] == name;
  }

  /** The stem of a chunk file name drops exactly the `.mp3`. */
  lemma ChunkNameStem(stem: string, index: nat)
    ensures PathStem(ChunkFileName(stem, index)) == stem + PartMarker + Decimal(index + 1)
  {
    var base := stem + PartMarker + Decimal(index + 1);
    var name := ChunkFileName(stem, index);
    assert name == base + ".mp3";
    assert forall j :: |base| < j < |name| ==> name[j] == "mp3"[j - |base| - 1];
    RFindAt(name, '.', |base|);
    assert name[..|base|] == base;
  }

  /** No occurrence of `_part_` lies inside a string of digits. */
  lemma NoMarkerInDigits(d: string)
    requires forall j :: 0 <= j < |d| ==> IsDigit(d[j])
    ensures forall q :: 0 <= q <= |d| - |PartMarker| ==> !OccursAt(d, PartMarker, q)
  {
    forall q | 0 <= q <= |d| - |PartMarker| ensures !OccursAt(d, PartMarker, q) {
      assert d[q..q + 6][0] == d[q];
    }
  }

  /** After the marker in front of a run of digits there is no further `_part_`. */
  lemma NoMarkerAfter(stem: string, d: string)
    requires d != [] && forall j :: 0 <= j < |d| ==> IsDigit(d[j])
    ensures var s := stem + PartMarker + d;
      forall q :: |stem| < q <= |s| - |PartMarker| ==> !OccursAt(s, PartMarker, q)
  {
    var s := stem + PartMarker + d;
    var n := |stem|;
    forall q | n < q <= |s| - 6 ensures !OccursAt(s, PartMarker, q) {
      if q < n + 5 {
        assert s[q..q + 6][0] == s[q] == PartMarker[q - n] != '_';
      } else if q == n + 5 {
        assert s[q..q + 6][1] == s[q + 1] == d[0] != 'p';
      } else {
        assert s[q..q + 6][0] == s[q] == d[q - n - 6] != '_';
      }
    }
  }

  /** The rightmost `_part_` of `stem + "_part_" + digits` is the one in front of the digits, whatever the stem. */
  lemma RSplitAfterMarker(stem: string, d: string)
    requires d != [] && forall j :: 0 <= j < |d| ==> IsDigit(d[j])
    ensures RSplitLast(stem + PartMarker + d, PartMarker) == d
  {
    var s := stem + PartMarker + d;
    var n := |stem|;
    assert OccursAt(s, PartMarker, n) by { assert s[n..n + 6] == PartMarker; }
    NoMarkerAfter(stem, d);
    assert RFindSub(s, PartMarker) == n;
    assert s[n + 6..] == d;
  }

  /** When `stem` does not end in `_part`, no `_part_` straddles the end of `stem` and the marker after it. */
  lemma NoMarkerOverlap(stem: string, d: string)
    requires !EndsWith(stem, "_part")
    ensures var s, n := stem + PartMarker + d, |stem|;
      forall q :: 0 <= q && n - |PartMarker| < q < n ==> !OccursAt(s, PartMarker, q)
  {
    var s := stem + PartMarker + d;
    var n := |stem|;
    forall q | 0 <= q && n - 6 < q < n ensures !OccursAt(s, PartMarker, q) {
      if q == n - 5 {
        assert s[q..q + 6][..5] == stem[n - 5..] by {
          assert s[..n] == stem;
          assert s[q..q + 6][..5] == s[q..n] == s[..n][q..];
        }
        assert PartMarker[..5] == "_part";
      } else {
        assert s[q..q + 6][n - q] == s[n] == '_' != PartMarker[n - q];
      }
    }
  }

  /**
   * `split('_part_')[-1]` also finds the chunk number, for every stem that
   * does not end in `_part`. When the stem does end in `_part`, that ending
   * overlaps the marker and the left-to-right scan may consume it first.
   */
  lemma {:induction false} SplitAfterMarker(stem: string, d: string)
    requires forall j :: 0 <= j < |d| ==> IsDigit(d[j])
    requires !EndsWith(stem, "_part")
    ensures SplitLast(stem + PartMarker + d, PartMarker) == d
    decreases |stem|
  {
    var s := stem + PartMarker + d;
    var n := |stem|;
    assert OccursAt(s, PartMarker, n) by { assert s[n..n + 6] == PartMarker; }
    NoMarkerOverlap(stem, d);
    var p := FindSub(s, PartMarker);
    assert p == n || 0 <= p <= n - 6;
    if p == n {
      assert s[p + 6..] == d;
      NoMarkerInDigits(d);
    } else {
      var stem' := stem[p + 6..];
      assert s[p + 6..] == stem' + PartMarker + d;
      assert EndsWith(stem', "_part") ==> EndsWith(stem, "_part") by {
        if |stem'| >= 5 {
          assert stem'[|stem'| - 5..] == stem[n - 5..];
        }
      }
      SplitAfterMarker(stem', d);
    }
  }

  /** The intended key reads back the chunk number of every chunk path: `index + 1`. */
  lemma PartKeyRoundTrip(tempDir: string, stem: string, index: nat)
    requires '/' !in stem
    ensures PartKey(ChunkPath(tempDir, stem, index)) == Some(index + 1)
  {
    ChunkPathName(tempDir, stem, index);
    ChunkNameStem(stem, index);
    RSplitAfterMarker(stem, Decimal(index + 1));
    DecimalRoundTrip(index + 1);
  }

  /** The key as written reads back the chunk number when the stem does not end in `_part`, even if it contains `_part_`. */
  lemma PartKeyAsWrittenRoundTrip(tempDir: string, stem: string, index: nat)
    requires '/' !in stem && !EndsWith(stem, "_part")
    ensures PartKeyAsWritten(ChunkPath(tempDir, stem, index)) == Some(index + 1)
  {
    ChunkPathName(tempDir, stem, index);
    ChunkNameStem(stem, index);
    SplitAfterMarker(stem, Decimal(index + 1));
    DecimalRoundTrip(index + 1);
  }

  /** In `<word>_part_part_<d>` with no `_` in `word`, the first `_part_` starts right after `word`. */
  lemma FirstMarkerAfterWord(word: string, d: string)
    requires '_' !in word
    ensures FindSub(word + "_part" + PartMarker + d, PartMarker) == |word|
  {
    var s := word + "_part" + PartMarker + d;
    var n := |word|;
    assert OccursAt(s, PartMarker, n) by { assert s[n..n + 6] == PartMarker; }
    forall q | 0 <= q < n ensures !OccursAt(s, PartMarker, q) {
      assert s[q..q + 6][0] == s[q] == word[q] != '_';
    }
  }

  /** `part_<digits>` holds no `_part_`. */
  lemma NoMarkerInPartDigits(t: string, d: string)
    requires t == "part_" + d
    requires d != [] && forall j :: 0 <= j < |d| ==> IsDigit(d[j])
    ensures FindSub(t, PartMarker) == -1
  {
    assert t[..5] == "part_";
    forall q | 0 <= q <= |t| - 6 ensures !OccursAt(t, PartMarker, q) {
      if q < 4 {
        assert t[q] == t[..5][q] != '_';
        assert t[q..q + 6][0] == t[q];
      } else if q == 4 {
        assert t[5] == d[0] != 'p';
        assert t[q..q + 6][1] == t[5];
      } else {
        assert t[q] == d[q - 5] != '_';
        assert t[q..q + 6][0] == t[q];
      }
    }
  }

  /**
   * For a stem that is a word without underscores followed by `_part`, the
   * left-to-right scan takes the `_part_` made of the stem's ending and the
   * marker's first underscore, and leaves `part_` in front of the digits.
   */
  lemma SplitLastOfPartWord(word: string, d: string)
    requires '_' !in word
    requires d != [] && forall j :: 0 <= j < |d| ==> IsDigit(d[j])
    ensures SplitLast(word + "_part" + PartMarker + d, PartMarker) == "part_" + d
  {
    var s := word + "_part" + PartMarker + d;
    var n := |word|;
    FirstMarkerAfterWord(word, d);
    assert s[n + 6..] == "part_" + d;
    NoMarkerInPartDigits(s[n + 6..], d);
  }

  /**
   * The key as written fails for a document whose stem is a word without
   * underscores followed by `_part` (say `chapter_part.txt`): the stem
   * `chapter_part_part_1` splits into `chapter` and `part_1`, and
   * `int('part_1')` raises `ValueError`.
   */
  lemma PartKeyAsWrittenFails(tempDir: string, word: string, index: nat)
    requires '/' !in word && '_' !in word
    ensures PartKeyAsWritten(ChunkPath(tempDir, word + "_part", index)) == None
  {
    var stem := word + "_part";
    var d := Decimal(index + 1);
    assert '/' !in stem by {
      forall j | 0 <= j < |stem| ensures stem[j] != '/' {
        if j < |word| { assert stem[j] == word[j]; } else { assert stem[j] == "_part"[j - |word|]; }
      }
    }
    ChunkPathName(tempDir, stem, index);
    ChunkNameStem(stem, index);
    SplitLastOfPartWord(word, d);
    assert ("part_" + d)[0] == 'p';
  }

  /** The key `sort` compares: the parsed chunk number (0 is never used, since `SortByPartKey` refuses unparsable names). */
  function SortKey(p: string): nat {
    match PartKey(p)
    case Some(k) => k
    case None => 0
  }

  predicate KeysParse(files: seq<string>) {
    forall k :: 0 <= k < |files| ==> PartKey(files[k]).Some?
  }

  predicate Sorted<T>(key: T -> nat, files: seq<T>) {
    forall j, k :: 0 <= j < k < |files| ==> key(files[j]) <= key(files[k])
  }

  predicate StrictlySorted<T>(key: T -> nat, files: seq<T>) {
    forall j, k :: 0 <= j < k < |files| ==> key(files[j]) < key(files[k])
  }

  /** Inserts `x` after every element whose key is not greater, as a stable sort does. */
  function Insert<T>(key: T -> nat, x: T, xs: seq<T>): seq<T>
    decreases |xs|
  {
    if xs == [] then [x]
    else if key(x) < key(xs[0]) then [x] + xs
    else [xs[0]] + Insert(key, x, xs[1..])
  }

  /** A stable sort by `key`, standing for `list.sort(key=...)`. */
  function InsertionSort<T>(key: T -> nat, xs: seq<T>): seq<T>
    decreases |xs|
  {
    if xs == [] then [] else Insert(key, xs[|xs| - 1], InsertionSort(key, xs[..|xs| - 1]))
  }

  /**
   * `audio_files.sort(key=...)` with the intended key: computing a key that
   * does not parse raises before anything is sorted (here `None`).
   */
  function SortByPartKey(files: seq<string>): Option<seq<string>> {
    if KeysParse(files) then Some(InsertionSort(SortKey, files)) else None
  }

  lemma {:induction false} InsertPermutes<T>(key: T -> nat, x: T, xs: seq<T>)
    ensures multiset(Insert(key, x, xs)) == multiset(xs) + multiset{x}
    decreases |xs|
  {
    if xs != [] && key(x) >= key(xs[0]) {
      InsertPermutes(key, x, xs[1..]);
      assert xs == [xs[0]] + xs[1..];
    }
  }

  /** A bound below `x` and below every element of `xs` stays below every element after inserting `x`. */
  lemma {:induction false} InsertLowerBound<T>(key: T -> nat, x: T, xs: seq<T>, b: nat)
    requires b <= key(x) && forall k :: 0 <= k < |xs| ==> b <= key(xs[k])
    ensures forall k :: 0 <= k < |Insert(key, x, xs)| ==> b <= key(Insert(key, x, xs)[k])
    decreases |xs|
  {
    if xs != [] && key(x) >= key(xs[0]) {
      InsertLowerBound(key, x, xs[1..], b);
      assert forall k :: 0 <= k < |xs[1..]| ==> xs[1..][k] == xs[k + 1];
    }
  }

  /** Putting a file with the least key in front of a sorted sequence keeps it sorted. */
  lemma SortedCons<T>(key: T -> nat, y: T, r: seq<T>)
    requires Sorted(key, r) && forall k :: 0 <= k < |r| ==> key(y) <= key(r[k])
    ensures Sorted(key, [y] + r)
  {
    var out := [y] + r;
    forall j, k | 0 <= j < k < |out| ensures key(out[j]) <= key(out[k]) {
      assert out[k] == r[k - 1];
      if j > 0 { assert out[j] == r[j - 1]; }
    }
  }

  lemma {:induction false} InsertSorted<T>(key: T -> nat, x: T, xs: seq<T>)
    requires Sorted(key, xs)
    ensures Sorted(key, Insert(key, x, xs))
    decreases |xs|
  {
    if xs != [] {
      assert forall k :: 0 <= k < |xs[1..]| ==> xs[1..][k] == xs[k + 1];
      assert Sorted(key, xs[1..]);
      if key(x) >= key(xs[0]) {
        InsertSorted(key, x, xs[1..]);
        InsertLowerBound(key, x, xs[1..], key(xs[0]));
        SortedCons(key, xs[0], Insert(key, x, xs[1..]));
      } else {
        SortedCons(key, x, xs);
      }
    }
  }

  /** The sort keeps exactly the files it was given and orders them by key. */
  lemma {:induction false} InsertionSortCorrect<T>(key: T -> nat, xs: seq<T>)
    ensures multiset(InsertionSort(key, xs)) == multiset(xs)
    ensures Sorted(key, InsertionSort(key, xs))
    decreases |xs|
  {
    if xs != [] {
      var init, last := xs[..|xs| - 1], xs[|xs| - 1];
      InsertionSortCorrect(key, init);
      InsertPermutes(key, last, InsertionSort(key, init));
      InsertSorted(key, last, InsertionSort(key, init));
      assert xs == init + [last];
    }
  }

  /** A sequence's multiset is its first element's together with the rest's. */
  lemma MultisetCons<T>(s: seq<T>)
    requires s != []
    ensures multiset(s) == multiset{s[0]} + multiset(s[1..])
  {
    assert s == [s[0]] + s[1..];
  }

  lemma MultisetCancel<T>(x: T, a: multiset<T>, b: multiset<T>)
    requires multiset{x} + a == multiset{x} + b
    ensures a == b
  {
    forall y ensures a[y] == b[y] {
      assert (multiset{x} + a)[y] == (multiset{x} + b)[y];
    }
  }

  /** In a strictly sorted sequence, an element with the least key is the first one. */
  lemma StrictlySortedFirst<T>(key: T -> nat, ys: seq<T>, x: T)
    requires StrictlySorted(key, ys) && x in ys
    requires forall k :: 0 <= k < |ys| ==> key(x) <= key(ys[k])
    ensures ys != [] && ys[0] == x
  {
    var j :| 0 <= j < |ys| && ys[j] == x;
    assert key(ys[j]) <= key(ys[0]);
  }

  /** Two orderings of the same files, one sorted by key and the other strictly, are the same sequence. */
  lemma {:induction false} SortedUnique<T>(key: T -> nat, xs: seq<T>, ys: seq<T>)
    requires multiset(xs) == multiset(ys)
    requires Sorted(key, xs) && StrictlySorted(key, ys)
    ensures xs == ys
    decreases |xs|
  {
    assert |xs| == |multiset(xs)| == |multiset(ys)| == |ys|;
    if xs != [] {
      var x := xs[0];
      assert x in multiset(ys);
      forall k | 0 <= k < |ys| ensures key(x) <= key(ys[k]) {
        assert ys[k] in multiset(xs);
        var m :| 0 <= m < |xs| && xs[m] == ys[k];
        assert m == 0 || key(xs[0]) <= key(xs[m]);
      }
      StrictlySortedFirst(key, ys, x);
      MultisetCons(xs);
      MultisetCons(ys);
      MultisetCancel(x, multiset(xs[1..]), multiset(ys[1..]));
      assert forall k :: 0 <= k < |xs[1..]| ==> xs[1..][k] == xs[k + 1];
      assert forall k :: 0 <= k < |ys[1..]| ==> ys[1..][k] == ys[k + 1];
      SortedUnique(key, xs[1..], ys[1..]);
    }
  }

  /** `[0, 1, ..., n - 1]`: the chunk indices of a document with `n` chunks. */
  function Range(n: nat): (r: seq<nat>)
    ensures |r| == n && forall j :: 0 <= j < n ==> r[j] == j
  {
    if n == 0 then [] else Range(n - 1) + [n - 1]
  }

  /** The indices of a document's chunks are below the number of chunks. */
  lemma RangeMembers(n: nat, x: nat)
    requires x in multiset(Range(n))
    ensures x < n
  {
    var j :| 0 <= j < n && Range(n)[j] == x;
  }

  /** The chunk paths for the chunk indices `order`, in that order. */
  function PathsOf(tempDir: string, stem: string, order: seq<nat>): (ps: seq<string>)
    ensures |ps| == |order|
  {
    if order == [] then [] else [ChunkPath(tempDir, stem, order[0])] + PathsOf(tempDir, stem, order[1..])
  }

  /** Element `j` of `PathsOf` is the path of chunk `order[j]`. */
  lemma {:induction false} PathsOfAt(tempDir: string, stem: string, order: seq<nat>, j: nat)
    requires j < |order|
    ensures PathsOf(tempDir, stem, order)[j] == ChunkPath(tempDir, stem, order[j])
    decreases j
  {
    if j > 0 {
      PathsOfAt(tempDir, stem, order[1..], j - 1);
    }
  }

  /** The chunk paths of a document with `n` chunks, in chunk order. */
  function ChunkPaths(tempDir: string, stem: string, n: nat): seq<string> {
    PathsOf(tempDir, stem, Range(n))
  }

  lemma PathsOfAppend(tempDir: string, stem: string, a: seq<nat>, b: seq<nat>)
    ensures PathsOf(tempDir, stem, a + b) == PathsOf(tempDir, stem, a) + PathsOf(tempDir, stem, b)
  {
    var l, r := PathsOf(tempDir, stem, a + b), PathsOf(tempDir, stem, a) + PathsOf(tempDir, stem, b);
    forall j | 0 <= j < |l| ensures l[j] == r[j] {
      PathsOfAt(tempDir, stem, a + b, j);
      if j < |a| {
        assert (a + b)[j] == a[j];
        PathsOfAt(tempDir, stem, a, j);
      } else {
        assert (a + b)[j] == b[j - |a|];
        PathsOfAt(tempDir, stem, b, j - |a|);
      }
    }
  }

  /** Completion orders that are permutations of each other give the same files, in some order. */
  lemma {:induction false} PathsOfPermutes(tempDir: string, stem: string, a: seq<nat>, b: seq<nat>)
    requires multiset(a) == multiset(b)
    ensures multiset(PathsOf(tempDir, stem, a)) == multiset(PathsOf(tempDir, stem, b))
    decreases |a|
  {
    assert |a| == |multiset(a)| == |multiset(b)| == |b|;
    if a != [] {
      var x := a[0];
      assert x in multiset(b);
      var j :| 0 <= j < |b| && b[j] == x;
      var pre, post := b[..j], b[j + 1..];
      assert b == pre + ([x] + post);
      assert multiset(a[1..]) == multiset(pre + post) by {
        MultisetCons(a);
        assert multiset(b) == multiset{x} + multiset(pre + post) by {
          assert multiset(b) == multiset(pre) + (multiset{x} + multiset(post));
        }
        MultisetCancel(x, multiset(a[1..]), multiset(pre + post));
      }
      PathsOfPermutes(tempDir, stem, a[1..], pre + post);
      var p := ChunkPath(tempDir, stem, x);
      PathsOfAppend(tempDir, stem, pre, [x] + post);
      PathsOfAppend(tempDir, stem, [x], post);
      PathsOfAppend(tempDir, stem, pre, post);
      assert PathsOf(tempDir, stem, [x]) == [p];
      assert PathsOf(tempDir, stem, a) == [p] + PathsOf(tempDir, stem, a[1..]);
      var mp, mq := multiset(PathsOf(tempDir, stem, pre)), multiset(PathsOf(tempDir, stem, post));
      assert multiset(PathsOf(tempDir, stem, b)) == mp + (multiset{p} + mq);
      assert multiset(PathsOf(tempDir, stem, a)) == multiset{p} + (mp + mq);
    }
  }

  /** Every chunk path carries its own key, so the chunk paths in chunk order are strictly sorted. */
  lemma ChunkPathsKeys(tempDir: string, stem: string, n: nat)
    requires '/' !in stem
    ensures KeysParse(ChunkPaths(tempDir, stem, n))
    ensures forall j :: 0 <= j < n ==> SortKey(ChunkPaths(tempDir, stem, n)[j]) == j + 1
    ensures StrictlySorted(SortKey, ChunkPaths(tempDir, stem, n))
  {
    var ps := ChunkPaths(tempDir, stem, n);
    forall j | 0 <= j < n ensures PartKey(ps[j]) == Some(j + 1) {
      PathsOfAt(tempDir, stem, Range(n), j);
      PartKeyRoundTrip(tempDir, stem, j);
    }
  }

  /**
   * Whatever order the chunks finish in, sorting by the intended key puts the
   * files back in chunk order.
   */
  lemma ChunkOrderRestored(tempDir: string, stem: string, order: seq<nat>, n: nat)
    requires '/' !in stem
    requires multiset(order) == multiset(Range(n))
    ensures SortByPartKey(PathsOf(tempDir, stem, order)) == Some(ChunkPaths(tempDir, stem, n))
  {
    var arrived := PathsOf(tempDir, stem, order);
    forall k | 0 <= k < |arrived| ensures PartKey(arrived[k]).Some? {
      PathsOfAt(tempDir, stem, order, k);
      PartKeyRoundTrip(tempDir, stem, order[k]);
    }
    InsertionSortCorrect(SortKey, arrived);
    PathsOfPermutes(tempDir, stem, order, Range(n));
    ChunkPathsKeys(tempDir, stem, n);
    SortedUnique(SortKey, InsertionSort(SortKey, arrived), ChunkPaths(tempDir, stem, n));
  }

  /** Chunks finishing in the order 2, 0, 1 are combined in the order 0, 1, 2. */
  lemma OutOfOrderExample(tempDir: string, stem: string)
    requires '/' !in stem
    ensures SortByPartKey(PathsOf(tempDir, stem, [2, 0, 1])) == Some(PathsOf(tempDir, stem, [0, 1, 2]))
  {
    assert Range(3) == [0, 1, 2];
    assert multiset([2, 0, 1]) == multiset(Range(3));
    ChunkOrderRestored(tempDir, stem, [2, 0, 1], 3);
  }
}
