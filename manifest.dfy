/**
 * The list file `combine_audio_files` hands to ffmpeg's concat demuxer
 * (src/app.py:104-107): one line `file '<path>'` per audio file, in the
 * order given. `Path.resolve()` is taken to return the path unchanged.
 */
module Manifest {
  import opened Options
  import opened Strings

  const LinePrefix := "file '"
  const LineSuffix := "'\n"

  /** The line written for one audio file. */
  function ManifestLine(path: string): string {
    LinePrefix + path + LineSuffix
  }

  /** The whole list for `files`, in order. */
  function Manifest(files: seq<string>): string {
    if files == [] then [] else ManifestLine(files[0]) + Manifest(files[1..])
  }

  lemma {:induction false} ManifestAppend(files: seq<string>, path: string)
    ensures Manifest(files + [path]) == Manifest(files) + ManifestLine(path)
    decreases |files|
  {
    if files == [] {
      assert [path][1..] == [];
    } else {
      assert (files + [path])[1..] == files[1..] + [path];
      ManifestAppend(files[1..], path);
    }
  }

  /** The loop at src/app.py:105-107: the text written to the list file is the manifest of `audioFiles`. */
  method WriteManifest(audioFiles: seq<string>) returns (text: string)
    ensures text == Manifest(audioFiles)
  {
    text := [];
    var i := 0;
    while i < |audioFiles|
      invariant i <= |audioFiles|
      invariant text == Manifest(audioFiles[..i])
    {
      assert audioFiles[..i + 1] == audioFiles[..i] + [audioFiles[i]];
      ManifestAppend(audioFiles[..i], audioFiles[i]);
      text := text + ManifestLine(audioFiles[i]);
      i := i + 1;
    }
    assert audioFiles[..i] == audioFiles;
  }

  /** A line of the list without its newline: `file '<path>'`. */
  predicate IsFileLine(line: string) {
    |line| >= |LinePrefix| + 1 && line[..|LinePrefix|] == LinePrefix && line[|line| - 1] == '\''
  }

  /**
   * Reads a list back, one newline-terminated `file '<path>'` line at a
   * time; the path is everything between the opening quote and the quote
   * that ends the line. `None` for text of any other shape.
   */
  function ParseManifest(text: string): Option<seq<string>>
    decreases |text|
  {
    if text == [] then Some([])
    else
      var i := Find(text, '\n');
      if i == -1 || !IsFileLine(text[..i]) then None
      else match ParseManifest(text[i + 1..])
        case None => None
        case Some(rest) => Some([text[|LinePrefix|..i - 1]] + rest)
  }

  /** No path holds a newline (each list entry is then exactly one line). */
  predicate SingleLinePaths(files: seq<string>) {
    forall k :: 0 <= k < |files| ==> '\n' !in files[k]
  }

  /** One line parses back to its path when the path holds no newline. */
  lemma ParseLine(path: string, rest: string)
    requires '\n' !in path
    ensures var text := ManifestLine(path) + rest;
      var i := |LinePrefix| + |path| + 1;
      && Find(text, '\n') == i
      && IsFileLine(text[..i])
      && text[|LinePrefix|..i - 1] == path
      && text[i + 1..] == rest
  {
    var text := ManifestLine(path) + rest;
    var i := |LinePrefix| + |path| + 1;
    assert text == LinePrefix + path + "'" + "\n" + rest;
    assert text[i] == '\n';
    forall j | 0 <= j < i ensures text[j] != '\n' {
      if j < |LinePrefix| {
        assert text[j] == LinePrefix[j];
      } else if j < |LinePrefix| + |path| {
        assert text[j] == path[j - |LinePrefix|];
      } else {
        assert text[j] == '\'';
      }
    }
    assert text[..i] == LinePrefix + path + "'";
    assert text[..i][..|LinePrefix|] == LinePrefix;
  }

  /** The manifest lists exactly the given files, in order: parsing it gives them back. */
  lemma {:induction false} ManifestRoundTrip(files: seq<string>)
    requires SingleLinePaths(files)
    ensures ParseManifest(Manifest(files)) == Some(files)
    decreases |files|
  {
    if files != [] {
      var rest := Manifest(files[1..]);
      ParseLine(files[0], rest);
      assert ManifestLine(files[0]) != [];
      assert SingleLinePaths(files[1..]) by {
        forall k | 0 <= k < |files[1..]| ensures '\n' !in files[1..][k] {
          assert files[1..][k] == files[k + 1];
        }
      }
      ManifestRoundTrip(files[1..]);
      assert files == [files[0]] + files[1..];
    }
  }

  /** Since parsing is a function, lists of different files, or of the same files in another order, are different text. */
  lemma ManifestInjective(a: seq<string>, b: seq<string>)
    requires SingleLinePaths(a) && SingleLinePaths(b)
    requires Manifest(a) == Manifest(b)
    ensures a == b
  {
    ManifestRoundTrip(a);
    ManifestRoundTrip(b);
  }
}
