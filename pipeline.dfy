/**
 * `process_file` (src/app.py:124-168) and `combine_audio_files`
 * (src/app.py:102-122) as a sequence of stages over an environment that
 * fixes how each outside effect turns out: what reading the document
 * yields, what the speech service answers to each attempt for each chunk,
 * when each chunk's synthesis finishes, and whether `mkdir`, writing the
 * list file, ffmpeg and `shutil.move` succeed. Every exception is caught at
 * src/app.py:167-168, so every run ends in an `Outcome`.
 */
module Pipeline {
  import opened Options
  import opened Strings
  import Chunker
  import Naming
  import Retry
  import Manifest

  /** How outside effects turn out for one run of `process_file`. */
  datatype Environment = Environment(
    read: Option<string>,                 // the document's text, or None when reading raises
    calls: nat -> nat -> Retry.Attempt,   // calls(i)(k): the service's answer to attempt k for chunk i
    finish: nat -> nat,                   // when the synthesis of chunk i finishes (`as_completed` order)
    outputDirOk: bool,                    // `file_output_folder.mkdir(...)` succeeds
    manifestWriteOk: bool,                // opening and writing the list file succeeds
    concatOk: bool,                       // ffmpeg exits with status 0
    moveOk: bool)                         // `shutil.move` succeeds

  /** The stage whose exception ended the run. */
  datatype Stage = ReadStage | SynthesisStage(chunk: nat) | OutputDirStage | ManifestStage | ConcatStage | MoveStage

  datatype Outcome = Skipped | Completed(output: string) | Failed(stage: Stage)

  /** The effects on the filesystem and the ffmpeg run, in the order they happen. */
  datatype Event =
    | MadeOutputDir(dir: string)
    | WroteManifest(path: string, text: string)
    | RanConcat(list: string, output: string)
    | RemovedManifest(path: string)
    | Moved(from: string, to: string)

  /** The list file, shared by all documents (src/app.py:104). */
  function ManifestPath(tempDir: string): string {
    tempDir + "/concat_list.txt"
  }

  function OutputFolder(outputDir: string, stem: string): string {
    outputDir + "/" + stem
  }

  function FinalOutputPath(outputDir: string, stem: string): string {
    OutputFolder(outputDir, stem) + "/" + stem + ".mp3"
  }

  function ProcessedPath(outputDir: string, stem: string): string {
    OutputFolder(outputDir, stem) + "/" + stem + ".processed.txt"
  }

  /** Chunk `i` ends with its file written: one of its `DefaultRetries` attempts succeeds. */
  predicate ChunkSynthesized(env: Environment, i: nat) {
    Retry.FirstSuccess(env.calls(i), Retry.DefaultRetries) < Retry.DefaultRetries
  }

  predicate AllSynthesized(env: Environment, n: nat) {
    forall i :: 0 <= i < n ==> ChunkSynthesized(env, i)
  }

  /**
   * `combine_audio_files(audio_files, final_output_path)`: write the list
   * file, run ffmpeg on it and remove the list file whether or not ffmpeg
   * succeeded (the `finally` at src/app.py:120-122). A failure to write the
   * list raises before the `try`, so nothing is run or removed.
   */
  method CombineAudioFiles(audioFiles: seq<string>, finalOutputPath: string, tempDir: string,
                           manifestWriteOk: bool, concatOk: bool)
    returns (ok: bool, events: seq<Event>)
    ensures ok <==> manifestWriteOk && concatOk
    ensures !manifestWriteOk ==> events == []
    ensures manifestWriteOk ==> events == [
      WroteManifest(ManifestPath(tempDir), Manifest.Manifest(audioFiles)),
      RanConcat(ManifestPath(tempDir), finalOutputPath),
      RemovedManifest(ManifestPath(tempDir))]
  {
    var concatFile := ManifestPath(tempDir);
    if !manifestWriteOk {
      return false, [];
    }
    var text := Manifest.WriteManifest(audioFiles);
    events := [WroteManifest(concatFile, text), RanConcat(concatFile, finalOutputPath)];
    ok := concatOk;
    events := events + [RemovedManifest(concatFile)];
  }

  /** `results` are the outcomes of synthesising chunks `0, ..., |results| - 1` of the document with stem `stem`. */
  predicate ChunkResults(results: seq<Retry.Outcome>, env: Environment, tempDir: string, stem: string) {
    && (forall j :: 0 <= j < |results| ==> (results[j].Returned? <==> ChunkSynthesized(env, j)))
    && ReturnedChunkPaths(results, tempDir, stem)
  }

  /** Every path returned for chunk `j` is the path of chunk `j`'s file. */
  predicate ReturnedChunkPaths(results: seq<Retry.Outcome>, tempDir: string, stem: string) {
    forall j :: 0 <= j < |results| && results[j].Returned? ==> results[j].path == Naming.ChunkPath(tempDir, stem, j)
  }

  /**
   * The executor's work at src/app.py:141-145: every chunk is synthesised
   * with `generate_audio_with_retries`, whatever happens to the others (the
   * `with` block waits for all of them). Here one after the other.
   */
  method SynthesizeChunks(chunks: seq<string>, stem: string, tempDir: string, env: Environment)
    returns (results: seq<Retry.Outcome>)
    ensures |results| == |chunks|
    ensures ChunkResults(results, env, tempDir, stem)
  {
    results := [];
    var i := 0;
    while i < |chunks|
      invariant i <= |chunks| && |results| == i
      invariant ChunkResults(results, env, tempDir, stem)
    {
      var r, sleeps, attempts := Retry.GenerateAudioWithRetries(chunks[i], i, stem, tempDir, env.calls(i), Retry.DefaultRetries);
      ChunkResultsAppend(results, r, env, tempDir, stem);
      results := results + [r];
      i := i + 1;
    }
  }

  /** Appending the result of the next chunk keeps `ChunkResults`. */
  lemma ChunkResultsAppend(results: seq<Retry.Outcome>, r: Retry.Outcome, env: Environment, tempDir: string, stem: string)
    requires ChunkResults(results, env, tempDir, stem)
    requires r.Returned? <==> ChunkSynthesized(env, |results|)
    requires r.Returned? ==> r.path == Naming.ChunkPath(tempDir, stem, |results|)
    ensures ChunkResults(results + [r], env, tempDir, stem)
  {
    var rs := results + [r];
    forall j | 0 <= j < |rs| ensures (rs[j].Returned? <==> ChunkSynthesized(env, j)) && (rs[j].Returned? ==> rs[j].path == Naming.ChunkPath(tempDir, stem, j)) {
      if j < |results| { assert rs[j] == results[j]; }
    }
  }

  /**
   * The loop at src/app.py:146-147: take the results in the order the chunks
   * finish; `future.result()` re-raises the first failure met. A result of
   * `None` (possible only with no attempts) fails too, when its `.stem` is
   * read by the sort key. `failed` is the chunk whose failure ended the loop.
   */
  method CollectResults(results: seq<Retry.Outcome>, arrival: seq<nat>, tempDir: string, stem: string)
    returns (audioFiles: seq<string>, failed: Option<nat>)
    requires ReturnedChunkPaths(results, tempDir, stem)
    requires multiset(arrival) == multiset(Naming.Range(|results|))
    ensures failed.Some? ==> failed.value < |results| && !results[failed.value].Returned?
    ensures failed.None? ==>
      && (forall c :: 0 <= c < |results| ==> results[c].Returned?)
      && audioFiles == Naming.PathsOf(tempDir, stem, arrival)
  {
    var n := |results|;
    assert |arrival| == |multiset(arrival)| == n;
    audioFiles := [];
    var k := 0;
    while k < n
      invariant k <= n && |audioFiles| == k
      invariant forall q :: 0 <= q < k ==> arrival[q] < n && results[arrival[q]].Returned?
      invariant forall q :: 0 <= q < k ==> audioFiles[q] == results[arrival[q]].path
    {
      var c := arrival[k];
      assert c in multiset(Naming.Range(n));
      Naming.RangeMembers(n, c);
      if !results[c].Returned? {
        return audioFiles, Some(c);
      }
      audioFiles := audioFiles + [results[c].path];
      k := k + 1;
    }
    forall c | 0 <= c < n ensures results[c].Returned? {
      assert c in multiset(arrival) by { assert Naming.Range(n)[c] == c; }
      var q :| 0 <= q < n && arrival[q] == c;
    }
    CollectedPaths(results, arrival, audioFiles, tempDir, stem);
    failed := None;
  }

  /** The paths collected for the chunks `arrival`, all of which returned, are their chunk paths in that order. */
  lemma CollectedPaths(results: seq<Retry.Outcome>, arrival: seq<nat>, audioFiles: seq<string>, tempDir: string, stem: string)
    requires ReturnedChunkPaths(results, tempDir, stem)
    requires |audioFiles| == |arrival|
    requires forall q :: 0 <= q < |arrival| ==> arrival[q] < |results| && results[arrival[q]].Returned?
    requires forall q :: 0 <= q < |arrival| ==> audioFiles[q] == results[arrival[q]].path
    ensures audioFiles == Naming.PathsOf(tempDir, stem, arrival)
  {
    var ps := Naming.PathsOf(tempDir, stem, arrival);
    forall q | 0 <= q < |arrival| ensures audioFiles[q] == ps[q] {
      Naming.PathsOfAt(tempDir, stem, arrival, q);
    }
  }

  /** The trace of a run that completes, having combined `files`. */
  function CompletedTrace(file: string, tempDir: string, outputDir: string, stem: string, files: seq<string>): seq<Event> {
    [ MadeOutputDir(OutputFolder(outputDir, stem)),
      WroteManifest(ManifestPath(tempDir), Manifest.Manifest(files)),
      RanConcat(ManifestPath(tempDir), FinalOutputPath(outputDir, stem)),
      RemovedManifest(ManifestPath(tempDir)),
      Moved(file, ProcessedPath(outputDir, stem)) ]
  }

  /** The trace moves the source document away. */
  predicate MovesSource(trace: seq<Event>) {
    exists k :: 0 <= k < |trace| && trace[k].Moved?
  }

  /** The stages after synthesis. */
  predicate OutputStage(s: Stage) {
    s.OutputDirStage? || s.ManifestStage? || s.ConcatStage? || s.MoveStage?
  }

  /**
   * How a run that reached the output stages ends, stage by stage: the first
   * effect that fails names the stage, and the trace holds exactly the
   * effects before it; the list file is removed even when ffmpeg fails
   * (src/app.py:120-122), and the document is moved only at the very end.
   */
  predicate FinishedAs(outcome: Outcome, trace: seq<Event>, file: string, tempDir: string, outputDir: string,
                       stem: string, files: seq<string>, env: Environment) {
    var full := CompletedTrace(file, tempDir, outputDir, stem, files);
    if !env.outputDirOk then outcome == Failed(OutputDirStage) && trace == []
    else if !env.manifestWriteOk then outcome == Failed(ManifestStage) && trace == full[..1]
    else if !env.concatOk then outcome == Failed(ConcatStage) && trace == full[..4]
    else if !env.moveOk then outcome == Failed(MoveStage) && trace == full[..4]
    else outcome == Completed(FinalOutputPath(outputDir, stem)) && trace == full
  }

  /**
   * src/app.py:152-164, once the audio files are sorted: make the output
   * folder, combine the files into the document's `.mp3`, then move the
   * document next to it. The document is moved only if everything before
   * succeeded.
   */
  method FinishDocument(file: string, tempDir: string, outputDir: string, stem: string, files: seq<string>, env: Environment)
    returns (outcome: Outcome, trace: seq<Event>)
    ensures outcome.Completed? || (outcome.Failed? && OutputStage(outcome.stage))
    ensures outcome.Completed? <==> env.outputDirOk && env.manifestWriteOk && env.concatOk && env.moveOk
    ensures outcome.Completed? ==>
      outcome.output == FinalOutputPath(outputDir, stem) && trace == CompletedTrace(file, tempDir, outputDir, stem, files)
    ensures MovesSource(trace) <==> outcome.Completed?
    ensures FinishedAs(outcome, trace, file, tempDir, outputDir, stem, files, env)
  {
    var folder := OutputFolder(outputDir, stem);
    if !env.outputDirOk {
      return Failed(OutputDirStage), [];
    }
    trace := [MadeOutputDir(folder)];
    var finalOutputPath := FinalOutputPath(outputDir, stem);

    var ok, events := CombineAudioFiles(files, finalOutputPath, tempDir, env.manifestWriteOk, env.concatOk);
    trace := trace + events;
    if !ok {
      outcome := if env.manifestWriteOk then Failed(ConcatStage) else Failed(ManifestStage);
      assert !MovesSource(trace) by {
        forall k | 0 <= k < |trace| ensures !trace[k].Moved? {
          if k > 0 { assert trace[k] == events[k - 1]; }
        }
      }
      return;
    }

    if !env.moveOk {
      outcome := Failed(MoveStage);
      assert !MovesSource(trace) by {
        forall k | 0 <= k < |trace| ensures !trace[k].Moved? {
          if k > 0 { assert trace[k] == events[k - 1]; }
        }
      }
      return;
    }
    trace := trace + [Moved(file, ProcessedPath(outputDir, stem))];
    assert trace[|trace| - 1].Moved?;
    outcome := Completed(finalOutputPath);
  }

  /**
   * `process_file(file)`. The chunk syntheses run one after the other here
   * (each with `DefaultRetries` attempts); their results are then collected
   * in the order the chunks finish, as `as_completed` yields them, and the
   * first chunk found failed makes the run fail. The collected paths are
   * sorted by the chunk number read back out of their names (with the
   * corrected key, see `Naming.PartKey`), so the document's audio is its
   * chunks in order, whatever order they finished in.
   */
  method ProcessFile(file: string, tempDir: string, outputDir: string, maxChunkSize: int, env: Environment)
    returns (outcome: Outcome, trace: seq<Event>)
    requires maxChunkSize >= 1
    ensures outcome == Failed(ReadStage) <==> env.read.None?
    ensures outcome == Skipped <==> env.read.Some? && IsBlank(env.read.value)
    ensures outcome.Skipped? || outcome == Failed(ReadStage) ==> trace == []
    ensures env.read.Some? && !IsBlank(env.read.value) ==>
      var stem := Naming.PathStem(Naming.PathName(file));
      var n := |Chunker.Chunks(env.read.value, maxChunkSize)|;
      && (outcome.Failed? && outcome.stage.SynthesisStage? ==>
            outcome.stage.chunk < n && !ChunkSynthesized(env, outcome.stage.chunk) && trace == [])
      && (outcome.Completed? <==>
            AllSynthesized(env, n) && env.outputDirOk && env.manifestWriteOk && env.concatOk && env.moveOk)
      && (AllSynthesized(env, n) ==> outcome.Completed? || (outcome.Failed? && OutputStage(outcome.stage)))
      && (!AllSynthesized(env, n) ==> outcome.Failed? && outcome.stage.SynthesisStage? && trace == [])
      && (AllSynthesized(env, n) ==>
            FinishedAs(outcome, trace, file, tempDir, outputDir, stem, Naming.ChunkPaths(tempDir, stem, n), env))
      && (outcome.Completed? ==>
            && outcome.output == FinalOutputPath(outputDir, stem)
            && trace == CompletedTrace(file, tempDir, outputDir, stem, Naming.ChunkPaths(tempDir, stem, n)))
    ensures MovesSource(trace) <==> outcome.Completed?
  {
    var stem := Naming.PathStem(Naming.PathName(file));
    if env.read.None? {
      return Failed(ReadStage), [];
    }
    var textContent := env.read.value;
    StripEnds(textContent);
    if Strip(textContent) == [] {
      return Skipped, [];
    }
    var chunks := Chunker.SplitTextIntoChunks(textContent, maxChunkSize);
    var n := |chunks|;
    var results := SynthesizeChunks(chunks, stem, tempDir, env);

    // `as_completed` hands the results over in the order the chunks finish.
    var arrival := Naming.InsertionSort(env.finish, Naming.Range(n));
    Naming.InsertionSortCorrect(env.finish, Naming.Range(n));
    var audioFiles, failed := CollectResults(results, arrival, tempDir, stem);
    if failed.Some? {
      return Failed(SynthesisStage(failed.value)), [];
    }

    Naming.FileStemNoSlash(file);
    Naming.ChunkOrderRestored(tempDir, stem, arrival, n);
    var files := Naming.SortByPartKey(audioFiles).value;
    outcome, trace := FinishDocument(file, tempDir, outputDir, stem, files, env);
  }

  /**
   * Every chunk synthesised but ffmpeg failing: the run fails at the concat
   * stage, the list file written for it has been removed again, and the
   * document stays where it was.
   */
  method ConcatFailureRemovesList(file: string, tempDir: string, outputDir: string, maxChunkSize: int, env: Environment)
    returns (outcome: Outcome, trace: seq<Event>)
    requires maxChunkSize >= 1
    requires env.read.Some? && !IsBlank(env.read.value)
    requires AllSynthesized(env, |Chunker.Chunks(env.read.value, maxChunkSize)|)
    requires env.outputDirOk && env.manifestWriteOk && !env.concatOk
    ensures outcome == Failed(ConcatStage)
    ensures |trace| == 4 && trace[3] == RemovedManifest(ManifestPath(tempDir))
    ensures !MovesSource(trace)
  {
    outcome, trace := ProcessFile(file, tempDir, outputDir, maxChunkSize, env);
  }

  /**
   * A 10000-character document `<inputDir>/<base>.txt` (say `input/a.txt`)
   * without whitespace, every first attempt succeeding and every later step
   * too: three chunks, combined in order into `<outputDir>/<base>/<base>.mp3`,
   * and the document moved to `<outputDir>/<base>/<base>.processed.txt`.
   */
  method TenThousandCharacterDocument(inputDir: string, base: string, tempDir: string, outputDir: string, text: string, env: Environment)
    returns (outcome: Outcome, trace: seq<Event>)
    requires base != [] && '/' !in base && '.' !in base
    requires |text| == 10000 && forall j :: 0 <= j < |text| ==> !IsWhitespace(text[j])
    requires env.read == Some(text) && forall i :: env.calls(i)(0).Ok?
    requires env.outputDirOk && env.manifestWriteOk && env.concatOk && env.moveOk
    ensures outcome == Completed(outputDir + "/" + base + "/" + base + ".mp3")
    ensures trace == CompletedTrace(inputDir + "/" + base + ".txt", tempDir, outputDir, base, Naming.ChunkPaths(tempDir, base, 3))
  {
    Chunker.TenThousandCharacters(text);
    assert !IsBlank(text) by { assert !IsWhitespace(text[0]); }
    assert AllSynthesized(env, 3) by {
      forall i | 0 <= i < 3 ensures ChunkSynthesized(env, i) {
        assert env.calls(i)(0).Ok?;
      }
    }
    var file := inputDir + "/" + base + ".txt";
    assert file == inputDir + "/" + base + "." + "txt";
    Naming.StemOfFile(inputDir, base, "txt");
    outcome, trace := ProcessFile(file, tempDir, outputDir, Chunker.MaxChunkSize, env);
  }
}
