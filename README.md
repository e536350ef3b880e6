# Batch text-to-speech: chunking, retries, chunk naming and assembly

The program turns every `.txt` document in an input folder into one `.mp3`.
It splits the document's text into chunks of at most `MAX_CHUNK_SIZE`
characters. Each chunk goes to a speech-synthesis service, with up to three
attempts and exponential backoff. The chunk files are written to
`<temp>/<stem>/<stem>_part_<i+1>.mp3`. They are collected in the order they
finish and sorted back into chunk order by the number in their names. ffmpeg
concatenates them through a list file of `file '<path>'` lines. Finally the
document is moved next to its `.mp3`.

This project models the deterministic core of `src/app.py` and proves its
properties:

- `strings.dfy` (module `Strings`): the Python `str` operations the program
  relies on. These are `isspace`, `strip` (with `lstrip` and `rstrip`),
  `rfind` of a character, and `find`/`rfind` of a substring.
- `chunker.dfy` (module `Chunker`): `split_text_into_chunks`. It is a
  specification function `Chunks` plus the source's `while` loop as the method
  `SplitTextIntoChunks`, proved equal to it. Lemmas give the chunk length bound,
  preservation of content up to whitespace, the shape of every cut, and when a
  chunk can be empty.
- `naming.dfy` (module `Naming`):
  - the chunk file path built at line 85;
  - `Path.name` and `Path.stem`;
  - the sort key of line 150, both as written (`split`) and corrected (`rsplit`);
  - a stable insertion sort standing for `list.sort`;
  - the proof that sorting by the corrected key restores chunk order from any
    completion order.
- `retry.dfy` (module `Retry`): `generate_audio` and
  `generate_audio_with_retries`. The speech service is an oracle giving the
  answer to each attempt. Sleeps are recorded rather than taken.
- `manifest.dfy` (module `Manifest`): the text of the ffmpeg list file, the
  loop that writes it, and a parser that reads it back.
- `pipeline.dfy` (module `Pipeline`): `combine_audio_files` and
  `process_file`. They are methods over an `Environment` that fixes how every
  outside effect turns out. The result is an `Outcome` (`Skipped`,
  `Completed`, or `Failed` at a stage) and a trace of filesystem and ffmpeg
  events from the output folder's `mkdir` onward. The temporary chunk folder
  and chunk files that `generate_audio` writes (src/app.py:82-83, 92-94) are
  not in the trace, so an empty trace after a failed synthesis does not mean
  that nothing was written.
- `options.dfy` (module `Options`): the `Option` type.

Three behaviours of the chunker at src/app.py:54-65 are easy to miss:

- Text of at most `max_length` characters is returned unchanged, without
  being stripped.
- Whitespace-only text of at most `max_length` characters gives `[text]`.
  Longer whitespace-only text can give `[""]`
  (`Chunker.BlankTextCanEndEmpty`). `process_file` skips such documents
  before chunking (src/app.py:132-134).
- Only the space character `' '` is a cut point (src/app.py:58), while
  `strip()` removes every whitespace character (src/app.py:62).

## Model

| member | source | states |
|---|---|---|
| Strings.LStripParts | src/app.py:62 | `lstrip` keeps a suffix, removes only whitespace, and stops at a character that is not whitespace |
| Strings.RStripParts | src/app.py:62 | `rstrip` keeps a prefix, removes only whitespace, and stops at a character that is not whitespace |
| Strings.StripParts | src/app.py:62 | the text is the removed leading whitespace, then the stripped result, then the removed trailing whitespace |
| Strings.StripEnds | src/app.py:132 | `strip()` is empty exactly when the text is all whitespace; otherwise its first and last characters are not whitespace |
| Strings.StripKeepsContent | src/app.py:62 | stripping changes a text only by whitespace |
| Strings.RFind | src/app.py:58 | `text.rfind(c, 0, end)` is -1 or an index below `end` holding `c` |
| Strings.RFindIsLast | src/app.py:58 | no `c` lies after the index `rfind` returns, and none lies in the range when it returns -1 |
| Strings.FindSub | src/app.py:150 | `str.find(sep)` returns the leftmost occurrence of `sep`, or -1 when there is none |
| Strings.RFindSub | src/app.py:150 | `str.rfind(sep)` returns the rightmost occurrence of `sep`, or -1 when there is none |
| Chunker.SplitIndex | src/app.py:58-60 | the cut index is at most `max_length`; below `max_length` it holds a space |
| Chunker.SplitIndexIsLastSpace | src/app.py:58-60 | the cut is at the last space of the window, or at `max_length` when the window has no space |
| Chunker.SplitTextIntoChunks | src/app.py:54-65 | the loop terminates for `max_length >= 1` and returns exactly `Chunks(text, max_length)` |
| Chunker.ShortTextChunks | src/app.py:57-65 | `""` gives `[]`; a non-empty text of at most `max_length` characters gives `[text]`, unstripped |
| Chunker.ChunksStep | src/app.py:57-62 | one round emits `text[:split_index]` and continues on the stripped rest, which is strictly shorter |
| Chunker.ChunksBounded | src/app.py:57-64 | every chunk has at most `max_length` characters |
| Chunker.ChunksLayout | src/app.py:58-62 | the text is the chunks with blank gaps between them; every chunk but the last is cut just before a space (length below `max_length`) or is a forced cut of exactly `max_length` characters with no space. The last chunk is exempt: when the rest after the final cut is blank, that chunk's own cut is described round by round by `Chunker.ChunksStep` and `Chunker.SplitIndexIsLastSpace` |
| Chunker.ChunksKeepContent | src/app.py:61-62 | deleting all whitespace from the concatenated chunks gives the input with all whitespace deleted |
| Chunker.EmptyChunk | src/app.py:58-62 | a chunk is empty exactly when it is the first, the text is longer than `max_length`, starts with a space, and the window holds no other space |
| Chunker.StrippedChunksNonEmpty | src/app.py:62-64 | on text that does not start with whitespace (every rest after a cut), no chunk is empty |
| Chunker.LastChunkNonEmpty | src/app.py:63-64 | a text that is not blank yields at least one chunk, and the last chunk is not empty |
| Chunker.BlankTextCanEndEmpty | src/app.py:57-64 | for blank text the last chunk can be empty: `" \t"` with `max_length` 1 gives `[""]` |
| Chunker.ZeroMaxLengthMakesNoProgress | src/app.py:57-62 | with `max_length` 0 a round on stripped text emits `""` and leaves the text unchanged, so the loop would not end |
| Chunker.PiecesShape | src/app.py:59-61 | consecutive `d`-sized pieces concatenate back to the text, and there are `ceil(len / d)` of them |
| Chunker.ChunksWithoutWhitespace | src/app.py:58-62 | text without whitespace is cut into consecutive pieces of exactly `max_length` characters |
| Chunker.ChunkCountWithoutWhitespace | src/app.py:58-64 | text without whitespace gives `ceil(len / max_length)` chunks that concatenate to the text |
| Chunker.TenThousandCharacters | src/app.py:54-65 | with the default `MAX_CHUNK_SIZE` of 4096, 10000 characters without whitespace give 3 chunks that together are the text |
| Naming.Decimal | src/app.py:85 | `str(n)` is a non-empty string of decimal digits |
| Naming.DecimalRoundTrip | src/app.py:150 | `int(str(n)) == n` |
| Naming.FileStemNoSlash | src/app.py:150 | a file's stem holds no `/` |
| Naming.StemOfFile | src/app.py:153-163 | the stem of `dir/base.ext` is `base` |
| Naming.ChunkPathName | src/app.py:82-85 | the name of a chunk path is `<stem>_part_<i+1>.mp3` |
| Naming.ChunkNameStem | src/app.py:85 | the stem of a chunk file name drops exactly `.mp3` |
| Naming.RSplitAfterMarker | src/app.py:150 | the text after the last `_part_` of `<stem>_part_<digits>` is the digits, for every stem |
| Naming.SplitAfterMarker | src/app.py:150 | `split('_part_')[-1]` of `<stem>_part_<digits>` is the digits when the stem does not end in `_part` |
| Naming.PartKeyRoundTrip | src/app.py:150 | the corrected key reads `i + 1` back from chunk `i`'s path, for every stem, including stems that contain `_part_` |
| Naming.PartKeyAsWrittenRoundTrip | src/app.py:150 | the key as written reads `i + 1` back when the stem does not end in `_part` |
| Naming.SplitLastOfPartWord | src/app.py:150 | for a stem `<word>_part` with no `_` in `<word>`, such as `chapter_part`, `split('_part_')[-1]` leaves `part_<digits>` |
| Naming.PartKeyAsWrittenFails | src/app.py:150 | the key as written raises `ValueError` on every chunk of a document named `<word>_part.txt`, for a stem `<word>_part` with no `_` in `<word>`, such as `chapter_part` |
| Naming.InsertPermutes | src/app.py:150 | inserting adds exactly the inserted file |
| Naming.InsertSorted | src/app.py:150 | inserting into a sorted list keeps it sorted by key |
| Naming.InsertionSortCorrect | src/app.py:150 | the sort returns a permutation of its input, sorted by key |
| Naming.SortedUnique | src/app.py:150 | a permutation sorted by key equals the same files listed strictly by key |
| Naming.PathsOfPermutes | src/app.py:146-147 | completion orders that are permutations of each other collect the same files |
| Naming.ChunkPathsKeys | src/app.py:150 | the chunk paths in chunk order all parse, chunk `j` has key `j + 1`, and they are strictly sorted |
| Naming.ChunkOrderRestored | src/app.py:141-150 | for every completion order of the chunks, sorting the collected paths by the corrected key gives the chunk paths in chunk order |
| Naming.OutOfOrderExample | src/app.py:146-150 | chunks finishing in the order 2, 0, 1 are sorted to 0, 1, 2 |
| Retry.GenerateAudio | src/app.py:79-100 | a successful call returns chunk `i`'s path `<temp>/<stem>/<stem>_part_<i+1>.mp3`; a failed one re-raises its error |
| Retry.BackoffsAt | src/app.py:73-75 | the sleep after failed attempt `j` is `2 ** j` seconds |
| Retry.BackoffsTotal | src/app.py:73-75 | after `k` failed attempts the sleeps total `2 ** k - 1` seconds |
| Retry.FirstSuccess | src/app.py:69-71 | the first successful attempt is a success and is within the allowed attempts, or no attempt succeeds |
| Retry.FirstSuccessIsFirst | src/app.py:69-72 | every attempt before the first successful one fails |
| Retry.FirstSuccessStable | src/app.py:69-71 | once an attempt has succeeded, allowing more attempts does not change the result |
| Retry.GenerateAudioWithRetries | src/app.py:67-77 | given `retries <= 0`, returns `None` without calling the service. Otherwise, if attempt `k` is the first success, returns its path after `k + 1` calls and sleeps `[2 ** 0, ..., 2 ** (k-1)]`. If all attempts fail, raises the last error after `retries` calls and `retries - 1` sleeps, with no sleep after the last attempt |
| Retry.ThreeFailures | src/app.py:67-77 | with the default 3 attempts all failing: raises the third error after 3 calls and sleeps of 1 and 2 seconds |
| Retry.TwoFailuresThenSuccess | src/app.py:67-77 | with the default 3 attempts and the first two failing: returns the chunk's path after 3 calls and sleeps of 1 and 2 seconds |
| Manifest.ManifestAppend | src/app.py:105-107 | writing one more file appends exactly its `file '<path>'` line |
| Manifest.WriteManifest | src/app.py:104-107 | the loop writes exactly the manifest of the audio files, one line per file, in list order |
| Manifest.ParseLine | src/app.py:107 | a `file '<path>'` line whose path has no newline ends at its newline and gives the path back |
| Manifest.ManifestRoundTrip | src/app.py:105-107 | parsing the manifest gives back exactly the files, in order, when no path holds a newline |
| Manifest.ManifestInjective | src/app.py:105-107 | different file lists, or the same files in another order, give different manifests |
| Pipeline.CombineAudioFiles | src/app.py:102-122 | succeeds exactly when writing the list and ffmpeg both succeed. If the list is written, its text is the manifest of the files, ffmpeg runs on it, and the list is removed whatever ffmpeg does. If writing the list fails, it raises before the `try`, so ffmpeg is not run and the list is not removed |
| Pipeline.SynthesizeChunks | src/app.py:141-145 | every chunk is synthesised; chunk `j` returns its own path exactly when one of its 3 attempts succeeds |
| Pipeline.CollectResults | src/app.py:146-147 | taking results in completion order either stops at a chunk that failed, or finds all chunks returned and collects their paths in completion order |
| Pipeline.CollectedPaths | src/app.py:146-147 | the collected paths are the chunk paths of the completion order |
| Pipeline.FinishDocument | src/app.py:152-164 | the first effect that fails names the stage, and the trace holds exactly the effects before it. A failed `mkdir` leaves no effects. A failed list write leaves only the output folder. A failed ffmpeg run or a failed move leaves the folder, the list written, ffmpeg run and the list removed. When all succeed, the run completes with the final `.mp3` path and the full trace. The document is moved exactly when the run completes |
| Pipeline.ProcessFile | src/app.py:124-168 | An unreadable document fails at the read stage with no effects; a blank one is skipped with no effects. If any chunk fails all its attempts, the run fails at the synthesis stage, naming a failed chunk, with an empty trace: nothing is combined or moved. When every chunk succeeds, the later stages end as `Pipeline.FinishDocument` states for the chunks' files in chunk order; the run completes exactly when every stage succeeds. The document is moved exactly when the run completes. Every exception ends in an outcome |
| Pipeline.ConcatFailureRemovesList | src/app.py:117-122 | with every chunk synthesised and ffmpeg failing, the run fails at the concat stage, its last effect removes the list file, and the document is not moved |
| Pipeline.TenThousandCharacterDocument | src/app.py:124-168 | a document `<base>.txt` of 10000 characters without whitespace, with every step succeeding, completes into `<output>/<base>/<base>.mp3` from its 3 chunk files in chunk order, and is moved to `<output>/<base>/<base>.processed.txt` |

## Left out

- The speech service client and audio streaming (src/app.py:39-42, 86-94) are an oracle answer per attempt. `generate_audio`'s `mkdir` and its file writes fail only as that answer's error.
- The ffmpeg subprocess (src/app.py:110-115) is a success flag. Its `concat` syntax is not modelled, so a path containing `'` is written to the list unescaped, and what ffmpeg makes of it is outside the model.
- Filesystem effects (`mkdir`, `open`, `write`, `unlink`, `shutil.move`) are events in a trace or success flags. `Path.resolve()` is taken to return the path unchanged.
- Threads are not modelled. The `ThreadPoolExecutor` pools and `as_completed` (src/app.py:141-147, 174-183) run the syntheses one after another. Completion order comes from a finish time per chunk: a stable sort by that time, with ties broken by chunk index where `as_completed` breaks them arbitrarily. The single `concat_list.txt` shared by documents processed at the same time is a race the model does not see.
- `main` (src/app.py:170-191) is not modelled: the batch loop over the input folder and the removal of the temporary folder.
- Signal handlers (src/app.py:45-52) are process-level and not modelled.
- Environment and configuration parsing, `load_dotenv`, the API-key check, directory bootstrap and logging (src/app.py:13-42) are not modelled. `MAX_CHUNK_SIZE` is a parameter, with its default of 4096.
- `max_length <= 0` makes `split_text_into_chunks` loop forever on text that is not blank (`Chunker.ZeroMaxLengthMakesNoProgress`). `SplitTextIntoChunks` and `ProcessFile` therefore require `max_length >= 1`.
- `time.sleep` is recorded as a list of durations; no time passes.
- Reading the document is an optional text. A failed read, for example invalid UTF-8, is `None`.
- Naming.ParseDecimal: Python's `int()` also accepts signs, surrounding whitespace, underscores and non-ASCII digits. The model accepts only ASCII digits. That is all `str(i + 1)` produces, and `int('part_1')` raises either way.
- Naming.PathStem: `Path.stem` is modelled for names produced by the program; the special names `.` and `..` and trailing slashes are not.
- Naming.InsertionSort: stability is not proved, only that the result is a sorted permutation. The keys are distinct, so the order is unique anyway (`Naming.SortedUnique`).
- Pipeline.CombineAudioFiles: opening and writing the list file are one success flag, so a write that fails after `open` succeeded, which leaves a partly written `concat_list.txt` behind (the `with` block at src/app.py:105-107 lies outside the `try`), is recorded with no event.
- Pipeline.ProcessFile: states that the reported chunk failed, not that it is the first failed chunk in completion order.
- Pipeline.ProcessFile: sorts with the corrected key (see Findings). With the key as written, a document named `<word>_part.txt` with no `_` in `<word>` fails when sorting (`Naming.PartKeyAsWrittenFails`), after all its chunks were synthesised.
- Retry.GenerateAudioWithRetries: the warning logged before each retry is not modelled.

## Findings

| source | as written | input that shows it | evidently intended | confidence | as-written member | corrected member |
|---|---|---|---|---|---|---|
| src/app.py:150 | the sort key is `int(x.stem.split('_part_')[-1])`. `split` scans left to right without overlaps, so for a stem `<word>_part` with no `_` in `<word>`, such as `chapter_part`, the stem's own `_part` and the marker's `_` form the first `_part_` | a document `chapter_part.txt`: chunk 1 is `chapter_part_part_1.mp3`; `'chapter_part_part_1'.split('_part_')` is `['chapter', 'part_1']`, and `int('part_1')` raises `ValueError`, so the document fails after all its chunks were synthesised | the number after the last `_part_`, `int(x.stem.rsplit('_part_', 1)[-1])`, which reads `i + 1` back for every stem | not executed | Naming.PartKeyAsWritten (Naming.PartKeyAsWrittenFails) | Naming.PartKey (Naming.PartKeyRoundTrip, Naming.ChunkOrderRestored) |
