/**
 * Speech synthesis of one chunk with retries (src/app.py:67-100). The call to
 * the speech service is an oracle: `calls(k)` is what synthesis attempt `k`
 * (counted from 0) yields. Sleeping is recorded, not performed.
 */
module Retry {
  import Naming

  /** What one call of `generate_audio` does: it writes the chunk's file and returns its path, or raises. */
  datatype Attempt = Ok | Err(error: string)

  /** How `generate_audio_with_retries` ends: it returns a path, raises the last error, or falls out of its loop with `None`. */
  datatype Outcome = Returned(path: string) | Raised(error: string) | ReturnedNone

  /** The number of attempts `process_file` allows each chunk (the default of `retries`). */
  const DefaultRetries := 3

  /**
   * `generate_audio(chunk, chunk_index, file_stem)` for a given answer of the
   * speech service: on success the path of the chunk's file under `tempDir`
   * (src/app.py:82-85, 97), otherwise the error is re-raised (src/app.py:98-100).
   * The chunk's text only goes to the service, whose answer is `answer`.
   */
  function GenerateAudio(chunk: string, chunkIndex: nat, fileStem: string, tempDir: string, answer: Attempt): (r: Outcome)
    ensures r.Returned? <==> answer.Ok?
    ensures r.Returned? ==> r.path == Naming.ChunkPath(tempDir, fileStem, chunkIndex)
    ensures answer.Err? ==> r == Raised(answer.error)
  {
    match answer
    case Ok => Returned(Naming.ChunkPath(tempDir, fileStem, chunkIndex))
    case Err(e) => Raised(e)
  }

  function Pow2(k: nat): (p: nat)
    ensures p >= 1
  {
    if k == 0 then 1 else 2 * Pow2(k - 1)
  }

  /** The sleeps after the first `k` failed attempts: `2 ** 0, ..., 2 ** (k - 1)` seconds. */
  function Backoffs(k: nat): (b: seq<nat>)
    ensures |b| == k
  {
    if k == 0 then [] else Backoffs(k - 1) + [Pow2(k - 1)]
  }

  function Sum(xs: seq<nat>): nat {
    if xs == [] then 0 else Sum(xs[..|xs| - 1]) + xs[|xs| - 1]
  }

  /** The `j`-th sleep is `2 ** j` seconds. */
  lemma {:induction false} BackoffsAt(k: nat, j: nat)
    requires j < k
    ensures Backoffs(k)[j] == Pow2(j)
    decreases k
  {
    if j < k - 1 {
      BackoffsAt(k - 1, j);
    }
  }

  /** After `k` failures the program has slept `2 ** k - 1` seconds in all. */
  lemma {:induction false} BackoffsTotal(k: nat)
    ensures Sum(Backoffs(k)) == Pow2(k) - 1
    decreases k
  {
    if k > 0 {
      BackoffsTotal(k - 1);
      assert Backoffs(k)[..k - 1] == Backoffs(k - 1);
    }
  }

  /** The first of the attempts `0, ..., n - 1` that succeeds, or `n` if none does. */
  function FirstSuccess(calls: nat -> Attempt, n: nat): (k: nat)
    ensures k <= n
    ensures k < n ==> calls(k).Ok?
    decreases n
  {
    if n == 0 then 0
    else if FirstSuccess(calls, n - 1) < n - 1 then FirstSuccess(calls, n - 1)
    else if calls(n - 1).Ok? then n - 1
    else n
  }

  /** Every attempt before `FirstSuccess` fails. */
  lemma {:induction false} FirstSuccessIsFirst(calls: nat -> Attempt, n: nat)
    ensures forall j :: 0 <= j < FirstSuccess(calls, n) ==> calls(j).Err?
    decreases n
  {
    if n > 0 {
      FirstSuccessIsFirst(calls, n - 1);
    }
  }

  /** Allowing more attempts does not change which attempt succeeds first, once one has. */
  lemma {:induction false} FirstSuccessStable(calls: nat -> Attempt, n: nat, m: nat)
    requires n <= m && FirstSuccess(calls, n) < n
    ensures FirstSuccess(calls, m) == FirstSuccess(calls, n)
    decreases m
  {
    if m > n {
      FirstSuccessStable(calls, n, m - 1);
    }
  }

  /**
   * `generate_audio_with_retries`: try up to `retries` times; after a failed
   * attempt `a` that is not the last, sleep `2 ** a` seconds; re-raise the
   * last failure. With `retries <= 0` the loop does not run and the result is
   * `None`. `attempts` counts the calls made to the speech service and
   * `sleeps` lists the sleeps in the order taken.
   */
  method GenerateAudioWithRetries(chunk: string, chunkIndex: nat, fileStem: string, tempDir: string,
                                  calls: nat -> Attempt, retries: int)
    returns (r: Outcome, sleeps: seq<nat>, attempts: nat)
    ensures retries <= 0 ==> r == ReturnedNone && sleeps == [] && attempts == 0
    ensures retries > 0 ==>
      var k := FirstSuccess(calls, retries);
      if k < retries then
        r == Returned(Naming.ChunkPath(tempDir, fileStem, chunkIndex)) && attempts == k + 1 && sleeps == Backoffs(k)
      else
        r == Raised(calls(retries - 1).error) && attempts == retries && sleeps == Backoffs(retries - 1)
  {
    r, sleeps, attempts := ReturnedNone, [], 0;
    var attempt: nat := 0;
    while attempt < retries
      invariant attempt == 0 || attempt < retries
      invariant attempts == attempt && sleeps == Backoffs(attempt)
      invariant FirstSuccess(calls, attempt) == attempt
    {
      attempts := attempts + 1;
      r := GenerateAudio(chunk, chunkIndex, fileStem, tempDir, calls(attempt));
      if r.Returned? {
        FirstSuccessStable(calls, attempt + 1, retries);
        return;
      }
      if attempt < retries - 1 {
        sleeps := sleeps + [Pow2(attempt)];
      } else {
        return;
      }
      attempt := attempt + 1;
    }
    r := ReturnedNone;
  }

  /** The default three attempts, all failing: the last error is raised after three calls and sleeps of 1 and 2 seconds. */
  method ThreeFailures(chunk: string, chunkIndex: nat, fileStem: string, tempDir: string, calls: nat -> Attempt)
    returns (r: Outcome, sleeps: seq<nat>, attempts: nat)
    requires calls(0).Err? && calls(1).Err? && calls(2).Err?
    ensures r == Raised(calls(2).error) && sleeps == [1, 2] && attempts == 3
  {
    r, sleeps, attempts := GenerateAudioWithRetries(chunk, chunkIndex, fileStem, tempDir, calls, DefaultRetries);
  }

  /** The default three attempts, the first two failing: the chunk's path after three calls and sleeps of 1 and 2 seconds. */
  method TwoFailuresThenSuccess(chunk: string, chunkIndex: nat, fileStem: string, tempDir: string, calls: nat -> Attempt)
    returns (r: Outcome, sleeps: seq<nat>, attempts: nat)
    requires calls(0).Err? && calls(1).Err? && calls(2).Ok?
    ensures r == Returned(Naming.ChunkPath(tempDir, fileStem, chunkIndex)) && sleeps == [1, 2] && attempts == 3
  {
    r, sleeps, attempts := GenerateAudioWithRetries(chunk, chunkIndex, fileStem, tempDir, calls, DefaultRetries);
  }
}
