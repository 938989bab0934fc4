/**
 * One file transfer of `download` (src/lib/Downloader.py:211-245): the
 * chunk loop over `next_chunk()`, the call of line 221 that names the
 * commented-out progress bar, and the check of the wrapper's result.
 * `next_chunk()` is an oracle: the finite sequence of its answers for one
 * file, each a chunk status or an exception.
 */
module Transfer {
  import opened Wrappers
  import opened Retry

  /** `(progress, done)` as one `next_chunk()` returns it. */
  datatype ChunkStatus = ChunkStatus(progress: nat, done: bool)

  /** One answer of `downloader.next_chunk()`. */
  datatype ChunkResponse = Chunk(status: ChunkStatus) | ChunkError(msg: string)

  /** The retry count that decorates `downloadChunks` (`RetryOnFailure(5, ...)`). */
  const DownloadRetries: int := 5

  /** `str(e)` of the `NameError` that line 221 raises. */
  const UndefinedBarMessage: string := "name 'fileDownloadBar' is not defined"

  /** An answer after which the loop stops: a raise, or a status with `done`. */
  predicate Stops(r: ChunkResponse) {
    r.ChunkError? || r.status.done
  }

  /** What the loop makes of an answer that stops it: the exception, or the status it returns. */
  function Answer(r: ChunkResponse): Attempt<ChunkStatus> {
    match r
    case ChunkError(m) => Raise(m)
    case Chunk(s) => Ok(s)
  }

  /**
   * The message of the exception `next_chunk()` raises when it is asked for
   * more answers than the finite answer sequence holds.
   */
  const NoMoreAnswers: string := "no answer left"

  /**
   * The loop `while done is False: progress, done = downloader.next_chunk()`
   * and its `return (progress, done)`, reading answers from position `from`
   * on: the outcome, and the position the next call starts from.
   */
  function Fetch(answers: seq<ChunkResponse>, from: nat): (r: (Attempt<ChunkStatus>, nat))
    ensures r.0.Ok? ==> r.0.value.done
    decreases |answers| - from
  {
    if from >= |answers| then (Raise(NoMoreAnswers), from + 1)
    else if Stops(answers[from]) then (Answer(answers[from]), from + 1)
    else Fetch(answers, from + 1)
  }

  /**
   * The loop reads every answer from `from` up to and including the first
   * one that stops it, and no further; that answer decides the outcome. Past
   * the end of the answers, the call raises.
   */
  lemma {:induction false} FetchStopsAtFirst(answers: seq<ChunkResponse>, from: nat)
    ensures var r := Fetch(answers, from);
      && from < r.1
      && (forall i :: from <= i < r.1 - 1 ==> i < |answers| && !Stops(answers[i]))
      && (r.1 - 1 < |answers| ==> Stops(answers[r.1 - 1]) && r.0 == Answer(answers[r.1 - 1]))
      && (r.1 - 1 >= |answers| ==> r.0 == Raise(NoMoreAnswers))
    decreases |answers| - from
  {
    if from >= |answers| {
      assert Fetch(answers, from) == (Raise(NoMoreAnswers), from + 1);
    } else if Stops(answers[from]) {
      assert Fetch(answers, from) == (Answer(answers[from]), from + 1);
    } else {
      assert Fetch(answers, from) == Fetch(answers, from + 1);
      FetchStopsAtFirst(answers, from + 1);
    }
  }

  /** The chunk loop as a loop: it computes exactly what `Fetch` describes. */
  method FetchChunks(answers: seq<ChunkResponse>, from: nat) returns (outcome: Attempt<ChunkStatus>, next: nat)
    ensures (outcome, next) == Fetch(answers, from)
  {
    next := from;
    var done := false;
    var status := ChunkStatus(0, false);
    while !done
      invariant from <= next && (next == from || next <= |answers|)
      invariant !done ==> Fetch(answers, from) == Fetch(answers, next)
      invariant done ==> Fetch(answers, from) == (Ok(status), next)
      decreases |answers| - next, if done then 0 else 1
    {
      if next >= |answers| {
        outcome := Raise(NoMoreAnswers);
        next := next + 1;
        return;
      }
      match answers[next]
      case ChunkError(m) =>
        outcome := Raise(m);
        next := next + 1;
        return;
      case Chunk(s) =>
        status := s;
        done := s.done;
        next := next + 1;
    }
    outcome := Ok(status);
  }

  /**
   * What call `k` of `downloadChunks` gives once line 221 can run (the
   * progress bar of line 216 defined), when the first call starts reading at
   * `from`: the downloader keeps its place, so each call resumes where the
   * one before stopped.
   */
  function ResumedCall(answers: seq<ChunkResponse>, from: nat, k: nat): (r: Attempt<Option<ChunkStatus>>)
    decreases k
    ensures r.Ok? ==> r.value.Some? && r.value.value.done
  {
    var f := Fetch(answers, from);
    if k == 0 then
      match f.0
      case Raise(m) => Raise(m)
      case Ok(s) => Ok(Some(s))
    else ResumedCall(answers, f.1, k - 1)
  }

  /** The corrected `downloadChunks` as the wrapper sees it: call `k` reads on from where call `k - 1` stopped. */
  function ResumedChunkCall(answers: seq<ChunkResponse>): (f: (nat, seq<Arg<string>>) -> Attempt<Option<ChunkStatus>>)
    ensures forall k, passed :: f(k, passed).Ok? ==> f(k, passed).value.Some? && f(k, passed).value.value.done
  {
    (k: nat, passed: seq<Arg<string>>) => ResumedCall(answers, 0, k)
  }

  /**
   * `downloadChunks` as written: line 221 calls `set_postfix` on
   * `fileDownloadBar`, whose definition on line 216 is commented out, so
   * every call raises `NameError` before any chunk is fetched.
   */
  function AsWrittenChunkCall(k: nat, passed: seq<Arg<string>>): Attempt<Option<ChunkStatus>> {
    Raise(UndefinedBarMessage)
  }

  /**
   * Lines 234-245 given the wrapper's result: the exception that leaves
   * `download`, if any, and what is logged. A `None` result raises in both
   * modes (graceful: `abortBackup`; otherwise the unpack on line 240).
   */
  function CheckResult(result: Option<ChunkStatus>, graceful: bool, filePath: string, name: string)
    : (r: (Option<PyException>, seq<LogEntry>))
    ensures r.0.Some? <==> result.None? || (graceful && !result.value.done)
    ensures r.0.Some? ==> r.0.value == Abort || (r.0.value == UnpackNone && !graceful)
    ensures result.None? ==> r.0 == Some(if graceful then Abort else UnpackNone) && r.1 == [Error(DownloadFailed(filePath))]
    ensures result.Some? && !result.value.done ==> r.1 == [Error(PartialDownload(name))]
    ensures r.1 == [] <==> result.Some? && result.value.done
  {
    if result.None? then
      (Some(if graceful then Abort else UnpackNone), [Error(DownloadFailed(filePath))])
    else if !result.value.done then
      (if graceful then Some(Abort) else None, [Error(PartialDownload(name))])
    else
      (None, [])
  }

  /**
   * As written, the wrapper makes five calls that all raise, logs five
   * warnings and one error, returns `None`, and the download then raises in
   * either mode.
   */
  lemma AsWrittenDownloadAlwaysRaises(graceful: bool, filePath: string, name: string)
    ensures var run := RetryFrom(DownloadRetries, true, [], map[], AsWrittenChunkCall, 0);
      && run.result == None
      && |run.calls| == 5
      && run.log == [Warning(Retrying(UndefinedBarMessage)), Warning(Retrying(UndefinedBarMessage)),
                     Warning(Retrying(UndefinedBarMessage)), Warning(Retrying(UndefinedBarMessage)),
                     Warning(Retrying(UndefinedBarMessage)), Error(TaskFailed)]
      && CheckResult(run.result, graceful, filePath, name).0 == Some(if graceful then Abort else UnpackNone)
  {
    var run := RetryFrom(DownloadRetries, true, [], map[], AsWrittenChunkCall, 0);
    RetryExhausts(DownloadRetries, true, [], map[], AsWrittenChunkCall, 0);
    assert |run.log| == 6;
  }

  /**
   * When every call that returns gives a status with `done` (as
   * `ResumedCall` promises of the chunk loop), the partial-download branch is never taken: the download
   * raises exactly when the wrapper gave up.
   */
  lemma {:induction false} PartialBranchUnreachable(fn: (nat, seq<Arg<string>>) -> Attempt<Option<ChunkStatus>>,
                                                    graceful: bool, filePath: string, name: string)
    requires forall k, p :: fn(k, p).Ok? ==> fn(k, p).value.Some? && fn(k, p).value.value.done
    ensures var run := RetryFrom(DownloadRetries, true, [], map[], fn, 0);
      var check := CheckResult(run.result, graceful, filePath, name);
      && (run.result.Some? ==> run.result.value.done)
      && (check.0.Some? <==> run.result.None?)
      && Error(PartialDownload(name)) !in check.1
  {
    var run := RetryFrom(DownloadRetries, true, [], map[], fn, 0);
    RetryResultCameFromACall(DownloadRetries, true, [], map[], fn, 0);
    if run.result.Some? {
      var i :| 0 <= i < DownloadRetries && fn(i, Passed([], map[])) == Ok(run.result);
      assert fn(i, Passed([], map[])).Ok?;
    }
  }
}
