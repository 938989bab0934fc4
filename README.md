# google-drive-backup: the backup walk in Dafny

This project models the part of google-drive-backup that copies a Google
Drive folder tree to the local disk, and proves properties of that model.
The modelled code is the `Downloader` class in `src/lib/Downloader.py`:

- the name sanitiser inside `makePath`;
- directory creation with the uuid collision suffix (`makePath`);
- the destination checks (`ensureDestination`);
- the source lookup and its guards (`validateSource`, `getSource`), with the exact query strings;
- the recursive walk (`traverseSource`, `isFile`, `isFolder`);
- file naming and Google-document conversion (`download`, `googleDocConversion`, `GDOC_MIME_TYPE_CONVERSION`);
- the download outcome policy and `abortBackup`.

It also models the retry decorator `RetryOnFailure` (`src/lib/Utilities.py`).
The copy in `src/gdrivebackup/Utilities.py` is identical, so one model covers both.

Modules:

- `Wrappers`: `Option`, log records (`Message`, `LogEntry`, with `Text` giving each record's exact wording) and the exceptions that can leave an operation.
- `PathNames`: the sanitiser, written as a hand-made scan in place of the regular expression. Also `str.strip`, POSIX `os.path.join`/`isabs`, and `os.path.exists` against a set of paths.
- `Drive`: item records, the folder test, the conversion table, download naming and the two query strings.
- `Retry`: the retry wrapper. The spec function `RetryFrom` is tied to a loop method `RetryOnFailure`, and lemmas cover success, exhaustion, logging and argument passing.
- `Transfer`: the `next_chunk` loop (`Fetch`, and the loop method `FetchChunks`), the call on line 221 as written, the same call with the progress bar defined, and the result check of lines 234-245.
- `Walk`: each `Downloader` operation as a function from the state before to the outcome (returned value or exception) and the state after. The state holds the disk, the number of uuids drawn, a trace of remote listings, directory creations and downloads, and the log.
- `WalkProperties`: the guards, `makePath`'s single new directory, the trace discipline of a walk, files before folders, folders in list order and depth first, containment, and what the download does to a run as written and corrected.
- `Backup`: the class `Downloader`. Its fields are updated in place by methods, and each method is proved to produce exactly the outcome and state of its `Walk` function.

The outside world comes in as parameters:

- The remote tree is a finite `Node` datatype. Each node carries the answer that listing its children gives: a list, or a failure.
- `uuid.uuid4().hex` is an oracle `uuidHex(n)` for the `n`-th uuid drawn.
- What `next_chunk()` answers for an item is an oracle `answers(item)`: a finite sequence of chunk statuses and exceptions. Each call of `downloadChunks` reads on from where the previous call stopped.
- `Config.barDefined` chooses the body of `downloadChunks`. As written (`false`), line 221 names `fileDownloadBar`, whose definition on line 216 is commented out, so every call raises `NameError`. The wrapper gives up after five calls and returns `None`. `download` then raises in both modes: graceful through `abortBackup`, otherwise at the tuple unpack on line 240. So, as written, a backup finishes only when the tree it reaches holds no files (`AsWrittenCompletesOnlyWithoutFiles`). With `true`, the chunk loop runs; see "## Findings". The generic walk lemmas hold for both.

## Model

| member | source | states |
|---|---|---|
| Wrappers.DuplicateWarningNamesFinalPath | src/lib/Downloader.py:183 | The duplicate-folder warning is one fixed sentence followed by the final, renamed path. The candidate path it replaced is not named. |
| PathNames.Substitute | src/lib/Downloader.py:178 | The substitution keeps the length, or loses one when the name ends in `..`. Every character outside a final `..` maps one-for-one (reserved characters become `-`). A final `..` becomes one `-`. No reserved character is left. |
| PathNames.Strip | src/lib/Downloader.py:178 | `strip()` returns a contiguous slice of its input: only whitespace is removed, and only at the front and the back. The result has no whitespace at either end, and an already-trimmed string comes back unchanged. |
| PathNames.Sanitize | src/lib/Downloader.py:178 | The segment `makePath` uses is the substituted name with whitespace removed at both ends and nothing else. It has none of `< > : " / \ | ? *` and no surrounding whitespace. |
| PathNames.SanitizeKeepsSafeNames | src/lib/Downloader.py:178 | A name with no reserved character, no final `..` and no surrounding whitespace is kept unchanged: only those three things are touched. |
| PathNames.TrimAfterSubstitution | src/lib/Downloader.py:178 | The trim runs after the substitution, so `"x.. "` becomes `"x.."`. |
| PathNames.FinalDotsOnly | src/lib/Downloader.py:178 | Only the last two dots of a trailing run are replaced: `"a..."` becomes `"a.-"`. |
| PathNames.Normalize | src/lib/Downloader.py:181 | The path checked for existence is the given path with only trailing separators removed, as the OS resolves it for a directory; a non-empty path stays non-empty, and `/` stays `/`. |
| PathNames.JoinEmptyNamesSameDirectory | src/lib/Downloader.py:178-181 | Joining an empty segment only adds a separator, so `os.path.exists` sees the parent directory itself. |
| PathNames.JoinSegmentStaysUnder | src/lib/Downloader.py:178 | Joining a segment that does not start with `/` (every sanitised name) gives a path inside the directory: exactly the directory, then a separator unless the directory is empty or already ends in one, then the segment. |
| PathNames.AbsoluteComponentEscapes | src/lib/Downloader.py:209 | `os.path.join` returns an absolute component unchanged and drops the directory, so `join("/backup", "/etc/x")` is not inside `/backup`. |
| Drive.IsGoogleDoc | src/lib/Downloader.py:200 | The `gDocRegEx` pattern test: the Google prefix followed by at least one character other than a newline. Its use is stated by `Drive.DownloadNaming` and `Drive.TableKeysAreGoogleDocs`. |
| Drive.DownloadPlan | src/lib/Downloader.py:200-206 | The file name and request of `download`; what it returns for each kind of item is stated by `Drive.DownloadNaming`. |
| Drive.IsFile | src/lib/Downloader.py:259-265 | `isFile` and `isFolder` are complementary: exactly one holds for every item. |
| Drive.Conversion | src/lib/Downloader.py:247-248 | The lookup succeeds exactly for mime types in the table; otherwise it is the `KeyError`. |
| Drive.DownloadNaming | src/lib/Downloader.py:200-209 | A Google type gets `name + ext` and is exported under the table's mime type. Any other file keeps its raw name and is fetched as is. The download fails exactly for a Google type missing from the table. |
| Drive.ConversionDomain | src/lib/Downloader.py:21-42 | The table has exactly the five document types. A form matches the Google pattern but has no entry. A document exported to pdf gets `application/pdf` and `.pdf`. |
| Drive.TableKeysAreGoogleDocs | src/lib/Downloader.py:21-42 | Every table key matches the Google-document pattern. |
| Drive.NameQuery | src/lib/Downloader.py:150 | The name query contains the source verbatim at a fixed place. |
| Drive.ChildQuery | src/lib/Downloader.py:192 | The child query contains the folder id verbatim at a fixed place. |
| Drive.QuotesAreNotEscaped | src/lib/Downloader.py:150 | A quote in the source name goes into the query unescaped. |
| Retry.RetryOnFailure | src/lib/Utilities.py:7-21 | The retry loop, with its early return, its warnings and its final error, computes exactly the run `RetryFrom` describes. |
| Retry.RetryReturnsFirstSuccess | src/gdrivebackup/Utilities.py:41-43 | The first call that returns decides the result. No call is made after it. One warning is logged per earlier failure, and no error. |
| Retry.RetryExhausts | src/lib/Utilities.py:10-20 | When every call raises, exactly `retries` calls are made and `None` is returned without raising. One warning is logged per call, then one error. |
| Retry.RetryErrorOnlyOnExhaustion | src/gdrivebackup/Utilities.py:45-49 | The error is logged if and only if a logger is given and every call raised. |
| Retry.NoRetriesNoCalls | src/lib/Utilities.py:10-20 | With `retries <= 0` the function is never called and `None` is returned. |
| Retry.SuccessWithNoneLooksExhausted | src/lib/Utilities.py:12-19 | A first call that returns `None` gives the same result as exhaustion. |
| Retry.RetryResultCameFromACall | src/gdrivebackup/Utilities.py:41-43 | A value the wrapper returns was returned by one of its calls, and every call receives the argument tuple and the keyword dict as two positional arguments, not unpacked. |
| Transfer.Fetch | src/lib/Downloader.py:220-226 | A status the chunk loop returns always has `done`. |
| Transfer.FetchStopsAtFirst | src/lib/Downloader.py:220-226 | The chunk loop stops at the first answer that raises or has `done` and reads nothing after it; every answer before it neither raises nor has `done`; the next call starts right after that answer; running out of answers raises. |
| Transfer.FetchChunks | src/lib/Downloader.py:220-226 | The `while done is False` loop computes exactly the outcome and next position `Fetch` describes. It is the loop `Fetch` abstracts: the retry oracle of `Backup.Downloader.Download` uses `Fetch` through `Transfer.ResumedCall`, so no member calls this method. |
| Transfer.AsWrittenChunkCall | src/lib/Downloader.py:216-221 | One call of `downloadChunks` as written: line 221 raises `NameError` before any chunk is read. What this does to a download is stated by `Transfer.AsWrittenDownloadAlwaysRaises`. |
| Transfer.ResumedChunkCall | src/lib/Downloader.py:218-226 | `downloadChunks` with the progress bar defined, as the retry wrapper sees it: whatever the call number and arguments, a call that returns gives a status with `done`. How call `k` resumes is stated by `Transfer.ResumedCall`. |
| Transfer.ResumedCall | src/lib/Downloader.py:218-226 | With the progress bar defined, call `k` of `downloadChunks` resumes where call `k - 1` stopped, and every call that returns gives a status with `done`. |
| Transfer.CheckResult | src/lib/Downloader.py:234-245 | `download` raises exactly when the result is `None`, or when it is graceful and not `done`. A `None` result raises `abortBackup`'s exception when graceful and the unpack `TypeError` otherwise, and logs the failed-download error with the file path. A partial result logs the partial-download error with the file name. Nothing is logged exactly when the download completed. |
| Transfer.AsWrittenDownloadAlwaysRaises | src/lib/Downloader.py:216-240 | As written, the wrapper makes five calls that all raise. It logs five warnings and one error and returns `None`, and `download` raises in both modes. |
| Transfer.PartialBranchUnreachable | src/lib/Downloader.py:222-245 | When every call that returns has `done`, so does the wrapper's result: the partial-download branch never runs, and `download` raises exactly when the wrapper gave up. |
| Walk.Query | src/lib/Downloader.py:170-174 | The listing returns exactly when the service answers, and then returns that answer's files. |
| Walk.Children | src/lib/Downloader.py:192 | Listing a folder's children returns exactly the service's answer, and raises exactly when the service fails. The query used is stated by `WalkProperties.FolderEntrySound`. |
| Walk.EnterFolder | src/lib/Downloader.py:192 | One element of the second comprehension; its order of events is stated by `WalkProperties.EnterFolderOrder`. |
| WalkProperties.MakePathAddsOneDirectory | src/lib/Downloader.py:176-186 | If the sanitised path is free, it is created and returned. Otherwise the path with the uuid suffix appended directly is created, and one uuid is drawn. A second collision raises and leaves the disk unchanged. The log gains the duplicate-folder warning naming the renamed path exactly when the candidate exists, and nothing otherwise. Exactly one new directory is added. It starts with the sanitised candidate, lies inside `path`, and strictly inside it when `path` exists. One `Mkdir` is recorded. |
| WalkProperties.EnsureDestinationGuards | src/lib/Downloader.py:152-164 | It raises if and only if the destination is not absolute or already exists, and then creates nothing. Otherwise it creates exactly the destination and returns it. |
| WalkProperties.ValidateSourceGuards | src/lib/Downloader.py:166-174 | With no source it raises before any remote call. Otherwise it makes one listing, with the name query, and raises exactly when that listing fails. The disk is untouched. |
| WalkProperties.ListingFailureIsFatal | src/lib/Downloader.py:171-174 | A failed child listing raises `abortBackup`'s exception whatever the graceful setting. The folder's directory is not created. |
| WalkProperties.WalkSound | src/lib/Downloader.py:188-192 | A walk removes nothing from the disk. Each directory it creates comes right after a listing (its folder's, as `WalkProperties.EnterFolderOrder` states), did not exist before, and differs from every other one it creates. Every download is called with the walk's directory, or one the walk created earlier, as its destination; the file itself is written to `Join(dest, name)`, which need not lie inside it (see `WalkProperties.AbsoluteFileNameEscapes`). |
| WalkProperties.TraverseWithin | src/lib/Downloader.py:188-192 | Every directory a walk of an existing directory creates lies strictly inside it, after a separator (so `/backup2/x` is not inside `/backup`). Every download's destination argument is that directory or lies inside it; the file itself is written to `Join(dest, name)`, which need not (see `WalkProperties.AbsoluteFileNameEscapes`). |
| WalkProperties.EnterFolderOrder | src/lib/Downloader.py:192 | Entering a folder lists its children first. A failed listing or a failed `makePath` ends it there. Otherwise the next event creates the folder's directory, named after the folder and strictly inside the parent, and every later event is the walk of the children inside that directory. |
| WalkProperties.FoldersInOrder | src/lib/Downloader.py:192 | The folder items are entered in list order, depth first: each folder's listing, its directory and its whole subtree inside that directory come before the next folder's listing. When the comprehension returns, every folder was entered. |
| WalkProperties.TraverseOrder | src/lib/Downloader.py:188-192 | A walk first downloads the file items in list order (stopping only by raising), then enters the folder items in list order, depth first. |
| WalkProperties.FilesBeforeFolders | src/lib/Downloader.py:188-192 | At each level the file items are downloaded into the directory first, in list order. The walk's events are either a prefix of one download per file item (a shorter one only when a download raised and ended the walk), or all of them followed by events that never download into that directory. |
| WalkProperties.WalkFilesTrace | src/lib/Downloader.py:190 | The first comprehension adds only downloads whose destination is the directory, one per file item in list order. It adds all of them when it returns, and it never removes anything from the disk. |
| WalkProperties.EnterFolderSound | src/lib/Downloader.py:192 | The events of entering one folder keep the walk's rules: nothing removed, each new directory right after a listing, fresh and distinct, and every download into a directory created in the same stretch. |
| WalkProperties.DownloadNeverPartial | src/lib/Downloader.py:194-245 | Whichever body `downloadChunks` has, `download` raises exactly on the table's `KeyError` or when the wrapper gave up. It never logs a partial download: only the wrapper's records and, when the wrapper gave up, the failed-download error. |
| WalkProperties.AbsoluteFileNameEscapes | src/lib/Downloader.py:200-212 | A file with an absolute name is created at that absolute path whatever the destination; a plain file named `/etc/x` lands outside a backup at `/backup`. |
| WalkProperties.AsWrittenDownloadFileRaises | src/lib/Downloader.py:194-245 | As written, `download` raises: `KeyError` for a type missing from the table, else `abortBackup`'s exception (graceful) or the unpack error. The empty file has been created first. |
| WalkProperties.AsWrittenFirstFileEndsWalk | src/lib/Downloader.py:188-190 | As written, the first file item ends the run: its download is the only event, and it raises. |
| WalkProperties.AsWrittenCompletesOnlyWithoutFiles | src/lib/Downloader.py:188-192 | As written, a walk returns normally only if the part of the tree it reaches has no files. |
| WalkProperties.BackupOrder | src/lib/Downloader.py:124-133 | With no source, the backup raises with no listing and no disk change. A refused destination raises after the name listing, with no disk change. Otherwise the name listing and then the destination come before any walk event. (The `getUser` call before `validateSource` is not modelled.) |
| Backup.Downloader.constructor | src/lib/Downloader.py:59-60 | A new downloader holds its settings and starts with the given disk (a set of normalised paths), no uuids drawn, an empty trace and an empty log. |
| Backup.Downloader.MakeDir | src/lib/Downloader.py:185 | `os.mkdir` adds the path, or raises when it exists, as `Walk.MakeDir`. |
| Backup.Downloader.MakePath | src/lib/Downloader.py:176-186 | Updates the disk, uuid count and log exactly as `Walk.MakePath`. |
| Backup.Downloader.EnsureDestination | src/lib/Downloader.py:152-164 | Updates the disk and log and raises exactly as `Walk.EnsureDestination`. |
| Backup.Downloader.GetSource | src/lib/Downloader.py:166-174 | Records the listing and returns or raises exactly as `Walk.Query`. |
| Backup.Downloader.ValidateSource | src/lib/Downloader.py:149-150 | Guards and lists exactly as `Walk.ValidateSource`. |
| Backup.Downloader.Download | src/lib/Downloader.py:194-245 | Runs the retry loop and the result check and updates the state exactly as `Walk.DownloadFile`. |
| Backup.Downloader.TraverseSource | src/lib/Downloader.py:188-192 | The two loops and the recursion update the state and raise exactly as `Walk.Traverse`. |
| Backup.Downloader.StartBackup | src/lib/Downloader.py:116-133 | Validates, creates the destination and walks exactly as `Walk.Backup`. |

## Left out

- OAuth credentials, `build` of the Drive service, `getUser` and its log line: these are foreign library calls and network.
- Logging setup: the log is the list of records passed to the logger. Level filtering and handlers are not modelled.
- `compress`: a thin wrapper over `shutil.make_archive`.
- The command-line entry points, the argument parsers, `build_application_scaffold` and the package re-exports: they hold no logic that can be stated.
- The progress bar, `MediaIoBaseDownload` and the bytes written: the answers of `next_chunk()` are an oracle, and the file is recorded as existing once `io.FileIO` opens it.
- Backup.Downloader.MakeDir: does not model any `OSError` from `os.mkdir` other than `FileExistsError`: a missing parent directory, a permission error, or a name longer than the file system allows (the sanitiser does not truncate, and the renamed path adds 32 hex characters).
- Backup.Downloader.Download: does not model `io.FileIO` failing on line 212 (a missing directory, a permission error).
- Walk.MakePath: a name that sanitises to `.` or `..` (such as `" . "` or `".. "`) gives a candidate like `/b/..`. The model treats it as a new path and creates it, so `WalkSound` counts it as new. `os.path.exists` resolves it to an existing directory, so the code logs the duplicate warning and creates `/b/..` followed by the uuid instead. Containment in `TraverseWithin` is textual and counts `/b/..` as inside `/b`.
- PathNames.Exists: the disk does not tell files from directories, so every path on it is treated as a directory. For a destination that names an existing regular file followed by a separator (`/x/` where `/x` is a file), `os.path.exists` is False, the code passes line 159, and `os.mkdir` on line 163 raises `FileExistsError` with no log record; the model logs `DestinationExists` and aborts instead.
- PathNames.Normalize: removes trailing separators only. `.`, `..` and repeated separators inside a path are not resolved.
- Walk.Query: only the first page of a `files().list` answer is used, as in the code. Page tokens are not modelled.
- Walk.Children: the error record carries the folder's id, where the code formats the whole item dict.
- Transfer.Fetch: the answers are a finite sequence, and asking past its end raises. A server that keeps answering without completing or raising is not modelled.
- Retry.RetryOnFailure: `except Exception` lets `KeyboardInterrupt` and `SystemExit` pass through the wrapper. A call's outcome is a return or an exception the wrapper catches, so those two are not modelled.
- `uuid.uuid4()`: its randomness is the oracle `uuidHex`. The model does not assume the values are distinct.
- The remote tree is finite. A remote folder cycle, which would make the code recurse without end, is not modelled.

## Findings

| source | as written | input that shows it | evidently intended | confidence | as-written member | corrected member |
|---|---|---|---|---|---|---|
| src/lib/Downloader.py:216-221 | Line 221 calls `fileDownloadBar.set_postfix`, but the definition on line 216 is commented out, so every call of `downloadChunks` raises `NameError`. The wrapper gives up and `download` raises (`Transfer.AsWrittenDownloadAlwaysRaises`, `WalkProperties.AsWrittenCompletesOnlyWithoutFiles`). | Any plain file, for instance an item of type `text/plain`: its download raises in both modes. | The chunk loop of lines 222-226 runs, and a returned status always has `done` (`Transfer.ResumedCall`, `WalkProperties.DownloadNeverPartial`). | not executed | Transfer.AsWrittenChunkCall | Transfer.ResumedChunkCall |
