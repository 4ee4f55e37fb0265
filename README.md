# simplelogrotate in Dafny

This is a model of the rotating log writer `logrotate::logrotate` from
`logrotate.cpp`.

The writer is meant to append lines to numbered files `app_<n>.log` in one
directory. A file is full once it holds `_maxSize` bytes. The writer keeps at
most `_number` files. When the current file is full it creates the next file.
Once the directory holds `_number` full files, it first deletes the oldest and
renumbers the rest.

As written, the code falls short of this in two places, listed under
Findings:
- The size test truncates file sizes to 32 bits.
- Every reopen of the cached stream while it is still open fails silently.
  From then on every line is lost.

The model proves the intended behaviour with both defects corrected. The
`Directory` and `Reopen` modules state the code as written beside it.

The model has the following parts:

- **Directory** is a map from file name to the size and modification time
  `stat` reports.
  - Every system call the procedure makes (`stat`, `rename`, `unlink`,
    opening a stream for append, writing to it) is a function of that map.
  - An `Env` value carries the operating system's answers during one write
    call:
    - the names `readdir` yields, in order;
    - which renames, unlinks and opens fail;
    - whether the stream write fails;
    - the clock that stamps modification times.
- **Naming**: `toFileName`, both `toFilePath` overloads, a parser for the
  names, and round trips between names and paths. Like `isFileOk`, these are
  pure functions in the code and functions in the model.
- **Scan**: the filter loop of `getDirList`, and the `std::sort` of
  `writeImpl` as a sorted permutation.
- **Rotation** gives specification functions, one for each procedure:
  `renameAllFiles` (`RenumberFrom`), `rotate` (`RotateFrom`) and `writeImpl`
  (`WriteSpec`). It also proves lemmas about each branch.
- **LogRotate** has the class `Rotator` with the fields of the C++ class:
  - `_path`, `_number` and `_maxSize`;
  - the cached stream and `_currentFilePath`;
  - the directory it works on.

  The constructor and the member functions that change state or loop are
  imperative methods. The three loops are `while` loops:
  - the `readdir` loop of `getDirList`;
  - the two-counter loop of `renameAllFiles`, which keeps `i`, `j` and the
    in-place name rewrite;
  - the range-for of `rotate`.

  Each method is proved to leave exactly the state that its specification
  function describes.
- **NamingScheme** and **WriteScheme** hold the invariant the corrected writer
  maintains when nothing fails and the clock is not behind the newest file,
  and strictly ahead of it when that file is full.
  - The visible names in the directory (those not starting with a dot) are
    exactly `app_0` .. `app_{n-1}`; hidden files may sit beside them.
  - A higher index is a newer file.
  - Every file except the newest is full.

  `readdir` may also yield `.`, `..` and hidden names, in any order. The proofs
  show:
  - every write keeps this invariant and writes to the newest file;
  - from a directory with at most `_number` visible files, the count grows
    to `_number` and then stays there;
  - after an eviction, the renumbering never renames onto a name that an
    entry it has not yet renamed still holds.
- **Scenarios** proves what concrete writes do:
  - the three writes of a fresh writer kept to five files of ten bytes;
  - eviction when only one file is allowed;
  - data loss when two files share a modification time;
  - a file outside the naming scheme being pulled into the rotation.
- **Reopen** models the stream with its failbit, and the code's two reopens
  as written: the one in `createAndWriteHelper` and the one in `rotate`. Its
  lemmas show the line loss of the second finding.

`Write` and `DateWrite` return an `Outcome`:
- `Returned(true)` means the line was written.
- `Returned(false)` means it was not. Either the branch `writeImpl` took
  returned false, or the stream write failed and set the bad bit.
- `Threw(m)` means a `runtime_error` with message `m` escaped.

The C++ functions return `void`, so `Returned(false)` is invisible to their
callers.

### Behaviour of the code that the model keeps

- **Numbering direction.** `renameAllFiles` gives the oldest entry, the last
  one in the newest-first list, the name `app_0`. The new file gets
  `app_<count>`. So the newest file carries the highest index, not index 0.
- **Rotation with room renames nothing.** While fewer than `_number` files
  exist, every rename of `renameAllFiles` on a directory in the scheme is onto
  the file's own name (`NamingScheme.RenumberIdentity`). The new file is
  `app_<count>`. No file moves up an index.
- **Eviction shifts downwards.** On eviction, `app_0`, the oldest file, is
  deleted, and every other file moves one index down. The new file is
  `app_<count-1>`.
- **A missing file ends `rotate`.** When `rotate` reaches a file that no
  longer exists, it returns false. `writeImpl` then drops the line silently.
  The missing file is not treated as a file with room.
- **Failures are mostly silent.**
  - A failed rename does not stop rotation with room: `app_<count>` is
    created anyway.
  - A failed unlink, a failed renumbering after an eviction, or a failed open
    in `createAndWriteHelper` only means the line is dropped.
  - Only a failed reopen in `rotate` throws.
- **Every visible name is scanned.** `getDirList` drops only names that start
  with a dot. Files outside the `app_` scheme take part in sorting, renaming
  and deletion (`Scenarios.ForeignFileJoinsRotation`).
- **Modification-time ties can lose a file.** When two files share a
  modification time, the sort may leave them in either order. With the wrong
  order, `renameAllFiles` moves one file onto the other
  (`Scenarios.TiedTimesLoseAFile`). To stay clear of this, the scheme lemmas
  need the clock to be strictly past a full newest file, since that is when a
  file is started. For appends to a file with room, the same second is
  enough (`NamingScheme.ClockAhead`, `Scenarios.FiveByTen`).
- **Extra files are never cut back.** A directory that already holds more than
  `_number` visible files keeps that many. When every file is full, an
  eviction unlinks one file and creates one (`Rotation.RotateEvicts`), so the
  count never grows, but it never falls to `_number` either. So the bound of
  `_number` files holds only from a directory that starts at or below it,
  which is what `WriteScheme`'s invariant assumes.

## Model

| member | source | states |
|---|---|---|
| `Naming.FileNameRoundTrip` | logrotate.cpp:81-84 | The index can be read back out of `toFileName(n)`: parsing the name gives `n`. |
| `Naming.ParseFileNameInverse` | logrotate.cpp:81-84 | Every name the parser accepts is `toFileName` of the index it reads, so the managed names are exactly the images of `toFileName`. |
| `Naming.FileNameInjective` | logrotate.cpp:81-84 | Two indices with the same file name are equal. |
| `Naming.FileName` | logrotate.cpp:81-84 | A managed name never starts with a dot, so the scan never skips one. |
| `Naming.FilePath` | logrotate.cpp:99-102 | `toFilePath(fname)` is a path inside the directory from which `fname` can be recovered. |
| `Naming.NameInDirInverse` | logrotate.cpp:99-102 | Every path inside the directory is `toFilePath` of the name it denotes. |
| `Naming.NumberedPath` | logrotate.cpp:86-97 | `toFilePath(number)` equals `toFilePath(toFileName(number))` and denotes `toFileName(number)`. |
| `Directory.ToInt32` | logrotate.cpp:111 | `static_cast<int>` gives a value in the 32-bit range that is congruent to its argument modulo 2^32, and is the identity on that range. |
| `Directory.SizeCheckAsWritten` | logrotate.cpp:111-115 | The size test as written: never NO_EXISTS; BAD_SIZE exactly when the truncated size reaches `_maxSize`. |
| `Directory.TruncatedSizeLooksWritable` | logrotate.cpp:111 | A file of 2 GiB up to 4 GiB is over any 32-bit `_maxSize`, yet the test as written calls it NO_ERROR. |
| `Directory.SizeCheck` | logrotate.cpp:111-115 | The intended size test: BAD_SIZE exactly when the size reaches `_maxSize`, so the limit itself counts as full. |
| `Directory.SizeCheckAgreesBelow2GiB` | logrotate.cpp:111 | Below 2 GiB the test as written and the intended test agree. |
| `Directory.Stat` | logrotate.cpp:106-107 | `stat` succeeds exactly on a path `_path/name` whose name is in the directory, and reports that file's size and time. |
| `Directory.IsFileOk` | logrotate.cpp:104-116 | NO_EXISTS exactly when `stat` fails; BAD_SIZE exactly when the file exists with size at least `_maxSize`; NO_ERROR exactly when it exists with size below `_maxSize`. It uses the corrected size test (see Left out). |
| `Directory.Move` | logrotate.cpp:151 | A successful rename removes the source and gives the destination the source's contents, replacing any old destination; every other file is untouched. |
| `Directory.Rename` | logrotate.cpp:151 | `rename` succeeds exactly when both paths lie in the directory, the source exists and the system does not refuse the pair; it then moves the file. |
| `Directory.Unlink` | logrotate.cpp:121 | `unlink` succeeds exactly when the file exists and the system does not refuse; then only that name is gone and every other file is untouched. |
| `Directory.OpenForAppend` | logrotate.cpp:127 | Opening for append succeeds exactly on a path in the directory that the system does not refuse. It adds the name if missing, as an empty file stamped with the clock, and changes no existing file. |
| `Directory.AppendTo` | logrotate.cpp:218 | Writing through the stream grows the file it is attached to and stamps it with the clock; no other file changes and no name appears or disappears. |
| `Scan.MtimeOf` | logrotate.cpp:63-64 | The time recorded for a name is that file's modification time, or 0 when `stat` fails and the zeroed buffer is kept. |
| `Scan.DirList` | logrotate.cpp:53-79 | The scan keeps at most the names enumerated. Each entry is visible, was enumerated, and carries its `stat` modification time, or 0 when `stat` fails. Every visible enumerated name is kept. |
| `Scan.DirListAppend` | logrotate.cpp:59-73 | The scan keeps enumeration order: scanning two runs of names gives the two scans one after the other. |
| `Scan.DirListCounts` | logrotate.cpp:59-68 | No entry occurs more often in the scan than its name occurs in the enumeration. |
| `Scan.SortByMtime` | logrotate.cpp:214 | The sort of `writeImpl` returns a permutation of the scan in non-increasing modification time. |
| `Rotation.ConfigError` | logrotate.cpp:26-32 | Construction is refused exactly when `vNumber < 1` or `vMaxSize < 1`, with the file-count message taking precedence. |
| `Rotation.OpenStream` | logrotate.cpp:127 | The open, as intended (see Findings). `_currentFilePath` is untouched and true is returned exactly when the stream ends up open. That happens exactly when the path lies in the directory and is not refused. The stream then writes to that path, and its file exists with no other file changed. A failed open changes no file. |
| `Rotation.CreateSpec` | logrotate.cpp:124-133 | `createAndWriteHelper`: `_currentFilePath` becomes `toFilePath(number)`; true exactly when its open succeeds; then the stream writes there, and the directory gains exactly `toFileName(number)`. Every existing file keeps its size and time, and a missing one appears empty, stamped with the clock; otherwise false, no file changes and the stream is closed. |
| `Rotation.AppendSpec` | logrotate.cpp:218-224 | `<< text << std::endl`: true exactly when the write does not fail. On success the file the stream writes to grows by the text and newline and no other size changes; on failure the bad bit is set and no file changes. No name appears or disappears. |
| `Rotation.RenumberFrom` | logrotate.cpp:146-157 | From step t on, the loop ends having done between t and all renames, keeps the list's length, and reports success exactly when it did them all. |
| `Rotation.Renumber` | logrotate.cpp:144-160 | `renameAllFiles` keeps the list's length and returns true exactly when every rename was done. |
| `Rotation.RenumberFromOutcome` | logrotate.cpp:146-157 | From any step on, the loop stops at the first failing rename or runs to the end. The directory then reflects exactly the renames done so far, and the list has exactly those entries renamed. |
| `Rotation.RenumberOutcome` | logrotate.cpp:144-160 | `renameAllFiles` succeeds exactly when all renames do. Entry `i` ends up named `toFileName(n-1-i)`, mtimes are unchanged, and on failure the later entries keep their names, with no rollback. |
| `Rotation.RenumberSucceeds` | logrotate.cpp:146-159 | When the system refuses none of the loop's own renames and each source is present at its turn, the whole renumbering succeeds. |
| `Rotation.RenameOfPresent` | logrotate.cpp:151 | A rename of a present file whose path pair the system does not refuse moves that file. |
| `Rotation.ListRenameStep` | logrotate.cpp:156 | Writing the new name into the list keeps "the oldest t entries are renamed, the rest untouched" true for t+1. |
| `Rotation.RotateFrom` | logrotate.cpp:162-209 | From any entry on, `rotate` returns true only with a healthy open stream. When it throws, the stream is closed. When it returns false, the stream is as it was or closed. |
| `Rotation.Rotate` | logrotate.cpp:162-209 | The same for the whole list. |
| `Rotation.RotateSkipsFull` | logrotate.cpp:164-190 | `rotate` passes over full entries other than the last and carries on at the next one. |
| `Rotation.RotateStopsAtMissing` | logrotate.cpp:202-204 | At a missing file, with all newer entries full, `rotate` returns false and changes nothing. |
| `Rotation.RotateReusesWritable` | logrotate.cpp:192-200 | At the first writable entry, `rotate` reopens it for append and returns true without touching `_currentFilePath`; when that open fails it throws "Failed to open file" plus the path. |
| `Rotation.RotateWithRoom` | logrotate.cpp:172-176 | All entries full and count below `_number`: nothing is unlinked; renaming runs with its result ignored; `app_<count>` becomes current, is created and opened; false is returned only when that open fails. |
| `Rotation.RotateEvicts` | logrotate.cpp:177-188 | All entries full and count at least `_number`: a failed unlink returns false and changes nothing. Otherwise the oldest is gone and the rest are renamed. A failed renaming returns false and creates nothing. A successful one makes `app_<count-1>` current and opens it; when that open fails, false is returned with the renamed directory and a closed stream. |
| `Rotation.WriteSpec` | logrotate.cpp:211-227 | `writeImpl` reports the line written only with a healthy open stream and a write that did not fail; when it throws, the stream is closed; a failed write on an open stream sets its bad bit or leaves the stream as it was. |
| `Rotation.WriteToEmptyScan` | logrotate.cpp:216-219 | On an empty scan, `app_0` becomes current. The line is written exactly when its open and the write succeed, and then `app_0` holds its old size plus the line. |
| `Rotation.WriteRotates` | logrotate.cpp:222-225 | With a non-empty scan and no healthy stream on a writable current path, `rotate` runs on the sorted scan. When it does not return true, its state and outcome are `writeImpl`'s own, and nothing is appended. When it does, the line is appended through the stream it left. |
| `Rotation.WriteUsesCachedStream` | logrotate.cpp:220-221 | With a healthy open stream on a writable current path, no file is created, renamed or removed, and the line goes to the stream's file unless the write fails. |
| `LogRotate.Rotator.constructor` | logrotate.cpp:19-25 | The arguments are stored unchanged, `_currentFilePath` is empty and the stream is closed. |
| `LogRotate.Rotator.New` | logrotate.cpp:19-33 | A bad count or size gives the constructor's error message and no object; otherwise a fresh writer with the arguments stored and the initial state. |
| `LogRotate.Rotator.RenamePath` | logrotate.cpp:151 | The rename is applied to the directory exactly when it succeeds. |
| `LogRotate.Rotator.Remove` | logrotate.cpp:118-122 | `remove` succeeds exactly when unlink does; then the file existed and is the only one gone; otherwise nothing changes. |
| `LogRotate.Rotator.OpenAppend` | logrotate.cpp:127 | An open for append creates a missing file and attaches the stream; a failed open leaves the directory alone and the stream closed. |
| `LogRotate.Rotator.AppendLine` | logrotate.cpp:218 | Writing the line appends its bytes and the newline, or sets the stream's bad bit when the write fails. |
| `LogRotate.Rotator.CreateAndWriteHelper` | logrotate.cpp:124-133 | `_currentFilePath` becomes `toFilePath(number)`, which is then opened; the result is true exactly when the open succeeds. |
| `LogRotate.Rotator.GetDirList` | logrotate.cpp:53-79 | The accumulation loop returns exactly the scan `Scan.DirList` of the enumerated names. |
| `LogRotate.Rotator.RenameAllFiles` | logrotate.cpp:144-160 | The two-counter loop leaves the directory, the list and the result of `Rotation.RenumberOutcome`, which includes lengths, mtimes and, on success, the names `toFileName(n-1-i)`. |
| `LogRotate.Rotator.Rotate` | logrotate.cpp:162-209 | The loop over the list leaves exactly the state and result of `Rotation.Rotate`, whose branches the `Rotation.Rotate*` lemmas describe. |
| `LogRotate.Rotator.WriteImpl` | logrotate.cpp:211-227 | Scan, sort and dispatch leave exactly the state and outcome of the `writeImpl` specification. |
| `LogRotate.Rotator.Write` | logrotate.cpp:37-40 | `Write` is `writeImpl` of the text. |
| `LogRotate.Rotator.DateWrite` | logrotate.cpp:42-51 | `DateWrite` is `writeImpl` of the timestamp prefix followed by the text. |
| `NamingScheme.FileNames` | logrotate.cpp:81-84 | The set of names `app_0` .. `app_{n-1}` holds each of them and nothing else. |
| `NamingScheme.FileNamesCount` | logrotate.cpp:81-84 | There are exactly n such names. |
| `NamingScheme.FileNamesDiffer` | logrotate.cpp:81-84 | Different indices give different names. |
| `NamingScheme.NewestFirst` | logrotate.cpp:214 | The newest-first list of a numbered directory has length n, and position j holds `app_{n-1-j}` with its mtime. |
| `NamingScheme.SortedUnique` | logrotate.cpp:214 | Two sorted lists with the same elements, one with strictly decreasing times and no repeats, are equal, so the sort has only one possible result there. |
| `NamingScheme.Visible` | logrotate.cpp:60-61 | The visible names of the directory are exactly those in it that do not start with a dot. |
| `NamingScheme.ScanCountsOne` | logrotate.cpp:59-68 | When `readdir` yields each visible file once, no entry occurs twice in the scan, whatever dot names it also yields. |
| `NamingScheme.ScanIsNewestFirst` | logrotate.cpp:213-214 | In the scheme, whatever order `readdir` uses and whatever dot names (`.`, `..`, hidden files) it yields, the sorted scan is `app_{n-1}` down to `app_0`. |
| `NamingScheme.RenumberIdentity` | logrotate.cpp:173-176 | In the scheme, `renameAllFiles` on the sorted scan renames every file onto itself: the directory is unchanged and the list keeps n entries. |
| `NamingScheme.Survivors` | logrotate.cpp:181 | After `pop_back`, the list is the n-1 newest files, and step t of the renumbering takes `app_{t+1}`. |
| `NamingScheme.EvictionShifts` | logrotate.cpp:146-156 | After `app_0` is unlinked and t renames are done, index t is vacant, each lower index holds the file from one index up, and higher indices are untouched. |
| `NamingScheme.EvictionRenamesAreSafe` | logrotate.cpp:146-156 | After eviction from a full scheme, step t renames the present `app_{t+1}` onto the vacant `app_t`, and no entry not yet renamed is named `app_t`: no rename destroys a file. |
| `NamingScheme.EvictionRenumbers` | logrotate.cpp:178-183 | After eviction the renumbering succeeds, keeps n-1 entries, and leaves each survivor one index lower. |
| `NamingScheme.AppendKeepsScheme` | logrotate.cpp:220-221 | Appending to the newest file keeps the scheme when the clock is not behind that file, and strictly ahead of it when it is full. |
| `NamingScheme.NewFileExtendsScheme` | logrotate.cpp:172-176 | Creating `app_n` after a full `app_{n-1}`, stamped after it, gives the scheme with n+1 files. |
| `NamingScheme.EvictionKeepsScheme` | logrotate.cpp:177-183 | Shifting every survivor down one index and writing into a new `app_{n-1}` keeps the scheme with n files. |
| `WriteScheme.WriteFirstFile` | logrotate.cpp:216-219 | A write to a directory without visible files adds `app_0` holding the text and newline, opened and current, and changes nothing else; the scheme now has one file. |
| `WriteScheme.SortedScan` | logrotate.cpp:213-214 | The sorted scan of a coherent writer's directory is `app_{n-1}` down to `app_0`. |
| `WriteScheme.RotateReopensNewest` | logrotate.cpp:192-199 | When the newest file has room, `rotate` reopens it for append and keeps `_currentFilePath`. |
| `WriteScheme.WriteAppendsToNewest` | logrotate.cpp:211-226 | While the newest file has room, the text and newline are appended to it, no other file changes, and the scheme and count stay. |
| `WriteScheme.RotateCreatesNext` | logrotate.cpp:172-176 | With every file full and room left, `rotate` creates an empty `app_<count>`, makes it current and opens it. |
| `WriteScheme.WriteStartsNewFile` | logrotate.cpp:211-226 | With every file full and room left, the write creates `app_<count>` holding exactly the text and newline, and the scheme grows by one. |
| `WriteScheme.RotateEvictsOldest` | logrotate.cpp:177-183 | With every file full and none left to spare, `rotate` deletes `app_0`, moves each survivor one index down and creates an empty, current `app_<count-1>`. Every hidden file keeps its size and time. |
| `WriteScheme.WriteEvictsOldest` | logrotate.cpp:211-226 | With every file full and none left to spare, the write evicts `app_0`, shifts the rest down and writes into a new `app_<count-1>`; the count stays at `_number`, and every hidden file keeps its size and time. |
| `WriteScheme.WriteKeepsScheme` | logrotate.cpp:211-227 | Every write that meets no failure succeeds and keeps the scheme. The newest file is stamped, and the number of visible files after the write is between 1 and `_number`. |
| `Scenarios.FiveByTen` | logrotate.cpp:211-227 | Five files of ten bytes, with `readdir` yielding `.` and `..` too: `Write("test")` creates `app_0` of 5 bytes; `DateWrite("lorem")`, possibly in the same second, appends to it; the next write creates `app_1`. |
| `Scenarios.SingleFileEvicts` | logrotate.cpp:177-183 | With one file allowed and `app_0` full, the write leaves exactly one `app_0`, holding only the new line. |
| `Reopen.OpenAsWritten` | logrotate.cpp:127 | The library's open: on an open stream it changes no file, keeps the stream on its old file and sets failbit. On a closed one it succeeds exactly when the path is in the directory and not refused, and then clears every bit. |
| `Reopen.CreateAsWritten` | logrotate.cpp:124-133 | `createAndWriteHelper` as written: `_currentFilePath` becomes `toFilePath(number)`, and the result is `!bad()` after the library's open. |
| `Reopen.ReuseAsWritten` | logrotate.cpp:192-199 | `rotate`'s reopen of a writable file as written: true exactly when the stream is open afterwards, otherwise it throws "Failed to open file " followed by the path. |
| `Reopen.CachedAsWritten` | logrotate.cpp:220 | The cached-stream test of `writeImpl`: open, not bad, and the current path NO_ERROR. Failbit is not consulted, so the test answers as it would with failbit cleared. |
| `Reopen.InsertAsWritten` | logrotate.cpp:218-224 | The library's insertion: a file changes only through an open stream with neither failbit nor badbit set and a write that does not fail. |
| `Reopen.AgreeOnClosedStream` | logrotate.cpp:127 | On a closed stream the library's open and the model's `Rotation.OpenStream` leave the same state. |
| `Reopen.HelperOnOpenStreamLosesLine` | logrotate.cpp:124-133 | On an open, healthy stream `createAndWriteHelper` as written returns true and points `_currentFilePath` at the new file. Yet no file is created, the stream keeps its old file with failbit set, and the next line is written nowhere. |
| `Reopen.ReuseOnOpenStreamLosesLine` | logrotate.cpp:192-199 | On an open stream, `rotate`'s reopen as written throws nothing and returns true, yet failbit is set and the next line is written nowhere. |
| `Reopen.FailbitIsSticky` | logrotate.cpp:220-224 | Once failbit is set, no insertion writes and the cached-stream test still passes on a writable path. Neither reopen clears the bit. |
| `Reopen.CorrectedHelperWritesLine` | logrotate.cpp:124-133 | The intended helper moves the stream to the new file whatever it was attached to; the new file is created and receives exactly the line. |
| `Reopen.CorrectedReuseWritesLine` | logrotate.cpp:192-199 | The intended reopen moves the stream to the writable file, and the line is appended to it. |
| `Scenarios.TiedTimesLoseAFile` | logrotate.cpp:144-160 | Two files with one mtime are sorted as `app_0, app_1`. Every rename then succeeds, yet only one file remains and the original `app_0` is gone. |
| `Scenarios.ForeignFileJoinsRotation` | logrotate.cpp:58-68 | A full `notes.txt` alone in the directory is renamed to `app_0`, and `app_1` is created for the text. |

## Left out

- System calls: `opendir`, `readdir`, `stat`, `unlink`, `rename` and the `std::ofstream` state bits are modelled only by their effect on the directory map. Their success is an input.
- Re-opening an already open stream: in C++ this fails and leaves the stream on its old file with failbit set (see Findings). Outside the `Reopen` module the model opens the new path, and the writer lemmas describe that corrected writer.
- A failed open: outside `Reopen` the model closes the stream and has no failbit. `createAndWriteHelper`'s `bad()` test is modelled as "the open succeeded".
- The stream is identified by the path it was opened on. The program's stream stays attached to the opened file when a rename moves it. After a failed renumbering the model's next append goes to whatever file now holds that path.
- `LogRotate.Rotator.DateWrite`: the wall clock, `localtime` and `put_time` formatting are left out. The formatted stamp is a parameter.
- The `std::bad_alloc` branch of `getDirList` is left out, because it only happens on memory exhaustion. `opendir` failing is the same as an empty enumeration.
- `Scan.SortByMtime`: `std::sort` is not stable. The model fixes one order, a stable insertion sort, for entries with equal times. No lemma of the naming scheme depends on that choice: uniqueness is proved from sortedness and permutation alone.
- Console output (`std::cout`, `std::cerr`) and `printAll` are left out, because they do not affect state.
- `main.cpp` is left out: it is a demo entry point.
- Concurrency and other processes writing the directory are left out.
- The model does not capture paths naming the same file, or a directory component that is not `_path`.
- Widths: `std::size_t` to `int` conversions of list sizes and indices are unbounded in the model. File sizes are counted in characters, one byte each, plus one for the newline.
- `Directory.IsFileOk`: the rotator and every lemma about it classify files with the corrected size test `SizeCheck`, not the 32-bit cast of logrotate.cpp:111. The cast is modelled in `SizeCheckAsWritten`. The two agree on every file below 2^31 bytes (`SizeCheckAgreesBelow2GiB`). Files of 2^31 bytes or more are left to Findings.
- The `static_cast` of the file size is the only width the model keeps exactly (see Findings).

## Findings

| source | as written | input that shows it | evidently intended | confidence | as-written member | corrected member |
|---|---|---|---|---|---|---|
| logrotate.cpp:111 | `isFileOk` compares `static_cast<int>(st_size)` with `_maxSize`. The cast keeps the size modulo 2^32, so a size from 2^31 up to 2^32 becomes negative | a file of 2147483648 bytes with `_maxSize` 10 is classified NO_ERROR and keeps being appended to | a file of at least `_maxSize` bytes is BAD_SIZE whatever its size | not executed | `Directory.SizeCheckAsWritten` (`Directory.TruncatedSizeLooksWritable`) | `Directory.SizeCheck` |
| logrotate.cpp:127 | `createAndWriteHelper` at line 127 and `rotate` at line 193 both reopen the cached stream with `open` while it is still open; the library then fails, sets failbit and keeps the old file, but the helper tests only `bad()` and `rotate` only `is_open()` | five files of ten bytes: after `Write("test")` and `DateWrite("lorem")` fill `app_0`, the third write calls `createAndWriteHelper(1)`, which returns true while `app_1` is never created and the line is dropped; every later line is dropped too, since failbit never clears. A writer started on a directory whose newest file has room loses its second and every later line in `rotate`'s reopen | close the stream before reopening it, so it moves to the new file | not executed | `Reopen.HelperOnOpenStreamLosesLine` (`Reopen.ReuseOnOpenStreamLosesLine`, `Reopen.FailbitIsSticky`) | `Rotation.OpenStream` (`Reopen.CorrectedHelperWritesLine`, `Reopen.CorrectedReuseWritesLine`) |
