# Seafile client file browser: transfer tasks, task registry, file cache and navigation

This project models, in Dafny, the sequential state logic of the Seafile
desktop client's file browser (`src/filebrowser`):

- **Network transfer tasks** (`network/task.cpp`, `network/task.h`). A
  `SeafileNetworkTask` is a status machine: Fresh → Prefetching
  (→ Redirecting ↺) → Prefetched → Processing → Finished or Aborted, with a
  Canceling detour. The prefetch step reads the reply body as a quoted URL and
  strips its first and last character. A download that would overwrite an
  existing file looks for a free name `base (i).suffix` for i in 1..9.
  Downloads and uploads differ in their file effects on start, redirect,
  abort and finish. The model is `Task.NetworkTask` (the base class),
  `Task.DownloadTask` and `Task.UploadTask`. Each of the last two holds its
  base part as an object and shares a `Task.Disk`, the local file system:
  existing files with their contents, plus the paths that cannot be opened.
- **Request builder** (`network/task-builder.cpp`). It builds the API URL,
  path `api2/repos/<repo>/file/` (or `.../file/revision/`) with query items
  `p` and `commit_id`, and returns a new download task.
- **Task registry** (`file-network-mgr.h`, `file-network-mgr.cpp`).
  `FileNetworkManager` appends one `FileNetworkTask` mirror record per
  transfer and uses the record's list index as its handle. Each record
  follows its engine task's events; progress is ignored until the automatic
  redirect phase ends.
- **File cache** (`file-cache-mgr.cpp`). A persistent map from object id to
  local path, with length guards, an enabled flag and removal of stale rows.
  The SQLite table is a `map<string, string>`. `QFileInfo::isFile` is the
  set of paths that are regular files.
- **Navigation history** (`file-browser-dialog.cpp`). The current path, a
  backward and a forward stack (sequences whose last element is the top),
  and the enabled flags of the Back and Forward actions. Clicking a file
  registers a download with the manager.

Each imperative piece of the source is a class whose methods change its
fields and whose `ensures` state the whole new state. The pure parts are
functions with lemmas about them:

- the URL builders;
- the cache's lookup and store;
- `QString::arg` as used here;
- the collision search's specification;
- the navigation moves.

The main results proved:

- **Collision search.** The loop `FindAlternative` stops at the first free
  candidate. `Allocate` chooses the requested location when it is free,
  otherwise the smallest free candidate, and nothing exactly when all nine
  exist.
- **Task invariant.** Every task operation keeps `Valid`: a reply is in
  flight exactly in Prefetching, Processing and Canceling. Each slot's
  `ensures` give the status, URL, file and signal outcome for every branch.
- **File cache.** A stored path is what a later lookup returns while the
  file exists. A lookup is idempotent. Storing under one id leaves every
  other id's answer alone. An unusable cache neither answers nor changes.
  Every write keeps the table well formed.
- **Navigation history.** Back and Forward undo each other. Entering the
  directory on top of the forward stack is the same move as Forward. In
  every state reachable from the initial one, each action is enabled
  exactly when its stack is non-empty.

The header `network/task.h` and `network/task.cpp` come from different
revisions. Where they disagree, the model follows the implementation:

- The statuses are the union of both sets, because the header lacks
  PREFETCHING and PREFETCHED.
- The download's location field is the implementation's `file_location_`.
- The prefetch flag is a constructor parameter, as in the implementation.
- The base `onRedirected` is treated as non-virtual, because the header
  does not declare it.

These oddities of the implementation are kept as written:

- An upload task records its type as DOWNLOAD (`task.cpp:282`).
- Collision candidates glue the directory to the base name without a
  separator.
- The prefetch buffer is never cleared.
- When all nine candidates exist, the abort path removes candidate (9),
  which is an existing file the task did not create (see Findings).
- `closed_` in the file cache is never cleared, so `open` always retries and
  `db_->close()` in `close` is never reached; `close` still deletes `db_`
  and `db_path_` on every call, after which the manager is disposed.

## Model

| member | source | states |
|---|---|---|
| Text.WithTrailingSlash | src/filebrowser/file-network-mgr.cpp:14-15 | the result ends with '/'; it is the input when the input already ended with '/', otherwise the input plus exactly one '/' |
| Text.WithTrailingSlashIdempotent | src/filebrowser/file-network-mgr.cpp:14-15 | normalising twice equals normalising once, and adds at most one character |
| Text.EscapeAt | src/filebrowser/network/task.cpp:174 | an arg escape is '%', an optional 'L' and one digit, with a second digit read as part of the number; it is at least two characters long and numbered at most 99 |
| Text.Arg | src/filebrowser/network/task.cpp:174 | QString::arg returns a template that holds no escape unchanged |
| Text.ScanPlain | src/filebrowser/network/task.cpp:174 | escape-free text ahead of a '%' or of the end adds no escape to the scan and is copied unchanged |
| Text.ArgIdentity | src/filebrowser/network/task.cpp:174 | arg leaves a template without any %n or %Ln escape unchanged |
| Text.ArgFill | src/filebrowser/network/task-builder.cpp:17 | arg on `a + "%1" + b`, with a and b escape-free and b not continuing the number with a digit, gives `a + v + b` |
| Text.ArgFillsLowest | src/filebrowser/network/task.cpp:167-174 | only the lowest-numbered escape is filled: in `a + "%0" + b + "%1" + c` the %0 takes the argument and the %1 stays |
| Text.NoMarkerJoin | src/filebrowser/network/task.cpp:167-171 | joining two escape-free texts gives an escape-free text unless the join itself forms an escape |
| Text.Digit | src/filebrowser/network/task.cpp:174 | the decimal digit character of 0..9, as arg(int) prints it |
| Text.SplitAtLastSlash | src/filebrowser/network/task.cpp:167-168 | a path is its directory part plus its file name; the file name holds no '/'; the directory part is empty exactly when the path has no '/', and otherwise ends with '/' |
| Text.SplitAtFirstDot | src/filebrowser/network/task.cpp:169-171 | a name with a dot is its base name, '.', and its complete suffix; the base name holds no dot; without a dot the suffix is empty |
| Text.FileNameSplit | src/filebrowser/network/task.cpp:167-171 | QFileInfo::baseName and completeSuffix split the file name of a path at its first dot |
| Text.ContainingDir | src/filebrowser/file-network-mgr.cpp:75 | for a path that holds '/', the directory is the path without its last '/' and file name, or "/" for a file at the root; it is shorter than the path |
| Text.JoinDirName | src/filebrowser/network/task-builder.cpp:18 | a name without '/' appended to a directory ending in '/' splits back into that directory and that name |
| Text.AbsoluteFilePath | src/filebrowser/file-network-mgr.cpp:38 | QDir::absoluteFilePath keeps an absolute name and otherwise joins the directory and the name with exactly one '/', so a plain file name splits back into the directory (with its '/') and the name |
| Text.BeforeNul | src/filebrowser/network/task.cpp:130 | the bytes a C string holds: a NUL-free prefix of the input that stops only at a NUL byte or at the end |
| Text.Latin1 | src/filebrowser/network/task.cpp:130 | the QByteArray-to-QString conversion stops at the first NUL byte and maps each byte before it to the character of the same code |
| Task.DispositionShape | src/filebrowser/network/task.cpp:312-314 | arg on the template `form-data; name="%1"` gives the Content-Disposition value `form-data; name="` + the percent-encoded file name + `"` |
| Task.PrefetchTarget | src/filebrowser/network/task.cpp:130-136 | a prefetch body yields a URL exactly when it has more than 2 characters, and the URL is the body without its first and last character |
| Task.QuotedUrlRoundTrip | src/filebrowser/network/task.cpp:130-136 | a non-empty URL written between quotes is read back unchanged |
| Task.Candidate | src/filebrowser/network/task.cpp:167-174 | when the directory with the base name and the suffix hold no escape of their own, the i-th alternative is the directory glued to `base (i).suffix` |
| Task.CandidateParts | src/filebrowser/network/task.cpp:167-174 | arg fills the " (%1)." of a template whose other parts are escape-free with the index |
| Task.CandidateUserEscape | src/filebrowser/network/task.cpp:167-174 | when the base name holds a "%0" escape, the index replaces it and " (%1)." stays in the location |
| Task.FirstFree | src/filebrowser/network/task.cpp:173-177 | the first index from i whose candidate is free, or 10; every candidate before it exists |
| Task.FindAlternative | src/filebrowser/network/task.cpp:172-178 | the loop stops at the first free candidate, or at 10 when all of (1)..(9) exist, and its last tried name is that candidate, or (9) |
| Task.Allocate | src/filebrowser/network/task.cpp:164-185 | the chosen path never exists; it is the location when that is free; otherwise it is the smallest free candidate, and there is none exactly when all nine exist |
| Task.WrittenStartDisk | src/filebrowser/network/task.cpp:162-195 | as written, when the location and all nine candidates exist, candidate (9) existed and is gone afterwards; when a name is allocated, no existing file is lost or changed |
| Task.IntendedStartDisk | src/filebrowser/network/task.cpp:162-195 | the intended disk after startTask: no existing file is lost or changed, and the only new file is the allocated, openable one, empty |
| Task.AllocateFourth | src/filebrowser/network/task.cpp:164-185 | with the location and candidates (1)..(3) taken and (4) free, the download goes to (4) |
| Task.NetworkTask.constructor | src/filebrowser/network/task.cpp:12-34 | a new task is Fresh when the prefetch API is required and Prefetched otherwise, with no reply, an empty buffer and type UNKNOWN |
| Task.NetworkTask.Status | src/filebrowser/network/task.h:41 | returns the current status and changes nothing |
| Task.NetworkTask.GetUrl | src/filebrowser/network/task.h:43 | returns the current URL |
| Task.NetworkTask.SetUrl | src/filebrowser/network/task.h:44 | the URL becomes the argument, so a following GetUrl returns it |
| Task.NetworkTask.Cancel | src/filebrowser/network/task.h:47 | the public cancel slot changes nothing |
| Task.NetworkTask.OnCancel | src/filebrowser/network/task.cpp:84-92 | Canceling exactly when a reply is in flight and the status is not Error; otherwise the status is kept |
| Task.NetworkTask.StartPrefetchRequest | src/filebrowser/network/task.cpp:94-104 | only Fresh or Redirecting launch the prefetch and become Prefetching; every other status is unchanged |
| Task.NetworkTask.OnPrefetchProcessReady | src/filebrowser/network/task.cpp:106-110 | bytes are appended to the buffer only while Prefetching; the buffer is never cleared |
| Task.NetworkTask.Redirect | src/filebrowser/network/task.cpp:54-63 | status Redirecting, the URL replaced, the reply dropped |
| Task.NetworkTask.Abort | src/filebrowser/network/task.cpp:66-73 | status Aborted, no reply, the error recorded |
| Task.NetworkTask.OnStart | src/filebrowser/network/task.cpp:75-82 | from Fresh the prefetch starts; from Prefetched prefetchFinished is signalled; any other status does nothing |
| Task.NetworkTask.OnPrefetchFinished | src/filebrowser/network/task.cpp:112-143 | Canceling or a reply error signals prefetchAborted; a redirect target sets the resolved URL and restarts the prefetch; a body of at most 2 characters aborts; otherwise the URL is the unquoted body, the status Prefetched, and prefetchFinished is signalled |
| Task.DownloadTask.constructor | src/filebrowser/network/task.h:70-74 | type DOWNLOAD, no file, the given name and location; the prefetch flag defaults to true |
| Task.DownloadTask.FileName | src/filebrowser/network/task.h:77 | returns the file name |
| Task.DownloadTask.SetFilename | src/filebrowser/network/task.h:78 | the file name becomes the argument, so a following FileName returns it |
| Task.DownloadTask.DownloadLocation | src/filebrowser/network/task.h:79 | returns the download location |
| Task.DownloadTask.SetDownloadLocation | src/filebrowser/network/task.h:80-82 | the location becomes the argument, so a following DownloadLocation returns it |
| Task.DownloadTask.OnStart | src/filebrowser/network/task.cpp:75-82 | from Fresh the prefetch starts; from Prefetched the whole outcome of StartTask follows (`Started`); otherwise nothing changes |
| Task.DownloadTask.OnCancel | src/filebrowser/network/task.cpp:84-92 | as the base cancel, keeping the download's invariant |
| Task.DownloadTask.OnPrefetchProcessReady | src/filebrowser/network/task.cpp:106-110 | as the base buffer append |
| Task.DownloadTask.OnPrefetchFinished | src/filebrowser/network/task.cpp:112-143 | prefetchAborted leads to an abort with UNKNOWN_ERROR that closes and removes any open file and keeps name and location; a redirect restarts the prefetch; prefetchFinished sets the unquoted body as URL and then has the whole outcome of StartTask |
| Task.DownloadTask.StartedDisk | src/filebrowser/network/task.cpp:162-195 | the disk after a StartTask outcome is WrittenStartDisk of the disk before |
| Task.DownloadTask.StartTask | src/filebrowser/network/task.cpp:162-195 | `Started`: with no free name, abort with FILE_ERROR and candidate (9) removed; with an unopenable name, abort with FILE_ERROR and the disk unchanged; otherwise the chosen file is created empty and opened, becomes the location, started() is emitted and the transfer runs |
| Task.DownloadTask.StartRequest | src/filebrowser/network/task.cpp:197-208 | only Prefetched or Redirecting launch the transfer and become Processing; every other status is unchanged |
| Task.DownloadTask.HttpUpdateProgress | src/filebrowser/network/task.cpp:210-213 | forwards the processed and total counts unchanged |
| Task.DownloadTask.HttpProcessReady | src/filebrowser/network/task.cpp:215-220 | received bytes are appended to the open file, and nothing else changes |
| Task.DownloadTask.HttpFinished | src/filebrowser/network/task.cpp:222-250 | Canceling aborts with NO_ERROR before any other check; a reply error aborts with NETWORK_ERROR; both remove the file; a redirect resolves the URL, truncates the file and restarts; otherwise Finished with finished(location); the URL changes only on a redirect, and the file name and location never |
| Task.DownloadTask.OnRedirected | src/filebrowser/network/task.cpp:252-259 | new URL, the file reopened and truncated to length 0, redirected() emitted, the transfer restarted |
| Task.DownloadTask.OnAborted | src/filebrowser/network/task.cpp:261-271 | status Aborted with the given error (UNKNOWN_ERROR by default); the partial file is closed and removed; aborted() is emitted |
| Task.UploadTask.constructor | src/filebrowser/network/task.cpp:273-285 | the type is recorded as DOWNLOAD; no file and no multipart body |
| Task.UploadTask.OnStart | src/filebrowser/network/task.cpp:75-82 | from Fresh the prefetch starts; from Prefetched the whole outcome of StartTask follows (`Started`); otherwise nothing changes |
| Task.UploadTask.OnCancel | src/filebrowser/network/task.cpp:84-92 | as the base cancel, keeping the upload's invariant |
| Task.UploadTask.OnPrefetchProcessReady | src/filebrowser/network/task.cpp:106-110 | as the base buffer append |
| Task.UploadTask.OnPrefetchFinished | src/filebrowser/network/task.cpp:112-143 | prefetchAborted leads to an abort with UNKNOWN_ERROR that closes the source and keeps name, location and body; a redirect restarts the prefetch; prefetchFinished sets the unquoted body as URL and then has the whole outcome of StartTask |
| Task.UploadTask.StartTask | src/filebrowser/network/task.cpp:291-320 | `Started`: a missing or unopenable source aborts with FILE_ERROR; only after both checks pass is the one-part body built, started() emitted and the request sent |
| Task.UploadTask.StartRequest | src/filebrowser/network/task.cpp:322-334 | the upload runs only from Prefetched or Redirecting and only when its multipart body exists; otherwise nothing changes |
| Task.UploadTask.HttpUpdateProgress | src/filebrowser/network/task.cpp:336-339 | forwards the processed and total counts unchanged |
| Task.UploadTask.HttpFinished | src/filebrowser/network/task.cpp:341-369 | Canceling aborts with NO_ERROR; a reply error aborts with NETWORK_ERROR; a redirect resolves the URL and restarts; otherwise Finished with finished(source path); the source is never removed; the URL changes only on a redirect, and the file name, location and parts never |
| Task.UploadTask.OnRedirected | src/filebrowser/network/task.cpp:371-377 | new URL, redirected() emitted, the upload restarted |
| Task.UploadTask.OnAborted | src/filebrowser/network/task.cpp:379-388 | status Aborted with the given error; the source is closed but stays on disk; aborted() is emitted |
| TaskBuilder.FillRepoId | src/filebrowser/network/task-builder.cpp:17 | filling the repo id into an API template whose tail holds no '%' and starts with no digit puts it right after "api2/repos/" |
| TaskBuilder.FileUrlPath | src/filebrowser/network/task-builder.cpp:17 | the plain path is "api2/repos/" + repo id + "/file/" |
| TaskBuilder.RevisionUrlPath | src/filebrowser/network/task-builder.cpp:30 | the revision path is "api2/repos/" + repo id + "/file/revision/" |
| TaskBuilder.DownloadUrl | src/filebrowser/network/task-builder.cpp:17-18 | the URL is on the account's server, at the plain path, with the single query item p = path + filename |
| TaskBuilder.RevisionDownloadUrl | src/filebrowser/network/task-builder.cpp:30-33 | the URL is at the revision path with query items p = path + filename, then commit_id = revision |
| TaskBuilder.RevisionExtendsPlain | src/filebrowser/network/task-builder.cpp:17-33 | the revision URL's path is the plain path + "revision/", and its query is the plain query followed by commit_id |
| TaskBuilder.CreateDownloadTask | src/filebrowser/network/task-builder.cpp:10-20 | a fresh download task with the built URL, the account token, the file name and the location, starting Fresh |
| TaskBuilder.CreateRevisionDownloadTask | src/filebrowser/network/task-builder.cpp:22-35 | the same, with the revision URL |
| FileNetworkMgr.FileNetworkTask.constructor | src/filebrowser/file-network-mgr.h:36-48 | handle -1, zero counters, status and type UNKNOWN, automatic redirect on, real path = location + "/" + name |
| FileNetworkMgr.FileNetworkTask.OnRun | src/filebrowser/file-network-mgr.h:98-102 | run() is forwarded only when the handle matches |
| FileNetworkMgr.FileNetworkTask.OnCancel | src/filebrowser/file-network-mgr.h:104-108 | status Canceling, cancel() forwarded |
| FileNetworkMgr.FileNetworkTask.OnStarted | src/filebrowser/file-network-mgr.h:110-114 | status Processing, started() forwarded |
| FileNetworkMgr.FileNetworkTask.OnRedirected | src/filebrowser/file-network-mgr.h:116-122 | a false flag clears automatic redirect and forwards redirected(); a true flag changes nothing |
| FileNetworkMgr.FileNetworkTask.OnUpdateProgress | src/filebrowser/file-network-mgr.h:124-133 | ignored while automatic redirect is on; otherwise it stores exactly the given counts and forwards them |
| FileNetworkMgr.FileNetworkTask.OnAborted | src/filebrowser/file-network-mgr.h:135-139 | status Aborted, aborted() forwarded |
| FileNetworkMgr.FileNetworkTask.OnFinished | src/filebrowser/file-network-mgr.h:141-146 | status Finished, the real path replaced by the argument and forwarded |
| FileNetworkMgr.FileNetworkManager.constructor | src/filebrowser/file-network-mgr.cpp:10-18 | the cache path is the downloads path with a trailing '/' added only when missing; no records |
| FileNetworkMgr.FileNetworkManager.GetTask | src/filebrowser/file-network-mgr.h:75-77 | the record at the given index, which must exist |
| FileNetworkMgr.FileNetworkManager.AddTask | src/filebrowser/file-network-mgr.h:148-152 | appends at the end, keeps the earlier records and returns the new last index |
| FileNetworkMgr.FileNetworkManager.Register | src/filebrowser/file-network-mgr.cpp:39-65 | exactly one fresh record is appended; its handle is the previous count; it keeps repo id, path and name, is Fresh with the given type, and answers run(handle); the list stays Numbered (each handle is its index), so no earlier record answers the broadcast |
| FileNetworkMgr.FileNetworkManager.CreateDownloadTask | src/filebrowser/file-network-mgr.cpp:34-67 | one DOWNLOAD record located at the downloads directory joined with the file name, plus an engine task with the built URL and that location |
| FileNetworkMgr.FileNetworkManager.CreateUploadTask | src/filebrowser/file-network-mgr.cpp:70-104 | one UPLOAD record located at the directory that holds the uploaded file, not at the file itself |
| FileNetworkMgr.FileNetworkManager.Destroy | src/filebrowser/file-network-mgr.cpp:25-30 | records are removed from the back one at a time until none is left; the k-th removed is the k-th from the end |
| FileCache.Lookup | src/filebrowser/file-cache-mgr.cpp:71-103 | exactly ("", table) when the cache is disabled, the id is longer than 40 or no row exists; a row whose path is empty or not a regular file is removed and "" returned; otherwise the stored path, with the table unchanged |
| FileCache.Store | src/filebrowser/file-cache-mgr.cpp:105-131 | no change when disabled, for an id over 40 or a path over 255 characters; an empty or non-file path removes the row; otherwise the row is inserted or replaced; other rows never change |
| FileCache.StoreWellFormed | src/filebrowser/file-cache-mgr.cpp:105-131 | writes keep every row's id within 40 and its path non-empty and within 255 characters |
| FileCache.StoreThenLookup | src/filebrowser/file-cache-mgr.cpp:119-124 | after storing an existing file's path, a lookup returns it and changes nothing |
| FileCache.StoreOtherId | src/filebrowser/file-cache-mgr.cpp:105-131 | storing under one id does not change the answer for another |
| FileCache.LookupIdempotent | src/filebrowser/file-cache-mgr.cpp:71-103 | a repeated lookup answers the same and changes nothing more |
| FileCache.UnusableInert | src/filebrowser/file-cache-mgr.cpp:71-111 | once disabled, get returns "" and set changes nothing |
| FileCache.FileCacheManager.constructor | src/filebrowser/file-cache-mgr.cpp:16-21 | enabled, marked closed, the database not yet open |
| FileCache.FileCacheManager.Open | src/filebrowser/file-cache-mgr.cpp:32-46 | a failed open disables the cache for good; an open marked as open does nothing |
| FileCache.FileCacheManager.Close | src/filebrowser/file-cache-mgr.cpp:48-54 | the database is shut only when enabled and marked open; the database object and its path are deleted on every call, so the manager is disposed and Open, Get, Set, Remove and Close may no longer be called |
| FileCache.FileCacheManager.Remove | src/filebrowser/file-cache-mgr.cpp:133-144 | the row is deleted when the database is open, and a failing query changes nothing |
| FileCache.FileCacheManager.Get | src/filebrowser/file-cache-mgr.cpp:71-103 | the answer and the table are those of Lookup |
| FileCache.FileCacheManager.Set | src/filebrowser/file-cache-mgr.cpp:105-131 | the table is that of Store |
| FileBrowser.Initial | src/filebrowser/file-browser-dialog.cpp:39-41 | path "/", both stacks empty, both actions disabled, which is a consistent state |
| FileBrowser.Settle | src/filebrowser/file-browser-dialog.cpp:207-218 | if the forward top is the new path only it is popped, otherwise a non-empty forward stack is cleared; the Forward flag stays in step with the stack |
| FileBrowser.EnterDir | src/filebrowser/file-browser-dialog.cpp:195-221 | the path gains a '/' if missing, is pushed onto the backward stack and is extended by the directory name; Back is enabled; the forward stack is popped when its top is the new path and cleared otherwise; consistency is kept |
| FileBrowser.Back | src/filebrowser/file-browser-dialog.cpp:231-245 | a no-op on an empty backward stack; otherwise the current path goes onto the forward stack and the backward top becomes the path; consistency is kept |
| FileBrowser.Forward | src/filebrowser/file-browser-dialog.cpp:247-261 | the mirror image of Back |
| FileBrowser.Home | src/filebrowser/file-browser-dialog.cpp:263-285 | a no-op at "/"; otherwise the path is pushed onto the backward stack and becomes "/", with the Back flag untouched, and the forward stack is settled against "/" as on entering a directory; consistency is kept |
| FileBrowser.BackUndoesForward | src/filebrowser/file-browser-dialog.cpp:231-261 | Forward then Back restores path, both stacks and both flags |
| FileBrowser.ForwardUndoesBack | src/filebrowser/file-browser-dialog.cpp:231-261 | Back then Forward restores path, both stacks and both flags |
| FileBrowser.EnterDirMatchesForward | src/filebrowser/file-browser-dialog.cpp:195-261 | entering the directory on top of the forward stack from a path ending in '/' is the same move as Forward |
| FileBrowser.Step | src/filebrowser/file-browser-dialog.cpp:195-285 | every click keeps the state consistent |
| FileBrowser.ReplayConsistent | src/filebrowser/file-browser-dialog.cpp:195-285 | every state reachable from a newly opened dialog is consistent |
| FileBrowser.ReachableFlags | src/filebrowser/file-browser-dialog.cpp:201-268 | in every reachable state Back is enabled exactly when the backward stack is non-empty, and Forward exactly when the forward stack is |
| FileBrowser.FileBrowserDialog.constructor | src/filebrowser/file-browser-dialog.cpp:35-41 | the dialog starts in the initial navigation state |
| FileBrowser.FileBrowserDialog.SettleForward | src/filebrowser/file-browser-dialog.cpp:207-218 | the forward stack and flag become those of Settle |
| FileBrowser.FileBrowserDialog.OnDirClicked | src/filebrowser/file-browser-dialog.cpp:195-221 | the new state is EnterDir of the old one |
| FileBrowser.FileBrowserDialog.OnBackwardActionClicked | src/filebrowser/file-browser-dialog.cpp:231-245 | the new state is Back of the old one |
| FileBrowser.FileBrowserDialog.OnForwardActionClicked | src/filebrowser/file-browser-dialog.cpp:247-261 | the new state is Forward of the old one |
| FileBrowser.FileBrowserDialog.OnNavigateHomeActionClicked | src/filebrowser/file-browser-dialog.cpp:263-285 | the new state is Home of the old one |
| FileBrowser.RequestPath | src/filebrowser/file-browser-dialog.cpp:223-229 | the intended remote path of a clicked file: it splits back into the current directory, with its trailing '/', and the file name |
| FileBrowser.WrittenRequestNeedsSlash | src/filebrowser/file-browser-dialog.cpp:223-229 | the path onFileClicked actually requests, directory and name run together, equals the intended one exactly when the directory ends in '/' |
| FileBrowser.FileRequestAfterDescent | src/filebrowser/file-browser-dialog.cpp:195-229 | as written, after entering directory d from the root a clicked file is requested as "/" + d + name, whose file name is d + name |
| FileBrowser.FileBrowserDialog.OnFileClicked | src/filebrowser/file-browser-dialog.cpp:223-229 | one download record is registered for the file in the current directory and its handle returned; the record carries the repository, the current path unchanged, the file name and the cache location of the name; navigation is untouched |
| FileBrowser.FileBrowserDialog.OnDirentClicked | src/filebrowser/file-browser-dialog.cpp:186-193 | a directory entry navigates into it and registers nothing; any other entry registers one download of that name from the current path and repository, and leaves navigation alone |

## Findings

| source | as written | input that shows it | evidently intended | confidence | as-written member | corrected member |
|---|---|---|---|---|---|---|
| src/filebrowser/file-browser-dialog.cpp:223-229 | onDirClicked leaves the path without a trailing '/', and onFileClicked passes it to createDownloadTask, whose builder sends p = path + file name (`task-builder.cpp:18`) | from "/", enter directory "a", then click file "f.txt": the request asks for "/af.txt" | the file in the current directory, "/a/f.txt" | high; not executed | FileBrowser.WrittenRequestNeedsSlash | FileBrowser.RequestPath |
| src/filebrowser/network/task.cpp:162-195 | startTask leaves `file_` on candidate (9) when all nine candidates exist and calls onAborted, which removes `file_` (`task.cpp:261-271`) | file name "f.txt" resolved in the directory "/d", so the candidates are glued to it without '/': while the location and "/df (1).txt" .. "/df (9).txt" exist, "/df (9).txt" is deleted | an abort removes only a file the task created, so the disk is unchanged | high; not executed | Task.WrittenStartDisk | Task.IntendedStartDisk |

## Left out

- Network I/O is not modelled: QNetworkAccessManager, QNetworkReply reading and SSL error handling. A finished reply is its error flag and optional redirect target; body chunks are arguments.
- `QUrl::resolved` (reference resolution, section 5.2 of RFC 3986) and `QUrl::toPercentEncoding` (section 2.1 of RFC 3986) are function parameters. `Account::getAbsoluteUrl` is a URL value made of the server address and the path.
- The worker QThread, moveToThread and quit/wait are left out (concurrency). So is the signal/slot wiring: each slot is a method, and a signal emitted to another object is recorded in a signal list or returned (`PrefetchSignal`).
- Two of the manager's connections do not reach what they name. `file-network-mgr.cpp:53` connects the record's `start()`, a signal FileNetworkTask does not declare (it declares `run()`, `file-network-mgr.h:16-24`), so Qt refuses the connection and the record's run(num) starts nothing. No engine signal reaches the record's onRedirected, so `autoRedirect` stays true and FileNetworkMgr.FileNetworkTask.OnUpdateProgress drops every report. The model keeps each slot as written and leaves the wiring out.
- SQLite, the SQL text built with snprintf and its truncation are replaced by a map. So are the quoting of ids and paths, and the exceptions a query may throw. A query on a database that is not open fails and changes nothing.
- File I/O is abstracted: a file is present or absent with a byte sequence, and a set of paths cannot be opened. Flushing, closing with buffered data and partial writes are not modelled.
- QString lengths are counted in characters. The source counts UTF-16 code units, which differ outside the Basic Multilingual Plane.
- Task.DownloadTask.StartTask: `dir` is the absolute path of the directory of the file name. It is a parameter because it depends on the process's working directory.
- FileCache.FileCacheManager.Close: deleting `db_` is modelled as the manager becoming disposed; the connection state is left as it was, because no operation may run on a disposed manager.
- Text.Latin1: the conversion is taken to be Latin-1; Qt 4 decodes with `QTextCodec::codecForCStrings()` when one is installed; the application set-up that would install one is not part of this model.
- Text.AbsoluteFilePath: the directory is taken to be absolute and clean; `QDir::absoluteFilePath` also resolves a relative directory and removes "//", "." and "..".
- Task.UploadTask.HttpFinished: finished() carries the source's stored path rather than `QFileInfo::absoluteFilePath`, which resolves a relative path against the working directory.
- Task.UploadTask.OnRedirected: the `seek(0)` on the source is not modelled, because httpFinished has just closed the source and the seek has no effect on it.
- Text.Arg: escape digits are ASCII digits only, while `QChar::digitValue` also accepts the decimal digits of other scripts. A `%Ln` escape takes the same text as `%n`; a locale whose digits or group separators differ is not modelled.
- Text.ContainingDir: `QFileInfo::absolutePath` also resolves a relative path against the process's working directory and removes ".", ".." and doubled '/'. The model returns "." for a path without '/' and keeps those segments.
- FileNetworkMgr.FileNetworkManager.CreateUploadTask: the record's location is Text.ContainingDir of the uploaded file's path, so it is neither resolved against the working directory nor cleaned.
- Task.NetworkTask.OnCancel: `reply_->abort()` is taken to have no immediate effect. In Qt it emits finished() synchronously, before the status becomes Canceling, so the finished handler may run first and see the old status. The Canceling branch of HttpFinished and the Valid invariant rest on this assumption.
- The `reply_->deleteLater()` on a null reply is treated as a no-op. It happens when onAborted runs with no reply in flight (`task.cpp:71`) and after a finished prefetch (`task.cpp:140`).
- The per-task `SeafileNetworkRequest` copy of the URL (`req_`) is not tracked separately: it always equals the task's URL.
- The task destructors and the dialog's widgets, loading views, progress dialog, directory listing (DataManager) and `dirChanged` reloads are left out. They are user interface and remote listing.
- FileNetworkMgr.FileNetworkManager.CreateUploadTask: it creates no engine task. The builder has no upload overload (`task-builder.cpp` defines only the two download overloads).
- The manager's `file_cache_path_` member is not declared in `file-network-mgr.h`, and `createUploadTask` is not declared there either. The model follows `file-network-mgr.cpp`.
- The revision overload of the manager's `createDownloadTask` is declared in `file-network-mgr.h` but has no definition. Only the builder's revision overload is modelled.
