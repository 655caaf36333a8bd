# UpdateChecker, modelled in Dafny

A model of the decision logic of the Android library class
`com.cdph.app.UpdateChecker`. The library reads a JSON update log from a
configured URL, tells a registered listener when the remote version code is
higher than the installed one, downloads an update through the OS download
engine, and can hand the downloaded package to the installer. Everything
Android does on its behalf is an input here:

- the active network, as `Option<NetworkInfo>` (type and connected flag);
- the HTTP exchange, as a function `server: string -> Connection` from URL to
  a failure or to a status code and the sequence of `InputStream.read` results;
- the JSON reader, as a function from body text to a `NewUpdateInfo`, null or
  an exception;
- the download engine, as an `Engine` value: whether building or enqueueing
  the request throws, the rows that successive status queries return, the
  reported MIME type, and the exception that escapes `installApp` when the
  installer cannot be started;
- the file system, as the set of paths that exist, plus the app's external
  download directory;
- the installed version code, a Java `int` (`int32`).

Modules, one per part of the class:

- `Connectivity` (`ConnectivityReceiver.isConnected`): the gate, a pure function.
- `UpdateTask` (`TaskUpdateChecker`): the body-read loop (`ReadBody`), the
  background fetch (`FetchInBackground`, specified by `Fetched`) and the
  `onPostExecute` decision (`PostExecute`). The task's output is one
  `CheckOutcome`: listener notified (followed by the toast of the caught
  exception when the listener throws), "latest version" toast, `[ERROR]`
  toast or the toast of the caught exception.
- `DownloadTask` (`TaskDownloadUpdate`, `installApp`): the poll loop
  (`DownloadInBackground`, specified by `DownloadSpec`), and beside it the
  same task with its two path defects corrected (`DownloadSpecCorrected`).
  Its side effects are a trace of `Effect`s: delete, enqueue, poll, install
  request.
- `UpdateCheckerApi`: the static fields as one `SharedState` object, shared
  by every `UpdateChecker` and by the `ConnectivityReceiver`; the fluent
  setters; `runUpdateChecker`, `downloadUpdate` and `onReceive`.
- `JavaLang` and `Wrappers`: Java's `int`, exceptions with nullable
  messages, `null + "..."`, and `Option` for null references.

Java details the model keeps:

- `TaskUpdateChecker` records an exception with `errMsg += e.getMessage()`.
  Its `errMsg` starts as null, so the record is `"null" + message`. An
  exception is therefore recorded even when its message is null.
- `TaskDownloadUpdate` records an exception with `errMsg = e.getMessage()`.
  An exception without a message therefore leaves `errMsg` null, and no error
  toast is shown.
- A non-200 answer is not an error. The result stays null with nothing
  recorded. With a listener set, `onPostExecute` then dereferences the null
  result and ends in its catch.
- Without a listener, `onPostExecute` always shows the `[ERROR]` toast, even
  when nothing failed; the text is then `[ERROR]: null`.
- The version test is a strict `<` on `int`. An equal remote version gives
  "latest version".
- The download loop ends only on a SUCCESSFUL row, or when an empty cursor
  makes `getInt` throw. FAILED, PAUSED, PENDING and RUNNING keep it polling.
- `installApp` ignores its `mimeType` argument. The request always carries
  `application/vnd.android.package-archive`.

Behaviour the code does not have, and the model does not add: the receiver
reacts to every connectivity broadcast while the gate holds, not only to a
change from refused to permitted; the download loop does not stop on FAILED
or on cancellation; a non-200 status is not turned into a typed fetch error.

## Model

| member | source | states |
|---|---|---|
| `Connectivity.IsConnected` | cdph_updatechecker_lib/src/main/java/com/cdph/app/UpdateChecker.java:413-424 | With Wi-Fi-only on, true iff there is an active network that is Wi-Fi and connected. With it off, true iff there is an active network that is Wi-Fi or mobile and connected. |
| `Connectivity.AbsentNetworkRefused` | cdph_updatechecker_lib/src/main/java/com/cdph/app/UpdateChecker.java:417-423 | No active network is refused in both modes. |
| `Connectivity.MobileRefusedOnWifiOnly` | cdph_updatechecker_lib/src/main/java/com/cdph/app/UpdateChecker.java:417-419 | A mobile network is refused in Wi-Fi-only mode, connected or not. |
| `Connectivity.WifiOnlyIsStricter` | cdph_updatechecker_lib/src/main/java/com/cdph/app/UpdateChecker.java:417-423 | Whatever Wi-Fi-only mode permits, any-network mode permits too. |
| `Connectivity.DisconnectedRefused` | cdph_updatechecker_lib/src/main/java/com/cdph/app/UpdateChecker.java:421-423 | A network that is not connected is refused, whatever its type and the mode. |
| `UpdateTask.FirstFault` | cdph_updatechecker_lib/src/main/java/com/cdph/app/UpdateChecker.java:277-278 | The read loop meets no exception iff every read returns a chunk. |
| `UpdateTask.JoinedAppend` | cdph_updatechecker_lib/src/main/java/com/cdph/app/UpdateChecker.java:277-278 | The body of a split read sequence is the concatenation of the bodies of its parts, in order. |
| `UpdateTask.ReadBody` | cdph_updatechecker_lib/src/main/java/com/cdph/app/UpdateChecker.java:271-279 | The loop stops at the first failed read. When none fails, the text is the in-order concatenation of every chunk read before end of stream. |
| `UpdateTask.RecordError` | cdph_updatechecker_lib/src/main/java/com/cdph/app/UpdateChecker.java:286-289 | `errMsg += message` on a null `errMsg` gives "null" followed by the message, or "nullnull" for a null message. |
| `UpdateTask.Fetched` | cdph_updatechecker_lib/src/main/java/com/cdph/app/UpdateChecker.java:255-292 | Non-200: null result and no error. An info only comes from a 200 body read to its end, as the reader's result, with no error. Conversely, a complete 200 body whose reader returns gives the reader's info. The record is "null" followed by the message of the unreachable connection, the first failed read, the missing reader or the reader's exception, in that order of precedence. Nothing is recorded iff the answer is not 200, or the body was read to its end and the reader returned. |
| `UpdateTask.FetchInBackground` | cdph_updatechecker_lib/src/main/java/com/cdph/app/UpdateChecker.java:255-292 | Leaves exactly the result and `errMsg` that `Fetched` specifies. |
| `UpdateTask.PostExecute` | cdph_updatechecker_lib/src/main/java/com/cdph/app/UpdateChecker.java:299-313 | Notifies iff a listener is set, no error is recorded, the result is non-null and local < remote. Equal or lower gives "latest version". A missing listener or a recorded error gives the `[ERROR]` toast. A null result gives the caught exception. A notified listener that throws is followed by the caught exception's toast. |
| `UpdateTask.UpdateDetectedIff` | cdph_updatechecker_lib/src/main/java/com/cdph/app/UpdateChecker.java:269-305 | The whole task notifies iff the listener is set, the status is 200, the body was read to its end, the reader returned an info for it, and local < remote. The listener is handed that info, and the exception toast follows iff it throws. |
| `UpdateTask.LatestVersionIff` | cdph_updatechecker_lib/src/main/java/com/cdph/app/UpdateChecker.java:269-307 | The whole task shows "latest version" iff the listener is set, the status is 200, the body was read to its end, the reader returned an info for it, and remote <= local. |
| `UpdateTask.Non200WithListener` | cdph_updatechecker_lib/src/main/java/com/cdph/app/UpdateChecker.java:269-312 | A non-200 answer with a listener set ends in the catch of `onPostExecute`. |
| `UpdateTask.NoListenerAlwaysError` | cdph_updatechecker_lib/src/main/java/com/cdph/app/UpdateChecker.java:303-309 | Without a listener the task always shows the `[ERROR]` toast. |
| `UpdateTask.UpToDateIsStable` | cdph_updatechecker_lib/src/main/java/com/cdph/app/UpdateChecker.java:304-307 | For the same server answer, any installed version code at or above an up-to-date one is also up to date. |
| `UpdateTask.ExecuteCheckTask` | cdph_updatechecker_lib/src/main/java/com/cdph/app/UpdateChecker.java:255-313 | The background fetch followed by `onPostExecute`. A notification implies a 200 answer and local < remote. |
| `DownloadTask.InstallIntent` | cdph_updatechecker_lib/src/main/java/com/cdph/app/UpdateChecker.java:171-179 | The install request is ACTION_VIEW with NEW_TASK. Its data is "file://" followed by the path. Its type is always the package-archive MIME type. |
| `DownloadTask.InstallIgnoresMimeType` | cdph_updatechecker_lib/src/main/java/com/cdph/app/UpdateChecker.java:171-177 | The MIME type passed to `installApp` has no effect on the request. |
| `DownloadTask.ClearDestination` | cdph_updatechecker_lib/src/main/java/com/cdph/app/UpdateChecker.java:347-354 | Part of the correction: the files once the destination is removed; the destination is not among them, and nothing else is removed. |
| `DownloadTask.AsWrittenDeleteMissesDestination` | cdph_updatechecker_lib/src/main/java/com/cdph/app/UpdateChecker.java:347-354 | The file deleted as written, the relative `Download/tag` resolved against the working directory "/", is the destination iff the external download directory is "/Download". |
| `DownloadTask.AsWrittenKeepsStaleDownload` | cdph_updatechecker_lib/src/main/java/com/cdph/app/UpdateChecker.java:347-354 | As written, a file at the destination still exists when the task ends, whatever the engine does, for every external download directory other than "/Download". |
| `DownloadTask.CorrectedDeletesDestination` | cdph_updatechecker_lib/src/main/java/com/cdph/app/UpdateChecker.java:347-358 | Corrected: if the destination exists it is deleted first and nothing else is deleted; the download is enqueued once; afterwards the files are exactly those of `ClearDestination`. |
| `DownloadTask.LocalPathOf` | cdph_updatechecker_lib/src/main/java/com/cdph/app/UpdateChecker.java:371-376 | Part of the correction: for a `file://` URI, the scheme followed by the path taken out of it gives back the URI. |
| `DownloadTask.AsWrittenInstallUriDoubled` | cdph_updatechecker_lib/src/main/java/com/cdph/app/UpdateChecker.java:371-376 | As written, the install data for a `file://` local URI starts with "file://file://" and differs from that URI. |
| `DownloadTask.InstallUriIsLocalUri` | cdph_updatechecker_lib/src/main/java/com/cdph/app/UpdateChecker.java:371-376 | Corrected: the install data is the downloaded file's URI. |
| `DownloadTask.CorrectedInstallsTheDownload` | cdph_updatechecker_lib/src/main/java/com/cdph/app/UpdateChecker.java:360-378 | Corrected: at the first SUCCESSFUL row with a `file://` URI, the returned file is the path in that URI, and the last effect is an install request whose data is that URI. |
| `DownloadTask.FirstStop` | cdph_updatechecker_lib/src/main/java/com/cdph/app/UpdateChecker.java:360-382 | Finds the first row that is SUCCESSFUL or empty, with no such row before it. None means no row stops the loop. |
| `DownloadTask.DownloadInBackground` | cdph_updatechecker_lib/src/main/java/com/cdph/app/UpdateChecker.java:339-389 | File, `errMsg`, effect trace and end are exactly those of `DownloadSpec`, the code as written: delete "/Download/tag" if it exists, enqueue to the destination, poll to the first stopping row, and on success return `local_uri` as the file and install it when asked; an exception escaping `installApp` sets `errMsg` and keeps the file. |
| `DownloadTask.PostExecuteToast` | cdph_updatechecker_lib/src/main/java/com/cdph/app/UpdateChecker.java:391-401 | An error toast is shown iff `errMsg` is non-null, and it carries that message. |
| `DownloadTask.DeleteThenEnqueueOnce` | cdph_updatechecker_lib/src/main/java/com/cdph/app/UpdateChecker.java:347-358 | As written: if "/Download/tag" exists, it is deleted first and nothing else is deleted. The download is enqueued to the destination exactly once, right after, unless building the request threw. |
| `DownloadTask.InstallOnceIffAutoInstall` | cdph_updatechecker_lib/src/main/java/com/cdph/app/UpdateChecker.java:369-378 | Install is requested exactly once if the download succeeded with auto-install on, and never otherwise. |
| `DownloadTask.InstallRequestsTheReturnedFile` | cdph_updatechecker_lib/src/main/java/com/cdph/app/UpdateChecker.java:371-377 | Every install request has data "file://" followed by the returned file (as written, `local_uri` itself) and carries the package-archive MIME type. |
| `DownloadTask.DownloadedAtFirstSuccess` | cdph_updatechecker_lib/src/main/java/com/cdph/app/UpdateChecker.java:360-385 | After non-successful rows (FAILED included), the first SUCCESSFUL row ends the loop. The task returns that row's `local_uri` as the file and has polled k + 1 times. It records no error, unless auto-install is on and `installApp` failed; then `errMsg` is that exception's message and the file is still returned. |
| `DownloadTask.NoSuccessKeepsPolling` | cdph_updatechecker_lib/src/main/java/com/cdph/app/UpdateChecker.java:360-382 | Rows with no SUCCESSFUL status leave the task polling: no file, no error, no toast. |
| `DownloadTask.SilentFaultWithoutMessage` | cdph_updatechecker_lib/src/main/java/com/cdph/app/UpdateChecker.java:383-401 | The task faults iff building or enqueueing the request throws or the first stopping query finds an empty cursor. `errMsg` is that exception's message, and a fault shows a toast iff the message is non-null. |
| `UpdateCheckerApi.SharedState.constructor` | cdph_updatechecker_lib/src/main/java/com/cdph/app/UpdateChecker.java:36-39 | Defaults: no listener, URL "", autoRun false, autoInstall false, Wi-Fi only true, no reader. |
| `UpdateCheckerApi.UpdateChecker.GetInstance` | cdph_updatechecker_lib/src/main/java/com/cdph/app/UpdateChecker.java:48-62 | A new checker over the one shared configuration. |
| `UpdateCheckerApi.UpdateChecker.ShouldAutoRun` | cdph_updatechecker_lib/src/main/java/com/cdph/app/UpdateChecker.java:72-80 | Sets only `autoRun` and returns the same checker. |
| `UpdateCheckerApi.UpdateChecker.SetUpdateLogsUrl` | cdph_updatechecker_lib/src/main/java/com/cdph/app/UpdateChecker.java:89-93 | Sets only the URL and returns the same checker. |
| `UpdateCheckerApi.UpdateChecker.ShouldAutoInstall` | cdph_updatechecker_lib/src/main/java/com/cdph/app/UpdateChecker.java:103-107 | Sets only `autoInstall` and returns the same checker. |
| `UpdateCheckerApi.UpdateChecker.ShouldCheckUpdateOnWifiOnly` | cdph_updatechecker_lib/src/main/java/com/cdph/app/UpdateChecker.java:116-120 | Sets only the Wi-Fi-only flag and returns the same checker. |
| `UpdateCheckerApi.UpdateChecker.SetOnUpdateDetectedListener` | cdph_updatechecker_lib/src/main/java/com/cdph/app/UpdateChecker.java:129-133 | Sets only the listener and returns the same checker. |
| `UpdateCheckerApi.UpdateChecker.SetJsonReader` | cdph_updatechecker_lib/src/main/java/com/cdph/app/UpdateChecker.java:141-145 | Sets only the JSON reader and returns the same checker. |
| `UpdateCheckerApi.UpdateChecker.RunUpdateChecker` | cdph_updatechecker_lib/src/main/java/com/cdph/app/UpdateChecker.java:152-163 | Runs the check task on the configured URL iff the gate holds now; otherwise only the "not connected" toast. |
| `UpdateCheckerApi.UpdateChecker.DownloadUpdate` | cdph_updatechecker_lib/src/main/java/com/cdph/app/UpdateChecker.java:193-209 | When the gate refuses: returns null, starts nothing, has no effects. Otherwise it returns the download task's file, effects and toast. A file is returned only after a successful download. |
| `UpdateCheckerApi.ConnectivityReceiver.OnReceive` | cdph_updatechecker_lib/src/main/java/com/cdph/app/UpdateChecker.java:407-411 | Every broadcast received while the gate holds runs the check task. There is no memory of earlier broadcasts, and `autoRun` is not consulted. |
| `UpdateCheckerApi.ConfigureThenCheck` | cdph_updatechecker_lib/src/main/java/com/cdph/app/UpdateChecker.java:36-62 | Settings made through one checker are seen by another checker and by the receiver: both run the same check, on the URL and with the listener set through the first, on a mobile network once Wi-Fi-only is off. |

## Findings

| source | as written | input that shows it | evidently intended | confidence | as-written member | corrected member |
|---|---|---|---|---|---|---|
| cdph_updatechecker_lib/src/main/java/com/cdph/app/UpdateChecker.java:347-354 | Checks and deletes `new File(DIRECTORY_DOWNLOADS, tag)`. That is the relative path "Download/tag", which resolves to "/Download/tag". The engine writes to the app's external download directory followed by "/tag". | destination "/storage/emulated/0/Android/data/com.example/files/Download/update.apk" exists, "/Download/update.apk" does not | delete the file at the download destination before enqueueing | high (not executed) | `DownloadTask.AsWrittenKeepsStaleDownload` | `DownloadTask.CorrectedDeletesDestination` |
| cdph_updatechecker_lib/src/main/java/com/cdph/app/UpdateChecker.java:371-376 | Passes the row's `local_uri` to `installApp` as a path. `local_uri` is already a `file://` URI, and `installApp` prefixes "file://" again. | local_uri "file:///sdcard/Download/update.apk" gives install data "file://file:///sdcard/Download/update.apk" | the install request points at the downloaded file | medium (not executed; relies on the engine reporting `file://` URIs) | `DownloadTask.AsWrittenInstallUriDoubled` | `DownloadTask.CorrectedInstallsTheDownload` |

`DownloadInBackground`, `DownloadSpec` and `downloadUpdate` follow the code
as written. `DownloadSpecCorrected` is the same task with both defects
corrected: it deletes the destination itself, and it returns and installs
`LocalPathOf(local_uri)`. Both are instances of `TaskRun`, which takes the
deleted path and the reading of `local_uri` as parameters. The order of the
pre-steps (`PreStepsInOrder`) and the files left afterwards
(`FilesAfterRun`) are proved once for both.

## Left out

- Threading: `AsyncTask` scheduling and the blocking `.get()` in
  `downloadUpdate` are left out. Each task runs as one sequential method.
  With `StillPolling`, the code's `.get()` would block for good. The model
  returns at that point, with no file.
- The file system is a set of path strings. Paths are compared as text: a
  relative path is resolved against the app's working directory "/", and
  nothing else is normalised (no "..", no repeated slashes, no links).
- The loop polls forever when no SUCCESSFUL row ever comes. The model sees a
  finite sequence of rows and reports `StillPolling` when it runs out.
- UI: progress dialogs are left out. Toasts appear only as outcome tags.
  The "not connected" toast and the text of caught-exception toasts are not
  modelled.
- Receiver registration in `shouldAutoRun(true)` is left out. It is an OS
  side effect, and each call registers one more receiver.
- The connect and read timeout constants only reach the HTTP stack. A
  timeout appears as a failed connection or a failed read.
- The text of `errMsg`: the model keeps the null check that decisions use
  and the "null" prefix. Messages are inputs. The message of the exception
  raised when no JSON reader is set is also an input (`missingReader`).
- Text decoding: chunks are already-decoded text. Decoding each 1024-byte
  read on its own can split a multi-byte character. That is not modelled.
- `JSONReader.readJson` is not part of this model. It is a function from the
  body text to an info, null, or an exception.
- `installApp`'s own catch is not modelled as a separate step. Called from the
  download task's worker thread, which has no message loop, its
  `Toast.makeText` throws in turn, so a failure to start the installer always
  escapes to `doInBackground`'s catch. The model takes that escaping
  exception as an input (`Engine.installFault`). Its `[ERROR (installApp)]`
  toast never appears.
- The `local_uri` column is taken to be non-null.
- `getActiveNetworkInfo()` is called several times in `isConnected`. The model
  reads it once, because a network change between those calls is concurrency.
- The `Context` and the package manager are left out. The installed version
  code is an input.
