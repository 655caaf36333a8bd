/**
 * `TaskDownloadUpdate` and `installApp`: clear the destination, enqueue the
 * download, poll its status until the first SUCCESSFUL row, then optionally
 * ask the OS to install the file.
 *
 * The download engine is an input (`Engine`): whether building or enqueueing
 * the request throws, the rows successive status queries return, and the
 * MIME type it reports. The file system is the set of paths that exist. What
 * the task does to the outside world is recorded as a trace of `Effect`s.
 */
module DownloadTask {
  import opened Wrappers
  import opened JavaLang

  /** `Environment.DIRECTORY_DOWNLOADS`: a directory NAME, not a path. */
  const DIRECTORY_DOWNLOADS: string := "Download"
  /** The MIME type every install request carries. */
  const PACKAGE_ARCHIVE_MIME: string := "application/vnd.android.package-archive"
  const FILE_SCHEME: string := "file://"
  /** The working directory of an app process, against which a relative `File` is resolved. */
  const WORKING_DIRECTORY: string := "/"
  /** `Intent.ACTION_VIEW`. */
  const ACTION_VIEW: string := "android.intent.action.VIEW"

  /** The `COLUMN_STATUS` values of the download engine. */
  datatype DownloadStatus = Pending | Running | Paused | Successful | Failed

  /**
   * What one status query returns: the first row of the cursor (its status and
   * `local_uri`), or an empty cursor, on which `getInt` throws (the download
   * was removed from the engine, for one).
   */
  datatype PollRow = Row(status: DownloadStatus, localUri: string) | NoRow(fault: Fault)

  /**
   * The download engine as the task sees it. `installFault` is the exception
   * that escapes `installApp` when it is called: when `startActivity` throws,
   * the catch's `Toast.makeText` throws in turn, because the task's worker
   * thread has no message loop.
   */
  datatype Engine = Engine(enqueueFault: Option<Fault>, rows: seq<PollRow>, mimeType: Option<string>,
                           installFault: Option<Fault>)

  /** The install request: `Intent(ACTION_VIEW)` with data, type and `FLAG_ACTIVITY_NEW_TASK`. */
  datatype Intent = Intent(action: string, data: string, mimeType: string, newTask: bool)

  /** What the task does outside itself, in order. */
  datatype Effect =
    | DeleteFile(path: string)
    | Enqueue(url: string, destination: string)
    | Poll
    | Install(intent: Intent)

  /** How the background work ends. `StillPolling`: the rows ran out and the loop, in the code, goes on. */
  datatype TaskEnd = Downloaded | Faulted | StillPolling

  /** What `doInBackground` leaves behind: the returned file, `errMsg`, the effects and how it ended. */
  datatype DownloadRun = DownloadRun(file: Option<string>, errMsg: Option<string>, effects: seq<Effect>, end: TaskEnd)

  // ---------------------------------------------------------------- install

  /**
   * `installApp(path, mimeType)`: the request it hands to the OS. The
   * `mimeType` argument is ignored; the request always names an Android
   * package archive.
   */
  function InstallIntent(path: string, mimeType: Option<string>): (i: Intent)
    ensures i.mimeType == PACKAGE_ARCHIVE_MIME
    ensures i.action == ACTION_VIEW && i.newTask
    ensures |i.data| == |FILE_SCHEME| + |path| && i.data[..|FILE_SCHEME|] == FILE_SCHEME && i.data[|FILE_SCHEME|..] == path
  {
    Intent(ACTION_VIEW, FILE_SCHEME + path, PACKAGE_ARCHIVE_MIME, true)
  }

  /** The MIME type passed in never reaches the request. */
  lemma InstallIgnoresMimeType(path: string, m1: Option<string>, m2: Option<string>)
    ensures InstallIntent(path, m1) == InstallIntent(path, m2)
  {
  }

  // ---------------------------------------------------------------- paths

  /** Where the engine is told to write: `setDestinationInExternalFilesDir(ctx, DIRECTORY_DOWNLOADS, tag)`. */
  function DestinationPath(externalDownloadsDir: string, tag: string): string
  {
    externalDownloadsDir + "/" + tag
  }

  /**
   * As written: the file checked and deleted, `new File(DIRECTORY_DOWNLOADS, tag)`,
   * a relative path, resolved against the working directory: "/Download/tag".
   */
  function DeleteTargetAsWritten(tag: string): string
  {
    WORKING_DIRECTORY + DIRECTORY_DOWNLOADS + "/" + tag
  }

  /**
   * The file deleted as written is the destination only when the external
   * download directory happens to be "/Download" itself.
   */
  lemma AsWrittenDeleteMissesDestination(externalDownloadsDir: string, tag: string)
    ensures DeleteTargetAsWritten(tag) == DestinationPath(externalDownloadsDir, tag) <==>
            externalDownloadsDir == WORKING_DIRECTORY + DIRECTORY_DOWNLOADS
  {
    var resolved := WORKING_DIRECTORY + DIRECTORY_DOWNLOADS;
    assert DeleteTargetAsWritten(tag) == resolved + "/" + tag;
    if DeleteTargetAsWritten(tag) == DestinationPath(externalDownloadsDir, tag) {
      var path := DestinationPath(externalDownloadsDir, tag);
      assert |externalDownloadsDir| == |resolved|;
      assert path[..|resolved|] == externalDownloadsDir;
      assert (resolved + "/" + tag)[..|resolved|] == resolved;
    }
  }

  /** The existing files once the destination is gone, as the corrected pre-step leaves them. */
  function ClearDestination(files: set<string>, externalDownloadsDir: string, tag: string): (r: set<string>)
    ensures DestinationPath(externalDownloadsDir, tag) !in r
    ensures r == files - {DestinationPath(externalDownloadsDir, tag)}
  {
    var dest := DestinationPath(externalDownloadsDir, tag);
    if dest in files then files - {dest} else files
  }

  /** The existing files after the deletes of a trace; a trace never creates a file. */
  function FilesAfter(files: set<string>, effects: seq<Effect>): (r: set<string>)
    ensures r <= files
  {
    if effects == [] then files
    else FilesAfter(if effects[0].DeleteFile? then files - {effects[0].path} else files, effects[1..])
  }

  /**
   * The file path of the engine's `local_uri`, which is a `file://` URI:
   * the scheme is removed (anything else is passed on unchanged).
   */
  function LocalPathOf(localUri: string): (path: string)
    ensures |localUri| >= |FILE_SCHEME| && localUri[..|FILE_SCHEME|] == FILE_SCHEME ==> FILE_SCHEME + path == localUri
  {
    if |localUri| >= |FILE_SCHEME| && localUri[..|FILE_SCHEME|] == FILE_SCHEME then localUri[|FILE_SCHEME|..] else localUri
  }

  /** As written, `new File(filePath)` and `installApp(filePath, …)` take the `local_uri` string itself as a path. */
  function UriAsPath(localUri: string): string
  {
    localUri
  }

  /** As written, `local_uri` goes to `installApp` as a path, which prefixes the scheme a second time. */
  lemma AsWrittenInstallUriDoubled(localUri: string, mimeType: Option<string>)
    requires |localUri| >= |FILE_SCHEME| && localUri[..|FILE_SCHEME|] == FILE_SCHEME
    ensures InstallIntent(UriAsPath(localUri), mimeType).data[..2 * |FILE_SCHEME|] == FILE_SCHEME + FILE_SCHEME
    ensures InstallIntent(UriAsPath(localUri), mimeType).data != localUri
  {
  }

  /** With the path taken out of the URI, the install request points at the downloaded file itself. */
  lemma InstallUriIsLocalUri(localUri: string, mimeType: Option<string>)
    requires |localUri| >= |FILE_SCHEME| && localUri[..|FILE_SCHEME|] == FILE_SCHEME
    ensures InstallIntent(LocalPathOf(localUri), mimeType).data == localUri
  {
  }

  // ---------------------------------------------------------------- the poll loop

  /** A row that ends the loop: SUCCESSFUL, or an empty cursor (which throws). No other status does. */
  predicate Stops(row: PollRow)
  {
    row.NoRow? || row.status == Successful
  }

  /** The index of the first row that ends the loop, if any. */
  function FirstStop(rows: seq<PollRow>): (k: Option<nat>)
    ensures k.Some? ==> k.value < |rows| && Stops(rows[k.value])
    ensures k.Some? ==> forall j | 0 <= j < k.value :: !Stops(rows[j])
    ensures k.None? ==> forall j | 0 <= j < |rows| :: !Stops(rows[j])
  {
    if rows == [] then None
    else if Stops(rows[0]) then Some(0)
    else
      match FirstStop(rows[1..])
      case None => None
      case Some(k) => Some(k + 1)
  }

  /** `n` status queries. */
  function Polls(n: nat): (s: seq<Effect>)
    ensures |s| == n && forall i | 0 <= i < n :: s[i] == Poll
  {
    seq(n, _ => Poll)
  }

  /** The delete of the pre-step: `deletePath`, if it exists. */
  function Cleared(deletePath: string, files: set<string>): seq<Effect>
  {
    if deletePath in files then [DeleteFile(deletePath)] else []
  }

  /**
   * `errMsg` after a successful download: the message of the exception that
   * escaped `installApp`, when it was called and failed; null otherwise.
   */
  function InstallError(autoInstall: bool, installFault: Option<Fault>): Option<string>
  {
    if autoInstall && installFault.Some? then installFault.value.message else None
  }

  /** The install request made on success, if auto-install is on. */
  function InstallStep(autoInstall: bool, path: string, mimeType: Option<string>): seq<Effect>
  {
    if autoInstall then [Install(InstallIntent(path, mimeType))] else []
  }

  /**
   * The background work for a given pre-step and a given reading of
   * `local_uri`: delete `deletePath` if it exists, enqueue the download to
   * `dest`, poll until the first row that stops the loop; on SUCCESSFUL
   * return `pathOf(local_uri)` and, with auto-install on, ask for its
   * installation, whose failure is recorded in `errMsg` while the file is
   * still returned.
   */
  function TaskRun(deletePath: string, dest: string, url: string, files: set<string>, engine: Engine,
                   autoInstall: bool, pathOf: string -> string): DownloadRun
  {
    var cleared := Cleared(deletePath, files);
    if engine.enqueueFault.Some? then
      DownloadRun(None, engine.enqueueFault.value.message, cleared, Faulted)
    else
      var enqueued := cleared + [Enqueue(url, dest)];
      match FirstStop(engine.rows)
      case None => DownloadRun(None, None, enqueued + Polls(|engine.rows|), StillPolling)
      case Some(k) =>
        match engine.rows[k]
        case NoRow(f) => DownloadRun(None, f.message, enqueued + Polls(k + 1), Faulted)
        case Row(_, uri) =>
          DownloadRun(Some(pathOf(uri)), InstallError(autoInstall, engine.installFault), enqueued + Polls(k + 1) + InstallStep(autoInstall, pathOf(uri), engine.mimeType),
                      Downloaded)
  }

  /**
   * Specification of `doInBackground` as written: delete "/Download/tag"
   * (the relative `Download/tag` resolved) if it exists, enqueue once to the destination, poll, and
   * on SUCCESSFUL return and install `local_uri` unchanged.
   */
  function DownloadSpec(url: string, tag: string, externalDownloadsDir: string, files: set<string>,
                        engine: Engine, autoInstall: bool): DownloadRun
  {
    TaskRun(DeleteTargetAsWritten(tag), DestinationPath(externalDownloadsDir, tag), url, files, engine, autoInstall, UriAsPath)
  }

  /**
   * `doInBackground` with its two path defects corrected: the destination
   * itself is deleted, and the file path is taken out of `local_uri`.
   */
  function DownloadSpecCorrected(url: string, tag: string, externalDownloadsDir: string, files: set<string>,
                                 engine: Engine, autoInstall: bool): DownloadRun
  {
    var dest := DestinationPath(externalDownloadsDir, tag);
    TaskRun(dest, dest, url, files, engine, autoInstall, LocalPathOf)
  }

  /**
   * `doInBackground`: the `while(downloading)` loop polls one row per
   * iteration; a SUCCESSFUL row records the file, installs when asked to and
   * clears `downloading`; an exception ends the task with `errMsg` set to its
   * message (null when the exception has none).
   */
  method DownloadInBackground(url: string, tag: string, externalDownloadsDir: string, files: set<string>,
                              engine: Engine, autoInstall: bool)
    returns (file: Option<string>, errMsg: Option<string>, effects: seq<Effect>, end: TaskEnd)
    ensures DownloadRun(file, errMsg, effects, end) == DownloadSpec(url, tag, externalDownloadsDir, files, engine, autoInstall)
  {
    file, errMsg, effects := None, None, [];
    var target := DeleteTargetAsWritten(tag);
    if target in files {
      effects := effects + [DeleteFile(target)];
    }
    if engine.enqueueFault.Some? {
      errMsg, end := engine.enqueueFault.value.message, Faulted;
      return;
    }
    effects := effects + [Enqueue(url, DestinationPath(externalDownloadsDir, tag))];
    ghost var enqueued := effects;
    var rows := engine.rows;
    var downloading := true;
    var i := 0;
    while downloading && i < |rows|
      invariant 0 <= i <= |rows|
      invariant downloading ==> forall j | 0 <= j < i :: !Stops(rows[j])
      invariant downloading ==> file.None? && errMsg.None? && effects == enqueued + Polls(i)
      invariant !downloading ==> DownloadRun(file, errMsg, effects, Downloaded) == DownloadSpec(url, tag, externalDownloadsDir, files, engine, autoInstall)
    {
      effects := effects + [Poll];
      assert effects == enqueued + Polls(i + 1);
      match rows[i] {
        case NoRow(f) =>
          FirstStopAt(rows, i);
          SpecStopsAt(url, tag, externalDownloadsDir, files, engine, autoInstall, i);
          errMsg, end := f.message, Faulted;
          return;
        case Row(status, filePath) =>
          if status == Successful {
            FirstStopAt(rows, i);
            SpecStopsAt(url, tag, externalDownloadsDir, files, engine, autoInstall, i);
            file := Some(filePath);
            if autoInstall && errMsg.None? {
              effects := effects + [Install(InstallIntent(filePath, engine.mimeType))];
              if engine.installFault.Some? {
                assert effects == enqueued + Polls(i + 1) + InstallStep(autoInstall, filePath, engine.mimeType);
                errMsg, end := engine.installFault.value.message, Downloaded;
                return;
              }
            }
            downloading := false;
          }
      }
      i := i + 1;
    }
    if downloading {
      FirstStopNone(rows);
      SpecStopsAt(url, tag, externalDownloadsDir, files, engine, autoInstall, 0);
      end := StillPolling;
    } else {
      end := Downloaded;
    }
  }

  /**
   * `DownloadSpec` once the download is enqueued, by how the polling ends:
   * at the k-th query (`FirstStop` is `Some(k)`), or not within the rows.
   */
  lemma SpecStopsAt(url: string, tag: string, externalDownloadsDir: string, files: set<string>,
                    engine: Engine, autoInstall: bool, k: nat)
    requires engine.enqueueFault.None?
    requires FirstStop(engine.rows).Some? ==> FirstStop(engine.rows) == Some(k)
    ensures var run := DownloadSpec(url, tag, externalDownloadsDir, files, engine, autoInstall);
            var enqueued := Cleared(DeleteTargetAsWritten(tag), files) + [Enqueue(url, DestinationPath(externalDownloadsDir, tag))];
            && (FirstStop(engine.rows).None? ==>
                  run == DownloadRun(None, None, enqueued + Polls(|engine.rows|), StillPolling))
            && (FirstStop(engine.rows).Some? && engine.rows[k].NoRow? ==>
                  run == DownloadRun(None, engine.rows[k].fault.message, enqueued + Polls(k + 1), Faulted))
            && (FirstStop(engine.rows).Some? && engine.rows[k].Row? ==>
                  run == DownloadRun(Some(engine.rows[k].localUri), InstallError(autoInstall, engine.installFault),
                                     enqueued + Polls(k + 1) + InstallStep(autoInstall, engine.rows[k].localUri, engine.mimeType),
                                     Downloaded))
  {
  }

  /** No stopping row among the rows: `FirstStop` finds none. */
  lemma FirstStopNone(rows: seq<PollRow>)
    requires forall j | 0 <= j < |rows| :: !Stops(rows[j])
    ensures FirstStop(rows) == None
  {
  }

  /** The first stopping row is the one `FirstStop` finds. */
  lemma FirstStopAt(rows: seq<PollRow>, k: nat)
    requires k < |rows| && Stops(rows[k])
    requires forall j | 0 <= j < k :: !Stops(rows[j])
    ensures FirstStop(rows) == Some(k)
  {
  }

  /** `onPostExecute`: an error toast is shown exactly when `errMsg` is non-null. */
  function PostExecuteToast(errMsg: Option<string>): (shown: Option<string>)
    ensures shown.Some? <==> errMsg.Some?
    ensures shown.Some? ==> shown.value == "[ERROR (task_downloadUpdate)]: " + errMsg.value
  {
    match errMsg
    case None => None
    case Some(m) => Some("[ERROR (task_downloadUpdate)]: " + m)
  }

  // ---------------------------------------------------------------- properties of the trace

  /** How many effects of `effects` satisfy `p`. */
  function CountWhere(effects: seq<Effect>, p: Effect -> bool): nat
  {
    if effects == [] then 0 else (if p(effects[0]) then 1 else 0) + CountWhere(effects[1..], p)
  }

  lemma {:induction false} CountWhereAppend(a: seq<Effect>, b: seq<Effect>, p: Effect -> bool)
    ensures CountWhere(a + b, p) == CountWhere(a, p) + CountWhere(b, p)
  {
    if a == [] {
      assert a + b == b;
    } else {
      assert (a + b)[1..] == a[1..] + b;
      CountWhereAppend(a[1..], b, p);
    }
  }

  /** `n` status queries count `n` or nothing. */
  lemma {:induction false} CountWherePolls(n: nat, p: Effect -> bool)
    ensures CountWhere(Polls(n), p) == if p(Poll) then n else 0
  {
    if n > 0 {
      assert Polls(n)[1..] == Polls(n - 1);
      CountWherePolls(n - 1, p);
    }
  }

  /** A trace of at most one effect counts that effect. */
  lemma CountWhereShort(effects: seq<Effect>, p: Effect -> bool)
    requires |effects| <= 1
    ensures CountWhere(effects, p) == if effects != [] && p(effects[0]) then 1 else 0
  {
    if effects != [] {
      assert effects[1..] == [];
    }
  }

  /** Counting over the shape of a trace: pre-steps, status queries, then what follows. */
  lemma CountWhereTrace(head: seq<Effect>, n: nat, extra: seq<Effect>, p: Effect -> bool)
    ensures CountWhere(head + Polls(n) + extra, p) ==
      CountWhere(head, p) + (if p(Poll) then n else 0) + CountWhere(extra, p)
  {
    CountWhereAppend(head + Polls(n), extra, p);
    CountWhereAppend(head, Polls(n), p);
    CountWherePolls(n, p);
  }

  predicate IsDelete(e: Effect) { e.DeleteFile? }
  predicate IsEnqueue(e: Effect) { e.Enqueue? }
  predicate IsInstall(e: Effect) { e.Install? }
  predicate IsPoll(e: Effect) { e.Poll? }

  /**
   * The shape of the trace once the download is enqueued: the pre-step,
   * `n` status queries, then the install request, if any.
   */
  lemma EnqueuedTrace(deletePath: string, dest: string, url: string, files: set<string>, engine: Engine,
                      autoInstall: bool, pathOf: string -> string)
    returns (n: nat, extra: seq<Effect>)
    requires engine.enqueueFault.None?
    ensures var run := TaskRun(deletePath, dest, url, files, engine, autoInstall, pathOf);
            && run.effects == Cleared(deletePath, files) + [Enqueue(url, dest)] + Polls(n) + extra
            && |extra| == (if run.end == Downloaded && autoInstall then 1 else 0)
            && (extra != [] ==> extra[0].Install?)
            && (run.end == Downloaded ==> n == FirstStop(engine.rows).value + 1)
  {
    match FirstStop(engine.rows) {
      case None =>
        n, extra := |engine.rows|, [];
      case Some(k) =>
        n := k + 1;
        extra := if engine.rows[k].Row? then InstallStep(autoInstall, pathOf(engine.rows[k].localUri), engine.mimeType) else [];
    }
  }

  /**
   * The order of the pre-steps, whichever path is deleted: it is deleted
   * first, and only if it exists; the download is then enqueued exactly once
   * unless building the request threw; nothing is deleted later.
   */
  lemma {:induction false} PreStepsInOrder(deletePath: string, dest: string, url: string, files: set<string>,
                                           engine: Engine, autoInstall: bool, pathOf: string -> string)
    ensures var run := TaskRun(deletePath, dest, url, files, engine, autoInstall, pathOf);
            && CountWhere(run.effects, IsDelete) == (if deletePath in files then 1 else 0)
            && (deletePath in files ==> run.effects[0] == DeleteFile(deletePath))
            && CountWhere(run.effects, IsEnqueue) == (if engine.enqueueFault.None? then 1 else 0)
            && (engine.enqueueFault.None? ==>
                  run.effects[if deletePath in files then 1 else 0] == Enqueue(url, dest))
  {
    var run := TaskRun(deletePath, dest, url, files, engine, autoInstall, pathOf);
    var cleared := Cleared(deletePath, files);
    CountWhereShort(cleared, IsDelete);
    CountWhereShort(cleared, IsEnqueue);
    if engine.enqueueFault.None? {
      var n, extra := EnqueuedTrace(deletePath, dest, url, files, engine, autoInstall, pathOf);
      var head := cleared + [Enqueue(url, dest)];
      CountWhereTrace(head, n, extra, IsDelete);
      CountWhereTrace(head, n, extra, IsEnqueue);
      CountWhereAppend(cleared, [Enqueue(url, dest)], IsDelete);
      CountWhereAppend(cleared, [Enqueue(url, dest)], IsEnqueue);
      CountWhereShort([Enqueue(url, dest)], IsDelete);
      CountWhereShort([Enqueue(url, dest)], IsEnqueue);
      CountWhereShort(extra, IsDelete);
      CountWhereShort(extra, IsEnqueue);
      assert run.effects == head + (Polls(n) + extra);
    }
  }

  /** A trace without deletes leaves the files as they are. */
  lemma {:induction false} FilesAfterNoDelete(files: set<string>, effects: seq<Effect>)
    requires forall i | 0 <= i < |effects| :: !effects[i].DeleteFile?
    ensures FilesAfter(files, effects) == files
  {
    if effects != [] {
      FilesAfterNoDelete(files, effects[1..]);
    }
  }

  /** A delete of `deletePath`, if it exists, followed by no other delete removes exactly that path. */
  lemma {:induction false} FilesAfterPreStep(files: set<string>, deletePath: string, rest: seq<Effect>)
    requires forall i | 0 <= i < |rest| :: !rest[i].DeleteFile?
    ensures FilesAfter(files, Cleared(deletePath, files) + rest) == files - {deletePath}
  {
    if deletePath in files {
      var effects := Cleared(deletePath, files) + rest;
      assert effects[0] == DeleteFile(deletePath) && effects[1..] == rest;
      FilesAfterNoDelete(files - {deletePath}, rest);
    } else {
      assert Cleared(deletePath, files) + rest == rest;
      FilesAfterNoDelete(files, rest);
    }
  }

  /** After the pre-step, the task deletes nothing. */
  lemma RestOfRun(deletePath: string, dest: string, url: string, files: set<string>,
                  engine: Engine, autoInstall: bool, pathOf: string -> string)
    returns (rest: seq<Effect>)
    ensures TaskRun(deletePath, dest, url, files, engine, autoInstall, pathOf).effects == Cleared(deletePath, files) + rest
    ensures forall i | 0 <= i < |rest| :: !rest[i].DeleteFile?
  {
    rest := [];
    if engine.enqueueFault.None? {
      var n, extra := EnqueuedTrace(deletePath, dest, url, files, engine, autoInstall, pathOf);
      rest := [Enqueue(url, dest)] + Polls(n) + extra;
      assert Cleared(deletePath, files) + [Enqueue(url, dest)] + Polls(n) + extra == Cleared(deletePath, files) + rest;
    }
  }

  /** Whichever path the pre-step deletes, that path and only that one is gone once the task ends. */
  lemma FilesAfterRun(deletePath: string, dest: string, url: string, files: set<string>,
                      engine: Engine, autoInstall: bool, pathOf: string -> string)
    ensures FilesAfter(files, TaskRun(deletePath, dest, url, files, engine, autoInstall, pathOf).effects) == files - {deletePath}
  {
    var rest := RestOfRun(deletePath, dest, url, files, engine, autoInstall, pathOf);
    FilesAfterPreStep(files, deletePath, rest);
  }

  /**
   * The pre-step as written: "/Download/tag" is deleted first, and only if it
   * exists; the download is enqueued exactly once, to the destination,
   * unless building the request threw.
   */
  lemma DeleteThenEnqueueOnce(url: string, tag: string, externalDownloadsDir: string, files: set<string>,
                              engine: Engine, autoInstall: bool)
    ensures var run := DownloadSpec(url, tag, externalDownloadsDir, files, engine, autoInstall);
            var target := DeleteTargetAsWritten(tag);
            && CountWhere(run.effects, IsDelete) == (if target in files then 1 else 0)
            && (target in files ==> run.effects[0] == DeleteFile(target))
            && CountWhere(run.effects, IsEnqueue) == (if engine.enqueueFault.None? then 1 else 0)
            && (engine.enqueueFault.None? ==>
                  run.effects[if target in files then 1 else 0] == Enqueue(url, DestinationPath(externalDownloadsDir, tag)))
  {
    PreStepsInOrder(DeleteTargetAsWritten(tag), DestinationPath(externalDownloadsDir, tag), url, files, engine, autoInstall, UriAsPath);
  }

  /**
   * As written, a stale download at the destination survives the task: the
   * only file deleted is "/Download/tag", unless the external download
   * directory is "/Download" itself.
   */
  lemma AsWrittenKeepsStaleDownload(url: string, tag: string, externalDownloadsDir: string, files: set<string>,
                                    engine: Engine, autoInstall: bool)
    requires externalDownloadsDir != WORKING_DIRECTORY + DIRECTORY_DOWNLOADS
    requires DestinationPath(externalDownloadsDir, tag) in files
    ensures DestinationPath(externalDownloadsDir, tag) in
              FilesAfter(files, DownloadSpec(url, tag, externalDownloadsDir, files, engine, autoInstall).effects)
  {
    AsWrittenDeleteMissesDestination(externalDownloadsDir, tag);
    FilesAfterRun(DeleteTargetAsWritten(tag), DestinationPath(externalDownloadsDir, tag), url, files, engine, autoInstall, UriAsPath);
  }

  /**
   * Corrected, the destination itself is deleted first when it exists, the
   * download is enqueued once after it, and no stale file is left there.
   */
  lemma CorrectedDeletesDestination(url: string, tag: string, externalDownloadsDir: string, files: set<string>,
                                    engine: Engine, autoInstall: bool)
    ensures var run := DownloadSpecCorrected(url, tag, externalDownloadsDir, files, engine, autoInstall);
            var dest := DestinationPath(externalDownloadsDir, tag);
            && CountWhere(run.effects, IsDelete) == (if dest in files then 1 else 0)
            && (dest in files ==> run.effects[0] == DeleteFile(dest))
            && CountWhere(run.effects, IsEnqueue) == (if engine.enqueueFault.None? then 1 else 0)
            && FilesAfter(files, run.effects) == ClearDestination(files, externalDownloadsDir, tag)
  {
    var dest := DestinationPath(externalDownloadsDir, tag);
    PreStepsInOrder(dest, dest, url, files, engine, autoInstall, LocalPathOf);
    FilesAfterRun(dest, dest, url, files, engine, autoInstall, LocalPathOf);
  }

  /** The install request is made at most once: exactly when the download succeeded and auto-install is on. */
  lemma {:induction false} InstallOnceIffAutoInstall(url: string, tag: string, externalDownloadsDir: string,
                                                     files: set<string>, engine: Engine, autoInstall: bool)
    ensures var run := DownloadSpec(url, tag, externalDownloadsDir, files, engine, autoInstall);
            CountWhere(run.effects, IsInstall) == (if run.end == Downloaded && autoInstall then 1 else 0)
  {
    var target := DeleteTargetAsWritten(tag);
    var dest := DestinationPath(externalDownloadsDir, tag);
    var cleared := Cleared(target, files);
    CountWhereShort(cleared, IsInstall);
    if engine.enqueueFault.None? {
      var n, extra := EnqueuedTrace(target, dest, url, files, engine, autoInstall, UriAsPath);
      CountWhereTrace(cleared + [Enqueue(url, dest)], n, extra, IsInstall);
      CountWhereAppend(cleared, [Enqueue(url, dest)], IsInstall);
      CountWhereShort([Enqueue(url, dest)], IsInstall);
      CountWhereShort(extra, IsInstall);
    }
  }

  /**
   * Every install request the task makes is for the returned file, as a
   * `file://` URI built on it, and names the package-archive MIME type,
   * whatever type the engine reported.
   */
  lemma InstallRequestsTheReturnedFile(url: string, tag: string, externalDownloadsDir: string,
                                       files: set<string>, engine: Engine, autoInstall: bool)
    ensures var run := DownloadSpec(url, tag, externalDownloadsDir, files, engine, autoInstall);
            forall i | 0 <= i < |run.effects| && run.effects[i].Install? ::
              && run.file.Some?
              && run.effects[i].intent.mimeType == PACKAGE_ARCHIVE_MIME
              && run.effects[i].intent.data == FILE_SCHEME + run.file.value
  {
  }

  /**
   * The loop ends at the first SUCCESSFUL row when every earlier query found
   * a row with another status (FAILED included): the returned file is that
   * row's `local_uri`, and the engine was queried k + 1 times. An error is
   * recorded only when auto-install is on and `installApp` failed; the file
   * is returned all the same.
   */
  lemma {:induction false} DownloadedAtFirstSuccess(url: string, tag: string, externalDownloadsDir: string,
                                                    files: set<string>, engine: Engine, autoInstall: bool, k: nat)
    requires engine.enqueueFault.None?
    requires k < |engine.rows| && engine.rows[k].Row? && engine.rows[k].status == Successful
    requires forall j | 0 <= j < k :: engine.rows[j].Row? && engine.rows[j].status != Successful
    ensures var run := DownloadSpec(url, tag, externalDownloadsDir, files, engine, autoInstall);
            && run.end == Downloaded
            && run.file == Some(engine.rows[k].localUri)
            && (autoInstall && engine.installFault.Some? ==> run.errMsg == engine.installFault.value.message)
            && (!autoInstall || engine.installFault.None? ==> run.errMsg.None?)
            && CountWhere(run.effects, IsPoll) == k + 1
  {
    FirstStopAt(engine.rows, k);
    var target := DeleteTargetAsWritten(tag);
    var dest := DestinationPath(externalDownloadsDir, tag);
    var cleared := Cleared(target, files);
    var n, extra := EnqueuedTrace(target, dest, url, files, engine, autoInstall, UriAsPath);
    CountWhereTrace(cleared + [Enqueue(url, dest)], n, extra, IsPoll);
    CountWhereAppend(cleared, [Enqueue(url, dest)], IsPoll);
    CountWhereShort(cleared, IsPoll);
    CountWhereShort([Enqueue(url, dest)], IsPoll);
    CountWhereShort(extra, IsPoll);
  }

  /**
   * Corrected, a download that succeeds at the first SUCCESSFUL row returns
   * the file path of its `file://` URI, and the install request, the last
   * thing the task does, points at that very URI.
   */
  lemma CorrectedInstallsTheDownload(url: string, tag: string, externalDownloadsDir: string,
                                     files: set<string>, engine: Engine, autoInstall: bool, k: nat)
    requires engine.enqueueFault.None?
    requires k < |engine.rows| && engine.rows[k].Row? && engine.rows[k].status == Successful
    requires forall j | 0 <= j < k :: engine.rows[j].Row? && engine.rows[j].status != Successful
    requires var uri := engine.rows[k].localUri; |uri| >= |FILE_SCHEME| && uri[..|FILE_SCHEME|] == FILE_SCHEME
    ensures var run := DownloadSpecCorrected(url, tag, externalDownloadsDir, files, engine, autoInstall);
            && run.end == Downloaded
            && run.file == Some(LocalPathOf(engine.rows[k].localUri))
            && FILE_SCHEME + run.file.value == engine.rows[k].localUri
            && (autoInstall ==> run.effects[|run.effects| - 1].Install? &&
                                run.effects[|run.effects| - 1].intent.data == engine.rows[k].localUri)
  {
    FirstStopAt(engine.rows, k);
    InstallUriIsLocalUri(engine.rows[k].localUri, engine.mimeType);
  }

  /**
   * No status but SUCCESSFUL ends the loop: rows that are all PENDING,
   * RUNNING, PAUSED or FAILED leave the task polling, with no file and no
   * error.
   */
  lemma NoSuccessKeepsPolling(url: string, tag: string, externalDownloadsDir: string,
                              files: set<string>, engine: Engine, autoInstall: bool)
    requires engine.enqueueFault.None?
    requires forall j | 0 <= j < |engine.rows| :: engine.rows[j].Row? && engine.rows[j].status != Successful
    ensures var run := DownloadSpec(url, tag, externalDownloadsDir, files, engine, autoInstall);
            run.end == StillPolling && run.file.None? && run.errMsg.None? && PostExecuteToast(run.errMsg).None?
  {
  }

  /**
   * `errMsg = e.getMessage()`: the task ends in a fault exactly when building
   * or enqueueing the request throws, or the first stopping query finds an
   * empty cursor; `errMsg` is that exception's message, so one without a
   * message ends the task with no file and no error toast at all.
   */
  lemma SilentFaultWithoutMessage(url: string, tag: string, externalDownloadsDir: string,
                                  files: set<string>, engine: Engine, autoInstall: bool)
    ensures var run := DownloadSpec(url, tag, externalDownloadsDir, files, engine, autoInstall);
            var k := FirstStop(engine.rows);
            && (run.end == Faulted <==> engine.enqueueFault.Some? || (k.Some? && engine.rows[k.value].NoRow?))
            && (engine.enqueueFault.Some? ==> run.errMsg == engine.enqueueFault.value.message)
            && (engine.enqueueFault.None? && k.Some? && engine.rows[k.value].NoRow? ==>
                  run.errMsg == engine.rows[k.value].fault.message)
            && (run.end == Faulted ==> run.file.None? && (PostExecuteToast(run.errMsg).None? <==> run.errMsg.None?))
  {
  }
}
