/**
 * `TaskUpdateChecker`: the background fetch of the update log and the
 * decision taken with its result on the UI thread.
 *
 * The HTTP exchange is an input (`Connection`); the body arrives as the
 * sequence of `InputStream.read` results, end of stream being the end of
 * the sequence. The JSON reader is a function supplied by the application.
 */
module UpdateTask {
  import opened Wrappers
  import opened JavaLang

  /** `HttpURLConnection.HTTP_OK`. */
  const HTTP_OK: int := 200

  /** `NewUpdateInfo`: what the JSON reader extracts from the update log. */
  datatype NewUpdateInfo = NewUpdateInfo(
    appUpdateUrl: string,
    appVersionName: string,
    appDescription: string,
    appVersion: int32)

  /**
   * An `OnUpdateDetectedListener` registered by the application, known by its
   * name, with the exception its `onUpdateDetected` throws, if any.
   */
  datatype Listener = Listener(name: string, fault: Option<Fault>)

  /** What `JSONReader.readJson` does with a body: return an info (or null), or throw. */
  datatype ReadJsonResult = Returned(info: Option<NewUpdateInfo>) | Threw(fault: Fault)

  /** A JSON reader, `readJson` as a function of the body text. */
  type JsonReader = string -> ReadJsonResult

  /** One call of `InputStream.read(buffer)`: a chunk of text, or an I/O exception (a read timeout, say). */
  datatype ReadStep = Chunk(text: string) | ReadFailed(fault: Fault)

  /**
   * The HTTP exchange with the update-log URL: either building the URL,
   * connecting or reading the status threw, or the server answered with a
   * status code and a body.
   */
  datatype Connection = Unreachable(fault: Fault) | Response(code: int, body: seq<ReadStep>)

  /** What `doInBackground` leaves behind: its return value and the task's `errMsg` field. */
  datatype FetchResult = FetchResult(info: Option<NewUpdateInfo>, errMsg: Option<string>)

  /** The body text made of the chunks of `steps`, in order (failed steps contribute nothing). */
  function Joined(steps: seq<ReadStep>): string
  {
    if steps == [] then ""
    else Joined(steps[..|steps| - 1]) + (match steps[|steps| - 1] case Chunk(t) => t case ReadFailed(_) => "")
  }

  /** The exception of the first read that fails, if any. */
  function FirstFault(steps: seq<ReadStep>): (f: Option<Fault>)
    ensures f.None? <==> forall i | 0 <= i < |steps| :: steps[i].Chunk?
  {
    if steps == [] then None
    else match steps[0]
      case ReadFailed(f) => Some(f)
      case Chunk(_) =>
        var rest := FirstFault(steps[1..]);
        assert forall i | 1 <= i < |steps| :: steps[i] == steps[1..][i - 1];
        rest
  }

  /** Reading one more chunk appends its text to the body. */
  lemma {:induction false} JoinedNext(steps: seq<ReadStep>, i: nat)
    requires i < |steps| && steps[i].Chunk?
    ensures Joined(steps[..i + 1]) == Joined(steps[..i]) + steps[i].text
  {
    assert steps[..i + 1][..i] == steps[..i];
  }

  /** The body is the concatenation of the chunks: splitting the steps splits the body. */
  lemma {:induction false} JoinedAppend(a: seq<ReadStep>, b: seq<ReadStep>)
    ensures Joined(a + b) == Joined(a) + Joined(b)
    decreases |b|
  {
    if b == [] {
      assert a + b == a;
    } else {
      var last := b[|b| - 1];
      var front := b[..|b| - 1];
      assert a + b == (a + front) + [last];
      assert (a + b)[..|a + b| - 1] == a + front;
      JoinedAppend(a, front);
    }
  }

  /** `errMsg += e.getMessage()` on a fresh task, whose `errMsg` is still null. */
  function RecordError(f: Fault): (msg: string)
    ensures msg == "null" + JavaString(f.message)
    ensures |msg| >= 4 && msg[..4] == "null"
  {
    JavaString(None) + JavaString(f.message)
  }

  /**
   * Specification of `doInBackground`: the info and `errMsg` it leaves for
   * a given exchange, reader (None when the application set none, in which
   * case calling it throws `missingReader`) and body.
   */
  function Fetched(conn: Connection, reader: Option<JsonReader>, missingReader: Fault): (r: FetchResult)
    // A non-200 status is not an error: no info and nothing recorded.
    ensures conn.Response? && conn.code != HTTP_OK ==> r == FetchResult(None, None)
    // An info is produced only from a complete 200 body, by the reader, and with no error recorded.
    ensures r.info.Some? ==>
      && r.errMsg.None?
      && conn.Response? && conn.code == HTTP_OK
      && (forall i | 0 <= i < |conn.body| :: conn.body[i].Chunk?)
      && reader.Some? && reader.value(Joined(conn.body)) == Returned(r.info)
    // Every exception is recorded, even one with a null message, and the record starts with "null".
    ensures r.errMsg.Some? ==> |r.errMsg.value| >= 4 && r.errMsg.value[..4] == "null"
    ensures conn.Unreachable? ==> r == FetchResult(None, Some(RecordError(conn.fault)))
    // A 200 body read to its end is handed to the reader, and the reader's result is the info.
    ensures conn.Response? && conn.code == HTTP_OK && FirstFault(conn.body).None? && reader.Some? &&
            reader.value(Joined(conn.body)).Returned? ==>
              r.info == reader.value(Joined(conn.body)).info
    // On a 200 answer, the exception recorded is that of the first failed read,
    // else the one for the missing reader, else the one the reader threw.
    ensures conn.Response? && conn.code == HTTP_OK && FirstFault(conn.body).Some? ==>
              r == FetchResult(None, Some(RecordError(FirstFault(conn.body).value)))
    ensures conn.Response? && conn.code == HTTP_OK && FirstFault(conn.body).None? && reader.None? ==>
              r == FetchResult(None, Some(RecordError(missingReader)))
    ensures conn.Response? && conn.code == HTTP_OK && FirstFault(conn.body).None? && reader.Some? &&
            reader.value(Joined(conn.body)).Threw? ==>
              r == FetchResult(None, Some(RecordError(reader.value(Joined(conn.body)).fault)))
    // Nothing is recorded exactly when the answer is not 200, or the whole body was read and the reader returned.
    ensures r.errMsg.None? <==>
      conn.Response? &&
      (conn.code != HTTP_OK ||
       (FirstFault(conn.body).None? && reader.Some? && reader.value(Joined(conn.body)).Returned?))
  {
    match conn
    case Unreachable(f) => FetchResult(None, Some(RecordError(f)))
    case Response(code, body) =>
      if code != HTTP_OK then FetchResult(None, None)
      else match FirstFault(body)
        case Some(f) => FetchResult(None, Some(RecordError(f)))
        case None =>
          match reader
          case None => FetchResult(None, Some(RecordError(missingReader)))
          case Some(read) =>
            match read(Joined(body))
            case Returned(info) => FetchResult(info, None)
            case Threw(f) => FetchResult(None, Some(RecordError(f)))
  }

  /**
   * The body-read loop: calls `read` until end of stream, appending each
   * chunk; an I/O exception ends it.
   */
  method ReadBody(steps: seq<ReadStep>) returns (json: string, fault: Option<Fault>)
    ensures fault == FirstFault(steps)
    ensures fault.None? ==> json == Joined(steps)
  {
    json := "";
    var i := 0;
    while i < |steps|
      invariant 0 <= i <= |steps|
      invariant forall j | 0 <= j < i :: steps[j].Chunk?
      invariant json == Joined(steps[..i])
    {
      var step := steps[i];
      if step.ReadFailed? {
        fault := Some(step.fault);
        FirstFaultAt(steps, i);
        return;
      }
      JoinedNext(steps, i);
      json := json + step.text;
      i := i + 1;
    }
    assert steps[..i] == steps;
    fault := None;
  }

  /** The first failing read determines `FirstFault`. */
  lemma {:induction false} FirstFaultAt(steps: seq<ReadStep>, k: nat)
    requires k < |steps| && steps[k].ReadFailed?
    requires forall j | 0 <= j < k :: steps[j].Chunk?
    ensures FirstFault(steps) == Some(steps[k].fault)
  {
    if k > 0 {
      FirstFaultAt(steps[1..], k - 1);
    }
  }

  /**
   * `doInBackground`: fetch the update log and hand the body to the reader.
   * Only a 200 response is read; any exception is caught and recorded.
   */
  method FetchInBackground(conn: Connection, reader: Option<JsonReader>, missingReader: Fault)
    returns (info: Option<NewUpdateInfo>, errMsg: Option<string>)
    ensures FetchResult(info, errMsg) == Fetched(conn, reader, missingReader)
  {
    info, errMsg := None, None;
    match conn
    case Unreachable(f) =>
      errMsg := Some(RecordError(f));
    case Response(code, body) =>
      if code == HTTP_OK {
        var json, fault := ReadBody(body);
        if fault.Some? {
          errMsg := Some(RecordError(fault.value));
        } else if reader.None? {
          errMsg := Some(RecordError(missingReader));
        } else {
          match reader.value(json)
          case Returned(i) => info := i;
          case Threw(f) => errMsg := Some(RecordError(f));
        }
      }
  }

  /**
   * What `onPostExecute` does. A notification is followed by the catch's
   * exception toast when the listener throws (`thenExceptionToast`).
   */
  datatype CheckOutcome =
    | UpdateDetected(listener: Listener, info: NewUpdateInfo, thenExceptionToast: bool)  // listener.onUpdateDetected(result)
    | LatestVersionToast                                       // "You have the latest version!"
    | ErrorToast(errMsg: Option<string>)                      // "[ERROR]: %s" with errMsg
    | TaskExceptionToast                                       // the catch: dereferencing a null result

  /**
   * `onPostExecute`: with a listener set and no error recorded, compare the
   * installed version code with the remote one (strictly); otherwise report
   * `errMsg`. A null result with a listener and no error is dereferenced and
   * ends in the catch, and so does a listener that throws once notified.
   */
  function PostExecute(listener: Option<Listener>, errMsg: Option<string>, result: Option<NewUpdateInfo>,
                       localVersionCode: int32): (o: CheckOutcome)
    ensures o.UpdateDetected? <==>
      listener.Some? && errMsg.None? && result.Some? && localVersionCode < result.value.appVersion
    ensures o.UpdateDetected? ==> o.listener == listener.value && o.info == result.value
    ensures o.UpdateDetected? ==> (o.thenExceptionToast <==> listener.value.fault.Some?)
    ensures o.LatestVersionToast? <==>
      listener.Some? && errMsg.None? && result.Some? && result.value.appVersion <= localVersionCode
    ensures o.ErrorToast? <==> listener.None? || errMsg.Some?
    ensures o.ErrorToast? ==> o.errMsg == errMsg
    ensures o.TaskExceptionToast? <==> listener.Some? && errMsg.None? && result.None?
  {
    if listener.Some? && errMsg.None? then
      match result
      case None => TaskExceptionToast
      case Some(info) =>
        if localVersionCode < info.appVersion then UpdateDetected(listener.value, info, listener.value.fault.Some?)
        else LatestVersionToast
    else
      ErrorToast(errMsg)
  }

  /** The whole task, background fetch then `onPostExecute`, as one value. */
  function CheckResult(conn: Connection, reader: Option<JsonReader>, missingReader: Fault,
                       listener: Option<Listener>, localVersionCode: int32): CheckOutcome
  {
    var f := Fetched(conn, reader, missingReader);
    PostExecute(listener, f.errMsg, f.info, localVersionCode)
  }

  /**
   * The listener hears of an update exactly when it is set, the server
   * answered 200 with a body read to its end, the reader returned an info for
   * that body, and the installed version code is strictly below the remote one.
   * It is handed that info, and the exception toast follows iff it throws.
   */
  lemma UpdateDetectedIff(conn: Connection, reader: Option<JsonReader>, missingReader: Fault,
                          listener: Option<Listener>, localVersionCode: int32)
    ensures var o := CheckResult(conn, reader, missingReader, listener, localVersionCode);
            o.UpdateDetected? ==>
              && Some(o.info) == reader.value(Joined(conn.body)).info
              && (o.thenExceptionToast <==> listener.value.fault.Some?)
    ensures CheckResult(conn, reader, missingReader, listener, localVersionCode).UpdateDetected? <==>
      && listener.Some?
      && conn.Response? && conn.code == HTTP_OK
      && (forall i | 0 <= i < |conn.body| :: conn.body[i].Chunk?)
      && reader.Some?
      && reader.value(Joined(conn.body)).Returned?
      && reader.value(Joined(conn.body)).info.Some?
      && localVersionCode < reader.value(Joined(conn.body)).info.value.appVersion
  {
  }

  /**
   * "Latest version" is shown exactly when the listener is set, the server
   * answered 200 with a body read to its end, the reader returned an info for
   * that body, and the remote version code is at most the installed one.
   */
  lemma LatestVersionIff(conn: Connection, reader: Option<JsonReader>, missingReader: Fault,
                         listener: Option<Listener>, localVersionCode: int32)
    ensures CheckResult(conn, reader, missingReader, listener, localVersionCode).LatestVersionToast? <==>
      && listener.Some?
      && conn.Response? && conn.code == HTTP_OK
      && (forall i | 0 <= i < |conn.body| :: conn.body[i].Chunk?)
      && reader.Some?
      && reader.value(Joined(conn.body)).Returned?
      && reader.value(Joined(conn.body)).info.Some?
      && reader.value(Joined(conn.body)).info.value.appVersion <= localVersionCode
  {
  }

  /** A non-200 answer with a listener set ends in the catch of `onPostExecute`, not in "latest version". */
  lemma Non200WithListener(code: int, body: seq<ReadStep>, reader: Option<JsonReader>, missingReader: Fault,
                           listener: Listener, localVersionCode: int32)
    requires code != HTTP_OK
    ensures CheckResult(Response(code, body), reader, missingReader, Some(listener), localVersionCode)
      == TaskExceptionToast
  {
  }

  /** Without a listener the task always reports an error, even when nothing went wrong ("[ERROR]: null"). */
  lemma NoListenerAlwaysError(conn: Connection, reader: Option<JsonReader>, missingReader: Fault,
                              localVersionCode: int32)
    ensures CheckResult(conn, reader, missingReader, None, localVersionCode).ErrorToast?
  {
  }

  /**
   * "Latest version" is stable: with the same server answer, an installed
   * version code at least as high gets the same message.
   */
  lemma UpToDateIsStable(conn: Connection, reader: Option<JsonReader>, missingReader: Fault,
                         listener: Listener, localVersionCode: int32)
    requires CheckResult(conn, reader, missingReader, Some(listener), localVersionCode) == LatestVersionToast
    ensures forall newer: int32 | localVersionCode <= newer ::
      CheckResult(conn, reader, missingReader, Some(listener), newer) == LatestVersionToast
  {
  }

  /**
   * The sequential run of the task: `doInBackground`, then `onPostExecute`
   * reading the listener and the installed version code.
   */
  method ExecuteCheckTask(conn: Connection, reader: Option<JsonReader>, missingReader: Fault,
                          listener: Option<Listener>, localVersionCode: int32) returns (o: CheckOutcome)
    ensures o == CheckResult(conn, reader, missingReader, listener, localVersionCode)
    ensures o.UpdateDetected? ==> conn.Response? && conn.code == HTTP_OK && localVersionCode < o.info.appVersion
  {
    var info, errMsg := FetchInBackground(conn, reader, missingReader);
    o := PostExecute(listener, errMsg, info, localVersionCode);
  }
}
