/**
 * The public face of the library: the configuration the application sets
 * through fluent setters, and the three entry points that start work only
 * when the connectivity gate allows it (`runUpdateChecker`, `downloadUpdate`
 * and the connectivity receiver's `onReceive`).
 *
 * In the library the configuration lives in static fields, shared by every
 * `UpdateChecker` that `getInstance` creates. Here those fields are one
 * `SharedState` object, and every checker and receiver holds the same one.
 */
module UpdateCheckerApi {
  import opened Wrappers
  import opened JavaLang
  import opened Connectivity
  import opened UpdateTask
  import opened DownloadTask

  /** The configuration as a value: one field per static field of the library. */
  datatype Config = Config(
    listener: Option<Listener>,
    updateLogUrl: string,
    autoRun: bool,
    autoInstall: bool,
    updateOnWifiOnly: bool,
    jsonReader: Option<JsonReader>)

  /** The initial values of the static fields: no listener, empty URL, no auto-run, no auto-install, Wi-Fi only, no reader. */
  const Defaults: Config := Config(None, "", false, false, true, None)

  /** The static fields of `UpdateChecker`. */
  class SharedState {
    var listener: Option<Listener>
    var updateLogUrl: string
    var autoRun: bool
    var autoInstall: bool
    var updateOnWifiOnly: bool
    var jsonReader: Option<JsonReader>

    function Settings(): Config
      reads this
    {
      Config(listener, updateLogUrl, autoRun, autoInstall, updateOnWifiOnly, jsonReader)
    }

    /** The fields as the class is loaded. */
    constructor ()
      ensures Settings() == Defaults
      ensures !autoRun && !autoInstall && updateOnWifiOnly && updateLogUrl == "" && listener.None? && jsonReader.None?
    {
      listener, updateLogUrl := None, "";
      autoRun, autoInstall, updateOnWifiOnly := false, false, true;
      jsonReader := None;
    }
  }

  /** What `runUpdateChecker` does: refuse with a toast, or run the check task. */
  datatype RunSignal = NotConnectedToast | Checked(outcome: CheckOutcome)

  /** What `downloadUpdate` returns and what its task did; `end` is None when nothing was started. */
  datatype DownloadCall = DownloadCall(file: Option<string>, end: Option<TaskEnd>, effects: seq<Effect>, toast: Option<string>)

  class UpdateChecker {
    const shared: SharedState

    /** `getInstance(ctx)`: a new checker over the same static configuration. */
    constructor GetInstance(shared: SharedState)
      ensures this.shared == shared
    {
      this.shared := shared;
    }

    /** `shouldAutoRun`: sets only `autoRun` and returns the same checker. */
    method ShouldAutoRun(autoRun: bool) returns (self: UpdateChecker)
      modifies shared
      ensures self == this
      ensures shared.Settings() == old(shared.Settings()).(autoRun := autoRun)
    {
      shared.autoRun := autoRun;
      self := this;
    }

    /** `setUpdateLogsUrl`: sets only the update-log URL and returns the same checker. */
    method SetUpdateLogsUrl(updateLogsUrl: string) returns (self: UpdateChecker)
      modifies shared
      ensures self == this
      ensures shared.Settings() == old(shared.Settings()).(updateLogUrl := updateLogsUrl)
    {
      shared.updateLogUrl := updateLogsUrl;
      self := this;
    }

    /** `shouldAutoInstall`: sets only `autoInstall` and returns the same checker. */
    method ShouldAutoInstall(autoInstall: bool) returns (self: UpdateChecker)
      modifies shared
      ensures self == this
      ensures shared.Settings() == old(shared.Settings()).(autoInstall := autoInstall)
    {
      shared.autoInstall := autoInstall;
      self := this;
    }

    /** `shouldCheckUpdateOnWifiOnly`: sets only the Wi-Fi-only flag and returns the same checker. */
    method ShouldCheckUpdateOnWifiOnly(wifiOnly: bool) returns (self: UpdateChecker)
      modifies shared
      ensures self == this
      ensures shared.Settings() == old(shared.Settings()).(updateOnWifiOnly := wifiOnly)
    {
      shared.updateOnWifiOnly := wifiOnly;
      self := this;
    }

    /** `setOnUpdateDetectedListener`: sets only the listener (null allowed) and returns the same checker. */
    method SetOnUpdateDetectedListener(listener: Option<Listener>) returns (self: UpdateChecker)
      modifies shared
      ensures self == this
      ensures shared.Settings() == old(shared.Settings()).(listener := listener)
    {
      shared.listener := listener;
      self := this;
    }

    /** `setJsonReader`: sets only the JSON reader (null allowed) and returns the same checker. */
    method SetJsonReader(jsonReader: Option<JsonReader>) returns (self: UpdateChecker)
      modifies shared
      ensures self == this
      ensures shared.Settings() == old(shared.Settings()).(jsonReader := jsonReader)
    {
      shared.jsonReader := jsonReader;
      self := this;
    }

    /**
     * `runUpdateChecker`: evaluate the gate now; when it holds, run the check
     * task against the configured URL, otherwise only show the
     * "not connected" toast. `active` is the OS's active network, `server`
     * what an HTTP GET of a URL yields, `missingReader` the exception raised
     * when no JSON reader was set.
     */
    method RunUpdateChecker(active: Option<NetworkInfo>, server: string -> Connection, missingReader: Fault,
                            localVersionCode: int32) returns (r: RunSignal)
      ensures r.Checked? <==> IsConnected(active, shared.updateOnWifiOnly)
      ensures r.Checked? ==>
        r.outcome == CheckResult(server(shared.updateLogUrl), shared.jsonReader, missingReader,
                                 shared.listener, localVersionCode)
      ensures r.Checked? && r.outcome.UpdateDetected? ==>
        && shared.listener == Some(r.outcome.listener)
        && localVersionCode < r.outcome.info.appVersion
    {
      if IsConnected(active, shared.updateOnWifiOnly) {
        var outcome := ExecuteCheckTask(server(shared.updateLogUrl), shared.jsonReader, missingReader,
                                        shared.listener, localVersionCode);
        r := Checked(outcome);
      } else {
        r := NotConnectedToast;
      }
    }

    /**
     * `downloadUpdate(url, filename)`: when the gate refuses, return null
     * without starting anything; otherwise run the download task to its end
     * and return its file. The download directory, the existing files and
     * the engine are inputs.
     */
    static method DownloadUpdate(shared: SharedState, active: Option<NetworkInfo>, url: string, filename: string,
                                 externalDownloadsDir: string, files: set<string>, engine: Engine)
      returns (call: DownloadCall)
      ensures call.end.None? <==> !IsConnected(active, shared.updateOnWifiOnly)
      ensures call.end.None? ==> call.file.None? && call.effects == [] && call.toast.None?
      ensures call.end.Some? ==>
        var run := DownloadSpec(url, filename, externalDownloadsDir, files, engine, shared.autoInstall);
        && call.end == Some(run.end)
        && call.file == run.file
        && call.effects == run.effects
        && call.toast == PostExecuteToast(run.errMsg)
      ensures call.file.Some? ==> call.end == Some(Downloaded)
    {
      if !IsConnected(active, shared.updateOnWifiOnly) {
        return DownloadCall(None, None, [], None);
      }
      var file, errMsg, effects, end := DownloadInBackground(url, filename, externalDownloadsDir, files,
                                                             engine, shared.autoInstall);
      call := DownloadCall(file, Some(end), effects, PostExecuteToast(errMsg));
    }
  }

  /**
   * The receiver registered by `shouldAutoRun(true)`. It keeps no state: each
   * broadcast is judged on the network of that moment, so every broadcast
   * received while connected starts a new check, and `autoRun` is not
   * consulted again.
   */
  class ConnectivityReceiver {
    const shared: SharedState

    constructor (shared: SharedState)
      ensures this.shared == shared
    {
      this.shared := shared;
    }

    /** `onReceive`: run the check task when the gate holds, do nothing otherwise. */
    method OnReceive(active: Option<NetworkInfo>, server: string -> Connection, missingReader: Fault,
                     localVersionCode: int32) returns (r: Option<CheckOutcome>)
      ensures r.Some? <==> IsConnected(active, shared.updateOnWifiOnly)
      ensures r.Some? ==>
        r.value == CheckResult(server(shared.updateLogUrl), shared.jsonReader, missingReader,
                               shared.listener, localVersionCode)
    {
      if IsConnected(active, shared.updateOnWifiOnly) {
        var outcome := ExecuteCheckTask(server(shared.updateLogUrl), shared.jsonReader, missingReader,
                                        shared.listener, localVersionCode);
        r := Some(outcome);
      } else {
        r := None;
      }
    }
  }

  /**
   * A client: configuring through one checker is seen by another checker and
   * by the receiver, and setters leave the other fields at their defaults.
   */
  method ConfigureThenCheck(server: string -> Connection, missingReader: Fault, localVersionCode: int32,
                            url: string, listener: Listener)
    returns (first: RunSignal, again: Option<CheckOutcome>)
    ensures first.Checked? && again.Some? && first.outcome == again.value
    ensures first.outcome == CheckResult(server(url), None, missingReader, Some(listener), localVersionCode)
  {
    var shared := new SharedState();
    var a := new UpdateChecker.GetInstance(shared);
    var b := new UpdateChecker.GetInstance(shared);
    var c := a.SetUpdateLogsUrl(url);
    c := c.SetOnUpdateDetectedListener(Some(listener));
    c := c.ShouldCheckUpdateOnWifiOnly(false);
    assert shared.Settings() == Defaults.(updateLogUrl := url).(listener := Some(listener)).(updateOnWifiOnly := false);
    var receiver := new ConnectivityReceiver(shared);
    var mobile := Some(NetworkInfo(Mobile, true));
    first := b.RunUpdateChecker(mobile, server, missingReader, localVersionCode);
    again := receiver.OnReceive(mobile, server, missingReader, localVersionCode);
  }
}
