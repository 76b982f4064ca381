/** The `start` request of a WebSocket client, in the monolithic server
    (server.js, `handleStart`) and in the session module
    (src-server/websocketHandlers.js, `handleStart`): the checks that refuse
    a request, the options, session id and port a session starts with, and
    the refusal `setupScrcpySession` adds when no stream is enabled. The
    device lists, the output of the version query and the random bytes of
    the session id are parameters; the session set-up on the device is not
    part of this model. */
module StartRequests {
  import opened Wrappers
  import opened Bytes
  import opened Text
  import opened SessionOptions
  import Demux

  /** A device as `adb devices` lists it: its serial and its state
      (`device`, `unauthorized`, `offline`, ...). */
  datatype Device = Device(id: string, kind: string)

  /** The record a server keeps per WebSocket client: the session id of
      its running session, if any. */
  datatype Client = Client(session: Option<string>)

  /** What a start request leads to: the error message sent back, or a
      session started for a device with a session id, a TCP port, the
      server options and, for the session module, a status notice. The
      client's record then holds the session id. */
  datatype StartReply =
    | Refused(message: string)
    | Started(deviceId: string, scid: string, port: nat, options: Options, notice: Option<string>)

  // ---------------------------------------------------------------------
  // The monolithic server

  /** The checks of the monolithic server: a known client without a
      session, and at least one device, of which the first one is used. */
  function LegacyChecks(client: Option<Client>, devices: seq<Device>): (r: Result<string>)
    ensures r.Ok? <==> client.Some? && client.value.session.None? && devices != []
    ensures r.Ok? ==> r.value == devices[0].id
    ensures client.None? ==> r == Err("Internal error: Client not found.")
    ensures client.Some? && client.value.session.Some? ==> r == Err("Session already active")
    ensures client.Some? && client.value.session.None? && devices == [] ==>
      r == Err("Setup failed: No devices found via ADB")
  {
    if client.None? then Err("Internal error: Client not found.")
    else if client.value.session.Some? then Err("Session already active")
    else if devices == [] then Err("Setup failed: No devices found via ADB")
    else Ok(devices[0].id)
  }

  /** `handleStart` of the monolithic server. */
  method LegacyHandleStart(debug: bool, client: Option<Client>, devices: seq<Device>, m: LegacyStart,
                           random: seq<byte>, sessionCount: nat) returns (reply: StartReply)
    requires |random| == 4
    ensures LegacyChecks(client, devices).Err? ==> reply == Refused(LegacyChecks(client, devices).msg)
    ensures LegacyChecks(client, devices).Ok? && m.videoOff && !m.enableAudio && !m.enableControl ==>
      reply == Refused("Setup failed: No streams (video, audio, control) enabled.")
    ensures reply.Started? <==>
      LegacyChecks(client, devices).Ok? && !(m.videoOff && !m.enableAudio && !m.enableControl)
    ensures reply.Started? ==>
      && reply.deviceId == devices[0].id
      && reply.scid == Scid(random) && reply.port == Port(sessionCount) && reply.notice == None
      && Streams(reply.options) == Demux.ExpectedSockets(!m.videoOff, m.enableAudio, m.enableControl)
      && reply.options.keys == LegacyKeys(m)
  {
    var checks := LegacyChecks(client, devices);
    if checks.Err? {
      return Refused(checks.msg);
    }
    var o := LegacyRunOptions(debug, m);
    var scid := Scid(random);
    var port := Port(sessionCount);
    LegacyStreams(debug, m, o);
    if Streams(o).Err? {
      return Refused("Setup failed: No streams (video, audio, control) enabled.");
    }
    reply := Started(checks.value, scid, port, o, None);
  }

  // ---------------------------------------------------------------------
  // The session module

  /** `versionOutput.trim().match(/^(\d+)/)` and `parseInt` of the match:
      the leading digits of the trimmed output, or the error thrown when it
      does not start with a digit. */
  function AndroidVersion(output: string): (r: Result<nat>)
    ensures r.Err? <==> LeadingDigits(Trim(output)) == 0
    ensures r.Err? ==> r.msg == "Invalid Android version: " + Trim(output)
  {
    var t := Trim(output);
    var n := LeadingDigits(t);
    if n == 0 then Err("Invalid Android version: " + t) else Ok(DigitsValue(t[..n]))
  }

  /** A version string such as `11` or `13.0.1`, surrounded by white space
      as a shell prints it, gives its major version. */
  lemma AndroidVersionOf(pre: string, v: nat, rest: string)
    requires forall i :: 0 <= i < |pre| ==> IsSpace(pre[i])
    requires rest == [] || !IsDigit(rest[0])
    ensures AndroidVersion(pre + NatToString(v) + rest) == Ok(v)
  {
    var d := NatToString(v);
    assert pre + d + rest == pre + (d + rest);
    TrimStartPast(pre, d + rest);
    TrimmedDigits(d, rest);
    DigitsOfNat(v);
  }

  /** Trimming the end of digits followed by a non-digit keeps the digits
      as the leading digit run. */
  lemma TrimmedDigits(d: string, rest: string)
    requires DigitRun(d)
    requires rest == [] || !IsDigit(rest[0])
    ensures |TrimEnd(d + rest)| >= |d|
    ensures TrimEnd(d + rest)[..|d|] == d
    ensures LeadingDigits(TrimEnd(d + rest)) == |d|
  {
    var s := d + rest;
    assert s[|d| - 1] == d[|d| - 1];
    TrimEndKeeps(s, |d|);
    var t := TrimEnd(s);
    assert t == s[..|t|];
    assert t[..|d|] == d;
    assert t == d + t[|d|..];
    if |t| > |d| {
      assert t[|d|..][0] == s[|d|] == rest[0];
    }
    LeadingDigitsOf(d, t[|d|..]);
  }

  /** The index of the first device with serial `id` at or after `from`. */
  function FirstWithId(all: seq<Device>, id: string, from: nat): (r: Option<nat>)
    requires from <= |all|
    ensures r.Some? ==> from <= r.value < |all| && all[r.value].id == id
    ensures r.Some? ==> forall j :: from <= j < r.value ==> all[j].id != id
    ensures r.None? ==> forall j :: from <= j < |all| ==> all[j].id != id
    decreases |all| - from
  {
    if from == |all| then None
    else if all[from].id == id then Some(from)
    else FirstWithId(all, id, from + 1)
  }

  /** `allDevices.find(d => d.id === deviceId)?.type || 'not found'`. */
  function DeviceStatus(all: seq<Device>, id: string): (r: string)
    ensures (forall j :: 0 <= j < |all| ==> all[j].id != id) ==> r == "not found"
    ensures r != "not found" ==> exists i :: 0 <= i < |all| && all[i].id == id && all[i].kind == r
  {
    var i := FirstWithId(all, id, 0);
    if i.Some? && all[i.value].kind != "" then all[i.value].kind else "not found"
  }

  /** The status shown is the state of the first listing of the device. */
  lemma DeviceStatusFirst(all: seq<Device>, id: string, i: nat)
    requires i < |all| && all[i].id == id && all[i].kind != ""
    requires forall j :: 0 <= j < i ==> all[j].id != id
    ensures DeviceStatus(all, id) == all[i].kind
  {
    var f := FirstWithId(all, id, 0);
    assert f == Some(i);
  }

  /** The checks of the session module, in order: a known client without a
      session, a device id, a device in state `device`, and a version
      output that starts with digits; the result is the major version. A
      missing `deviceId` is the empty string here. */
  function StartChecks(client: Option<Client>, deviceId: string, devices: seq<Device>, all: seq<Device>,
                       versionOutput: string): (r: Result<nat>)
    ensures r.Ok? <==>
      && client.Some? && client.value.session.None? && deviceId != ""
      && Device(deviceId, "device") in devices && AndroidVersion(versionOutput).Ok?
    ensures r.Ok? ==> r == AndroidVersion(versionOutput)
  {
    if client.None? then Err("Internal error")
    else if client.value.session.Some? then Err("Session already active")
    else if deviceId == "" then Err("No device selected.")
    else if Device(deviceId, "device") !in devices then
      Err("Device \"" + deviceId + "\" not available (status: " + DeviceStatus(all, deviceId) + ").")
    else
      match AndroidVersion(versionOutput)
      case Err(e) => Err("Setup failed: " + e)
      case Ok(v) => Ok(v)
  }

  /** The refusals of the session module for the client and the device
      id: the first check that fails decides. */
  lemma ClientRefusals(client: Option<Client>, deviceId: string, devices: seq<Device>, all: seq<Device>,
                       versionOutput: string)
    ensures client.None? ==> StartChecks(client, deviceId, devices, all, versionOutput) == Err("Internal error")
    ensures client.Some? && client.value.session.Some? ==>
      StartChecks(client, deviceId, devices, all, versionOutput) == Err("Session already active")
    ensures client.Some? && client.value.session.None? && deviceId == "" ==>
      StartChecks(client, deviceId, devices, all, versionOutput) == Err("No device selected.")
  {
  }

  /** A device not in state `device` is refused with the state it is
      listed in. */
  lemma UnavailableRefusal(client: Client, deviceId: string, devices: seq<Device>, all: seq<Device>,
                           versionOutput: string)
    requires client.session.None? && deviceId != "" && Device(deviceId, "device") !in devices
    ensures StartChecks(Some(client), deviceId, devices, all, versionOutput)
      == Err("Device \"" + deviceId + "\" not available (status: " + DeviceStatus(all, deviceId) + ").")
  {
  }

  /** A version output that does not start with digits fails the setup. */
  lemma VersionRefusal(client: Client, deviceId: string, devices: seq<Device>, all: seq<Device>,
                       versionOutput: string)
    requires client.session.None? && deviceId != "" && Device(deviceId, "device") in devices
    requires AndroidVersion(versionOutput).Err?
    ensures StartChecks(Some(client), deviceId, devices, all, versionOutput)
      == Err("Setup failed: Invalid Android version: " + Trim(versionOutput))
  {
    var e := AndroidVersion(versionOutput).msg;
    assert e == "Invalid Android version: " + Trim(versionOutput);
    assert "Setup failed: " + e == "Setup failed: Invalid Android version: " + Trim(versionOutput);
  }

  /** `handleStart` of the session module: the checks, then the session
      for the device's major version. */
  method HandleStart(debug: bool, client: Option<Client>, msg: StartMessage, deviceId: string,
                     devices: seq<Device>, all: seq<Device>, versionOutput: string,
                     random: seq<byte>, sessionCount: nat) returns (reply: StartReply)
    requires |random| == 4
    ensures StartChecks(client, deviceId, devices, all, versionOutput).Err? ==>
      reply == Refused(StartChecks(client, deviceId, devices, all, versionOutput).msg)
    ensures StartChecks(client, deviceId, devices, all, versionOutput).Ok? ==>
      SessionReply(reply, debug, msg, deviceId, StartChecks(client, deviceId, devices, all, versionOutput).value,
                   Scid(random), sessionCount)
  {
    var checks := StartChecks(client, deviceId, devices, all, versionOutput);
    if checks.Err? {
      return Refused(checks.msg);
    }
    var scid := Scid(random);
    reply := StartSession(debug, msg, deviceId, checks.value, scid, sessionCount);
  }

  /** What the session module replies once the checks passed on a device
      of major version `v`: with no stream enabled the setup fails;
      otherwise the session has the session id and port of the request, the
      streams the options enable and the status notice for dropped audio. */
  predicate SessionReply(reply: StartReply, debug: bool, msg: StartMessage, deviceId: string, v: nat,
                         scid: string, sessionCount: nat)
  {
    && (reply.Started? <==> !(msg.videoOff && !(v >= 11 && msg.enableAudio) && !msg.enableControl))
    && (reply.Refused? ==> reply.message == "Setup failed: No streams enabled.")
    && (reply.Started? ==>
          && reply.deviceId == deviceId
          && reply.scid == scid && reply.port == Port(sessionCount)
          && reply.notice == AudioNotice(msg, v)
          && Streams(reply.options) == Demux.ExpectedSockets(!msg.videoOff, v >= 11 && msg.enableAudio, msg.enableControl)
          && reply.options.keys == StartKeys(msg))
  }

  /** The session part of `handleStart`: the options for major version
      `v`, the port, and the refusal `setupScrcpySession` throws when no
      stream is enabled. */
  method StartSession(debug: bool, msg: StartMessage, deviceId: string, v: nat,
                      scid: string, sessionCount: nat) returns (reply: StartReply)
    ensures SessionReply(reply, debug, msg, deviceId, v, scid, sessionCount)
  {
    var o := SessionStartOptions(debug, msg, v);
    var port := Port(sessionCount);
    var streams := Streams(o);
    assert streams.Err? <==> msg.videoOff && !(v >= 11 && msg.enableAudio) && !msg.enableControl;
    if streams.Err? {
      return Refused("Setup failed: " + streams.msg);
    }
    reply := Started(deviceId, scid, port, o, AudioNotice(msg, v));
  }

  /** The options of the session module with the two facts the reply needs:
      their key order and the streams they enable. */
  method SessionStartOptions(debug: bool, msg: StartMessage, v: nat) returns (o: Options)
    ensures o.keys == StartKeys(msg)
    ensures Streams(o) == Demux.ExpectedSockets(!msg.videoOff, v >= 11 && msg.enableAudio, msg.enableControl)
  {
    o := StartOptions(debug, msg, v);
    StartStreams(o, msg, v);
  }
}
