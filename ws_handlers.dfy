/** The WebSocket handlers of the session server
    (src-server/websocketHandlers.js) beyond `start`: the ADB commands a
    client sends (display list, overlay, window size and density, screen
    rotation with its saved initial state, and the clean-up when a stream
    ends), the volume commands, and the dispatch of actions. A device shell
    is the parameter `shell`, as in the ADB helpers. */
module WsHandlers {
  import opened Wrappers
  import opened Text
  import opened AdbService
  import Bytes

  // ---------------------------------------------------------------------
  // Screen rotation

  const GET_USER_ROTATION := "settings get system user_rotation"
  const GET_ACCEL_ROTATION := "settings get system accelerometer_rotation"
  const LOCK_ACCEL := "settings put system accelerometer_rotation 0"

  function PutUserRotation(v: int): string { "settings put system user_rotation " + IntToString(v) }

  function PutAccelRotation(v: int): string { "settings put system accelerometer_rotation " + IntToString(v) }

  /** A setting read from a shell result: the number its output starts
      with, or `fallback` when the command failed or printed no number. */
  function SettingOr(r: ShellResult, fallback: int): int
  {
    if r.ShellOk? && ParseInt(r.output).Some? then ParseInt(r.output).value else fallback
  }

  /** A printed setting is read back; a failed read gives the fallback. */
  lemma SettingOrReads(n: nat, error: string, fallback: int)
    ensures SettingOr(ShellOk(NatToString(n)), fallback) == n
    ensures SettingOr(ShellFailed(error), fallback) == fallback
  {
    ParseIntOfNat(n);
  }

  /** `(currentRotation + 1) % 4`. */
  function NextRotation(current: int): int
  {
    Bytes.JsRem(current + 1, 4)
  }

  /** From a rotation Android reports (0 to 3) the next one is the
      following quarter turn, and four turns come back. */
  lemma NextRotationCycles(current: int)
    requires 0 <= current < 4
    ensures 0 <= NextRotation(current) < 4
    ensures NextRotation(current) == (current + 1) % 4
    ensures NextRotation(NextRotation(NextRotation(NextRotation(current)))) == current
  {
  }

  /** The rotation a device had before the first rotate request. */
  datatype Saved = Saved(userRotation: int, accelerometerRotation: int)

  /** What a rotation request reads first on a device without saved state:
      the user rotation (0 when unreadable) and the accelerometer flag (1
      when unreadable). */
  function InitialRotation(shell: string -> Result<string>): Saved
  {
    Saved(SettingOr(ExecuteAdbShell(shell, GET_USER_ROTATION), 0),
          SettingOr(ExecuteAdbShell(shell, GET_ACCEL_ROTATION), 1))
  }

  /** The saved rotations after a rotate request: the first one for a
      device is saved, later ones keep it. */
  function RotateStates(states: map<string, Saved>, deviceId: string, shell: string -> Result<string>): (r: map<string, Saved>)
    ensures deviceId in r && r.Keys == states.Keys + {deviceId}
    ensures deviceId in states ==> r == states
    ensures forall d :: d in states && d != deviceId ==> r[d] == states[d]
  {
    if deviceId in states then states else states[deviceId := InitialRotation(shell)]
  }

  /** The saved rotations after a clean-up: the device's entry goes only
      in the native-taskbar mode. */
  function CleanupStates(states: map<string, Saved>, deviceId: string, mode: string): (r: map<string, Saved>)
    ensures mode == NATIVE_TASKBAR ==> deviceId !in r && r.Keys == states.Keys - {deviceId}
    ensures mode != NATIVE_TASKBAR ==> r == states
    ensures forall d :: d in states && d != deviceId ==> d in r && r[d] == states[d]
  {
    if mode == NATIVE_TASKBAR then states - {deviceId} else states
  }

  /** A saved rotation survives later rotate requests. */
  lemma RotateSavesOnce(states: map<string, Saved>, deviceId: string, first: string -> Result<string>, later: string -> Result<string>)
    ensures RotateStates(RotateStates(states, deviceId, first), deviceId, later)[deviceId]
         == RotateStates(states, deviceId, first)[deviceId]
    ensures deviceId !in states ==> RotateStates(states, deviceId, first)[deviceId] == InitialRotation(first)
  {
  }

  /** Rotating a device for the first time and cleaning up its native
      taskbar mode leaves the saved rotations as they were. */
  lemma RotateThenCleanup(states: map<string, Saved>, deviceId: string, shell: string -> Result<string>)
    requires deviceId !in states
    ensures CleanupStates(RotateStates(states, deviceId, shell), deviceId, NATIVE_TASKBAR) == states
  {
    var r := RotateStates(states, deviceId, shell);
    assert r == states[deviceId := InitialRotation(shell)];
    assert r - {deviceId} == states;
  }

  /** What an ADB command answers. Each case is one shape of the result
      object: a shell result (with the rotation message when given), a
      display listing, a clean-up summary, or a failure. */
  datatype AdbResult =
    | FromShell(shell: ShellResult, message: Option<string>)
    | FromListing(listing: DisplayListing)
    | Summary(summary: string)
    | Failure(error: string)

  /** The `success` field of the reply. */
  predicate Succeeded(r: AdbResult)
  {
    match r
    case FromShell(s, _) => s.ShellOk?
    case FromListing(l) => l.Displays?
    case Summary(_) => true
    case Failure(_) => false
  }

  /** The rotation a rotate request sets: a quarter turn past the current
      one. */
  function NextFrom(shell: string -> Result<string>): int
  {
    NextRotation(SettingOr(ExecuteAdbShell(shell, GET_USER_ROTATION), 0))
  }

  /** The result of a rotate request: that of setting the next rotation,
      with a message on success. */
  function RotateResult(shell: string -> Result<string>): AdbResult
  {
    var res := ExecuteAdbShell(shell, PutUserRotation(NextFrom(shell)));
    FromShell(res, if res.ShellOk? then Some(RotatedMessage(NextFrom(shell))) else None)
  }

  function RotatedMessage(rotation: int): string
  {
    "Screen rotated to " + IntToString(rotation * 90) + " degrees."
  }

  /** The commands a rotate request sends, in order: the initial reads when
      nothing is saved, the current rotation, the accelerometer lock and the
      next rotation. */
  function RotateCommands(saved: bool, shell: string -> Result<string>): seq<string>
  {
    (if saved then [] else [GET_USER_ROTATION, GET_ACCEL_ROTATION]) + [GET_USER_ROTATION, LOCK_ACCEL, PutUserRotation(NextFrom(shell))]
  }

  /** A rotate request always locks the accelerometer before it sets the
      next quarter turn, which is the last command sent; it reads the
      initial state only when none is saved; and it succeeds just when the
      last command does. */
  lemma RotateMeaning(saved: bool, shell: string -> Result<string>)
    ensures var sent := RotateCommands(saved, shell);
      |sent| >= 3 && sent[|sent| - 2] == LOCK_ACCEL && sent[|sent| - 1] == PutUserRotation(NextFrom(shell)) &&
      (|sent| == 5 <==> !saved)
    ensures Succeeded(RotateResult(shell)) <==> shell(PutUserRotation(NextFrom(shell))).Ok?
  {
  }

  const NATIVE_TASKBAR := "native_taskbar"
  const OVERLAY := "overlay"

  /** One clean-up step: the title of its message and its command. */
  datatype Step = Step(title: string, command: string)

  /** The clean-up steps of a mode: the window size and density reset for
      the native taskbar, the overlay removal for the overlay, and then the
      saved rotation restored for the native taskbar when one was saved. */
  function CleanupSteps(mode: string, saved: Option<Saved>): seq<Step>
  {
    ResetSteps(mode) + OverlaySteps(mode) + RestoreSteps(mode, saved)
  }

  function ResetSteps(mode: string): seq<Step>
  {
    if mode == NATIVE_TASKBAR then [Step("WM Size Reset", "wm size reset"), Step("WM Density Reset", "wm density reset")] else []
  }

  function OverlaySteps(mode: string): seq<Step>
  {
    if mode == OVERLAY then [Step("Overlay Reset", "settings put global overlay_display_devices none")] else []
  }

  function RestoreSteps(mode: string, saved: Option<Saved>): seq<Step>
  {
    if mode == NATIVE_TASKBAR && saved.Some? then
      [Step("User Rotation Restore (" + IntToString(saved.value.userRotation) + ")", PutUserRotation(saved.value.userRotation)),
       Step("Accel Rotation Restore (" + IntToString(saved.value.accelerometerRotation) + ")", PutAccelRotation(saved.value.accelerometerRotation))]
    else []
  }

  /** The message of one step: its title and `OK`, or the shell error. */
  function StepMessage(step: Step, shell: string -> Result<string>): string
  {
    var res := ExecuteAdbShell(shell, step.command);
    step.title + ": " + (if res.ShellOk? then "OK" else res.error)
  }

  function StepMessages(steps: seq<Step>, shell: string -> Result<string>): (r: seq<string>)
    ensures |r| == |steps|
    ensures forall k :: 0 <= k < |steps| ==> r[k] == StepMessage(steps[k], shell)
  {
    if steps == [] then [] else [StepMessage(steps[0], shell)] + StepMessages(steps[1..], shell)
  }

  /** The clean-up summary: always a success, naming the mode and carrying
      each step's message. */
  function CleanupSummary(mode: string, steps: seq<Step>, shell: string -> Result<string>): AdbResult
  {
    Summary("Cleanup for " + mode + " mode: " + JoinOn(StepMessages(steps, shell), "; "))
  }

  /** The native-taskbar clean-up puts back the rotation the first rotate
      request saved; other modes restore nothing, and only the overlay mode
      removes the overlay. */
  lemma CleanupRestores(states: map<string, Saved>, deviceId: string, shell: string -> Result<string>)
    requires deviceId !in states
    ensures var saved := RotateStates(states, deviceId, shell)[deviceId];
      var steps := CleanupSteps(NATIVE_TASKBAR, Some(saved));
      |steps| == 4 && steps[2].command == PutUserRotation(InitialRotation(shell).userRotation) &&
      steps[3].command == PutAccelRotation(InitialRotation(shell).accelerometerRotation)
    ensures forall mode, saved :: mode != NATIVE_TASKBAR ==> CleanupSteps(mode, saved) == (if mode == OVERLAY then [Step("Overlay Reset", "settings put global overlay_display_devices none")] else [])
  {
  }

  /** An `adbCommand` message: the command type, the device, the id the
      reply is correlated by, and the fields some commands use. */
  datatype AdbMessage = AdbMessage(commandType: string, deviceId: string, commandId: string,
                                   resolution: string, dpi: string, mode: string)

  /** The reply: type `<commandType>Response`, the command id and the
      result's fields. */
  datatype AdbReply = AdbReply(replyType: string, commandId: string, result: AdbResult)

  const KNOWN_COMMANDS: set<string> := {"getDisplayList", "setOverlay", "setWmSize", "setWmDensity", "adbRotateScreen", "cleanupAdb"}

  /** The saved rotations of the server (`adbService.rotationStates`) and
      the handling of ADB commands that reads and updates them. */
  class RotationStore {
    var states: map<string, Saved>

    constructor()
      ensures states == map[]
    {
      states := map[];
    }

    /** `adbRotateScreen`: save the initial rotation once, then turn the
        screen a quarter further; returns the result and the commands sent. */
    method Rotate(deviceId: string, shell: string -> Result<string>) returns (r: AdbResult, sent: seq<string>)
      modifies this
      ensures states == RotateStates(old(states), deviceId, shell)
      ensures r == RotateResult(shell) && sent == RotateCommands(deviceId in old(states), shell)
    {
      var firstReads := SaveInitial(deviceId, shell);
      var turns: seq<string>;
      r, turns := Turn(shell);
      sent := firstReads + turns;
    }

    /** The first rotate request for a device reads and saves its rotation. */
    method SaveInitial(deviceId: string, shell: string -> Result<string>) returns (sent: seq<string>)
      modifies this
      ensures states == RotateStates(old(states), deviceId, shell)
      ensures sent == if deviceId in old(states) then [] else [GET_USER_ROTATION, GET_ACCEL_ROTATION]
    {
      sent := [];
      if deviceId !in states {
        var initialUser := ExecuteAdbShell(shell, GET_USER_ROTATION);
        var initialAccel := ExecuteAdbShell(shell, GET_ACCEL_ROTATION);
        sent := [GET_USER_ROTATION, GET_ACCEL_ROTATION];
        states := states[deviceId := Saved(SettingOr(initialUser, 0), SettingOr(initialAccel, 1))];
      }
    }

    /** The turn itself: read the rotation, lock the accelerometer and set
        the next rotation. */
    method Turn(shell: string -> Result<string>) returns (r: AdbResult, sent: seq<string>)
      ensures r == RotateResult(shell)
      ensures sent == [GET_USER_ROTATION, LOCK_ACCEL, PutUserRotation(NextFrom(shell))]
    {
      var currentResult := ExecuteAdbShell(shell, GET_USER_ROTATION);
      var current := SettingOr(currentResult, 0);
      var locked := ExecuteAdbShell(shell, LOCK_ACCEL);
      var next := NextRotation(current);
      var res := ExecuteAdbShell(shell, PutUserRotation(next));
      sent := [GET_USER_ROTATION, LOCK_ACCEL, PutUserRotation(next)];
      if res.ShellOk? {
        r := FromShell(res, Some(RotatedMessage(next)));
      } else {
        r := FromShell(res, None);
      }
    }

    /** `cleanupAdb`: run the mode's clean-up steps, collecting one message
        each, and forget the saved rotation in the native-taskbar mode. */
    method Cleanup(deviceId: string, mode: string, shell: string -> Result<string>) returns (r: AdbResult, sent: seq<string>)
      modifies this
      ensures states == CleanupStates(old(states), deviceId, mode)
      ensures var steps := CleanupSteps(mode, if deviceId in old(states) then Some(old(states)[deviceId]) else None);
        r == CleanupSummary(mode, steps, shell) && sent == Commands(steps)
    {
      ghost var saved := if deviceId in states then Some(states[deviceId]) else None;
      var resetMessages, resetSent := ResetPhase(mode, shell);
      var overlayMessages, overlaySent := OverlayPhase(mode, shell);
      var restoreMessages, restoreSent := RestorePhase(deviceId, mode, shell);
      StepsAppend(ResetSteps(mode), OverlaySteps(mode), shell);
      StepsAppend(ResetSteps(mode) + OverlaySteps(mode), RestoreSteps(mode, saved), shell);
      var messages := resetMessages + overlayMessages + restoreMessages;
      sent := resetSent + overlaySent + restoreSent;
      r := Summary("Cleanup for " + mode + " mode: " + JoinOn(messages, "; "));
    }

    /** The window size and density resets of the native-taskbar mode. */
    static method ResetPhase(mode: string, shell: string -> Result<string>) returns (messages: seq<string>, sent: seq<string>)
      ensures messages == StepMessages(ResetSteps(mode), shell) && sent == Commands(ResetSteps(mode))
    {
      messages, sent := [], [];
      if mode == NATIVE_TASKBAR {
        var sizeReset := RunStep(Step("WM Size Reset", "wm size reset"), shell);
        var densityReset := RunStep(Step("WM Density Reset", "wm density reset"), shell);
        messages := [sizeReset, densityReset];
        sent := ["wm size reset", "wm density reset"];
      }
    }

    /** The overlay removal of the overlay mode. */
    static method OverlayPhase(mode: string, shell: string -> Result<string>) returns (messages: seq<string>, sent: seq<string>)
      ensures messages == StepMessages(OverlaySteps(mode), shell) && sent == Commands(OverlaySteps(mode))
    {
      messages, sent := [], [];
      if mode == OVERLAY {
        var overlayReset := RunStep(Step("Overlay Reset", "settings put global overlay_display_devices none"), shell);
        messages := [overlayReset];
        sent := ["settings put global overlay_display_devices none"];
      }
    }

    /** The native-taskbar restore of the saved rotation, which forgets it. */
    method RestorePhase(deviceId: string, mode: string, shell: string -> Result<string>) returns (messages: seq<string>, sent: seq<string>)
      modifies this
      ensures states == CleanupStates(old(states), deviceId, mode)
      ensures var steps := RestoreSteps(mode, if deviceId in old(states) then Some(old(states)[deviceId]) else None);
        messages == StepMessages(steps, shell) && sent == Commands(steps)
    {
      messages, sent := [], [];
      if mode == NATIVE_TASKBAR && deviceId in states {
        var user := states[deviceId].userRotation;
        var accel := states[deviceId].accelerometerRotation;
        var userRestore := RunStep(Step("User Rotation Restore (" + IntToString(user) + ")", PutUserRotation(user)), shell);
        var accelRestore := RunStep(Step("Accel Rotation Restore (" + IntToString(accel) + ")", PutAccelRotation(accel)), shell);
        messages := [userRestore, accelRestore];
        sent := [PutUserRotation(user), PutAccelRotation(accel)];
        states := states - {deviceId};
      }
    }

    /** One clean-up step: run its command and report on it. */
    static method RunStep(step: Step, shell: string -> Result<string>) returns (message: string)
      ensures message == StepMessage(step, shell)
    {
      var res := ExecuteAdbShell(shell, step.command);
      message := step.title + ": " + (if res.ShellOk? then "OK" else res.error);
    }

    /** `handleAdbCommand`: refuse a message without a device, run the
        command of a known type, refuse an unknown type; the reply is typed
        after the command and carries its id. The outcome of the display
        list command, whose command line holds a random session id, is the
        parameter `listing`. */
    method HandleAdbCommand(msg: AdbMessage, shell: string -> Result<string>, listing: ShellResult) returns (reply: AdbReply)
      modifies this
      ensures reply.replyType == msg.commandType + "Response" && reply.commandId == msg.commandId
      ensures msg.deviceId == "" ==> reply.result == Failure("Device ID missing") && states == old(states)
      ensures msg.deviceId != "" && msg.commandType !in KNOWN_COMMANDS ==>
        reply.result == Failure("Unknown ADB commandType: " + msg.commandType) && states == old(states)
      ensures msg.deviceId != "" && msg.commandType == "adbRotateScreen" ==>
        states == RotateStates(old(states), msg.deviceId, shell) && reply.result == RotateResult(shell)
      ensures msg.deviceId != "" && msg.commandType == "cleanupAdb" ==> states == CleanupStates(old(states), msg.deviceId, msg.mode)
      ensures msg.deviceId != "" && msg.commandType == "cleanupAdb" ==> Succeeded(reply.result)
      ensures msg.deviceId != "" && msg.commandType in KNOWN_COMMANDS - {"adbRotateScreen", "cleanupAdb"} ==>
        states == old(states) && reply.result == ShellCommandResult(msg, shell, listing)
    {
      var result: AdbResult;
      if msg.deviceId == "" {
        result := Failure("Device ID missing");
      } else if msg.commandType == "getDisplayList" {
        var l := ListDisplays(listing);
        result := FromListing(l);
      } else if msg.commandType == "setOverlay" {
        result := FromShell(ExecuteAdbShell(shell, "settings put global overlay_display_devices " + msg.resolution + "/" + msg.dpi), None);
      } else if msg.commandType == "setWmSize" {
        result := FromShell(ExecuteAdbShell(shell, "wm size " + msg.resolution), None);
      } else if msg.commandType == "setWmDensity" {
        result := FromShell(ExecuteAdbShell(shell, "wm density " + msg.dpi), None);
      } else if msg.commandType == "adbRotateScreen" {
        var sent;
        result, sent := Rotate(msg.deviceId, shell);
      } else if msg.commandType == "cleanupAdb" {
        var sent;
        result, sent := Cleanup(msg.deviceId, msg.mode, shell);
      } else {
        result := Failure("Unknown ADB commandType: " + msg.commandType);
      }
      reply := AdbReply(msg.commandType + "Response", msg.commandId, result);
    }
  }

  /** The commands of clean-up steps, in order. */
  function Commands(steps: seq<Step>): (r: seq<string>)
    ensures |r| == |steps| && forall k :: 0 <= k < |steps| ==> r[k] == steps[k].command
  {
    if steps == [] then [] else [steps[0].command] + Commands(steps[1..])
  }

  /** Messages and commands of steps run one after another. */
  lemma StepsAppend(a: seq<Step>, b: seq<Step>, shell: string -> Result<string>)
    ensures StepMessages(a + b, shell) == StepMessages(a, shell) + StepMessages(b, shell)
    ensures Commands(a + b) == Commands(a) + Commands(b)
  {
    MessagesAppend(a, b, shell);
    CommandsAppend(a, b);
  }

  lemma MessagesAppend(a: seq<Step>, b: seq<Step>, shell: string -> Result<string>)
    ensures StepMessages(a + b, shell) == StepMessages(a, shell) + StepMessages(b, shell)
  {
    var m, ma, mb := StepMessages(a + b, shell), StepMessages(a, shell), StepMessages(b, shell);
    forall k | 0 <= k < |m|
      ensures m[k] == (ma + mb)[k]
    {
      if k < |a| { assert (a + b)[k] == a[k]; } else { assert (a + b)[k] == b[k - |a|]; }
    }
  }

  lemma CommandsAppend(a: seq<Step>, b: seq<Step>)
    ensures Commands(a + b) == Commands(a) + Commands(b)
  {
    var c, ca, cb := Commands(a + b), Commands(a), Commands(b);
    forall k | 0 <= k < |c|
      ensures c[k] == (ca + cb)[k]
    {
      if k < |a| { assert (a + b)[k] == a[k]; } else { assert (a + b)[k] == b[k - |a|]; }
    }
  }

  /** The result of the commands that only run one shell command (or list
      the displays). */
  function ShellCommandResult(msg: AdbMessage, shell: string -> Result<string>, listing: ShellResult): AdbResult
  {
    if msg.commandType == "getDisplayList" then
      FromListing(if listing.ShellFailed? then ListingFailed(listing.error) else Displays(DisplaysOf(Split(listing.output, '\n'))))
    else if msg.commandType == "setOverlay" then
      FromShell(ExecuteAdbShell(shell, "settings put global overlay_display_devices " + msg.resolution + "/" + msg.dpi), None)
    else if msg.commandType == "setWmSize" then FromShell(ExecuteAdbShell(shell, "wm size " + msg.resolution), None)
    else FromShell(ExecuteAdbShell(shell, "wm density " + msg.dpi), None)
  }

  // ---------------------------------------------------------------------
  // Volume

  /** The volume a `volume` message asks for: `parseInt(value, 10)`, which
      must be a number from 0 to 100. */
  function VolumeValue(raw: string): (r: Result<int>)
    ensures r.Ok? <==> ParseInt(raw).Some? && 0 <= ParseInt(raw).value <= 100
    ensures r.Ok? ==> r.value == ParseInt(raw).value && 0 <= r.value <= 100
    ensures r.Err? ==> r.msg == "Invalid volume value: " + raw
  {
    match ParseInt(raw)
    case Some(v) => if 0 <= v <= 100 then Ok(v) else Err("Invalid volume value: " + raw)
    case None => Err("Invalid volume value: " + raw)
  }

  /** Every percentage, written out, is accepted as itself. */
  lemma VolumeValueOf(p: nat)
    requires p <= 100
    ensures VolumeValue(NatToString(p)) == Ok(p)
  {
    ParseIntOfNat(p);
  }

  /** `Math.round((currentVolume / maxVolume) * 100)`: the percentage
      nearest to the current share of the maximum. */
  function Percentage(reading: Reading): (r: int)
    requires reading.max >= 1
    ensures 2 * reading.max * r <= 200 * reading.current + reading.max < 2 * reading.max * (r + 1)
    ensures reading.current <= reading.max ==> 0 <= r <= 100
  {
    PercentageInRange(reading.current, reading.max);
    RoundDiv(reading.current * 100, reading.max)
  }

  lemma PercentageInRange(current: nat, max: nat)
    requires max >= 1
    ensures current <= max ==> 0 <= RoundDiv(current * 100, max) <= 100
  {
    if current <= max {
      var r := RoundDiv(current * 100, max);
      assert r <= 100 by {
        assert 2 * max * r <= 201 * max;
        MulLess(max, 2 * r, 202);
      }
      assert r >= 0 by {
        MulLess(max, -2, 2 * r + 2);
      }
    }
  }

  /** A product by a positive factor keeps a strict order between the
      other factors. */
  lemma MulLess(m: int, x: int, y: int)
    requires m > 0 && m * x < m * y
    ensures x < y
  {
  }

  /** Setting a percentage and reading the volume back gives a percentage
      within `(max + 100) / (2 max)` of it, and the same one when the
      device has at least 100 steps. */
  lemma SetThenGet(p: int, max: nat)
    requires 0 <= p <= 100 && max >= 1
    ensures var back := Percentage(Reading(Share(p, max) as nat, max));
      2 * max * (back - p) <= max + 100 && 2 * max * (p - back) < max + 100
    ensures max >= 100 ==> Percentage(Reading(Share(p, max) as nat, max)) == p
  {
    var level := Share(p, max);
    var back := Percentage(Reading(level as nat, max));
    RoundTripSum(200 * level - 2 * (p * max), 2 * max * back - 200 * level, p, back, max);
    if max == 100 {
      assert level == p;
      assert back == p;
    } else if max > 100 {
      ExactWhenFine(p, back, max);
    }
  }

  /** The two rounding errors add up. */
  lemma RoundTripSum(setError: int, getError: int, p: int, back: int, max: nat)
    requires -100 < setError <= 100 && -(max as int) < getError <= max
    ensures setError + getError <= max + 100 && -(setError + getError) < max + 100
  {
  }

  lemma ExactWhenFine(p: int, back: int, max: nat)
    requires max > 100
    requires 2 * max * (back - p) <= max + 100 && 2 * max * (p - back) < max + 100
    ensures back == p
  {
    if back > p {
      MulLess(2 * max, back - p, 1);
    } else if back < p {
      MulLess(2 * max, p - back, 1);
    }
  }

  /** Which session a client's command reaches: none when the client has no
      session, no device when its session is gone or has no device. */
  datatype Target = NoSession | NoDevice | Device(id: string)

  function TargetOf(clientSession: Option<string>, deviceOf: map<string, string>): (t: Target)
    ensures t.Device? ==> clientSession.Some? && clientSession.value in deviceOf && t.id == deviceOf[clientSession.value] && t.id != ""
    ensures t == NoSession <==> clientSession.None?
  {
    match clientSession
    case None => NoSession
    case Some(s) => if s in deviceOf && deviceOf[s] != "" then Device(deviceOf[s]) else NoDevice
  }

  /** The reply to `volume`: the requested value on success, or the raw
      value and an error. */
  datatype VolumeResponse = VolumeSet(requestedValue: int) | VolumeRefused(value: string, error: string)

  /** `handleVolumeCommand`: the guards, the value check, then
      `setMediaVolume` on the sessions. */
  method HandleVolume(target: Target, raw: string, sessions: seq<VolumeSession>, shell: string -> Result<string>)
    returns (resp: VolumeResponse)
    modifies set k | 0 <= k < |sessions| :: sessions[k]
    ensures target == NoSession ==> resp == VolumeRefused(raw, "No active session")
    ensures target == NoDevice ==> resp == VolumeRefused(raw, "No device found")
    ensures target.Device? && VolumeValue(raw).Err? ==> resp == VolumeRefused(raw, VolumeValue(raw).msg)
    ensures !(target.Device? && VolumeValue(raw).Ok?) ==> forall k :: 0 <= k < |sessions| ==> unchanged(sessions[k])
    ensures resp.VolumeSet? ==> target.Device? && VolumeValue(raw) == Ok(resp.requestedValue)
    ensures target.Device? && VolumeValue(raw).Ok? && FirstSession(sessions, target.id).None? ==>
      resp == VolumeRefused(raw, "No session found for device " + target.id)
    ensures target.Device? && VolumeValue(raw).Ok? && FirstSession(sessions, target.id).Some? ==>
      var s := sessions[FirstSession(sessions, target.id).value];
      var outcome := VolumeSetting(target.id, old(s.androidVersion), old(s.maxVolume), VolumeValue(raw).value, shell).0;
      resp == (if outcome.Ok? then VolumeSet(VolumeValue(raw).value) else VolumeRefused(raw, outcome.msg))
  {
    if target == NoSession {
      return VolumeRefused(raw, "No active session");
    }
    if target == NoDevice {
      return VolumeRefused(raw, "No device found");
    }
    var value := VolumeValue(raw);
    if value.Err? {
      return VolumeRefused(raw, value.msg);
    }
    var r := SetMediaVolume(sessions, target.id, value.value, shell);
    if r.Err? {
      return VolumeRefused(raw, r.msg);
    }
    return VolumeSet(value.value);
  }

  /** The reply to `getVolume`: the volume as a percentage, or an error. */
  datatype VolumeInfo = VolumeIs(volume: int) | VolumeUnknown(error: string)

  /** `handleGetVolumeCommand`: the guards, then `getMediaVolumeInfo` and
      the reading as a percentage. */
  method HandleGetVolume(target: Target, sessions: seq<VolumeSession>, shell: string -> Result<string>)
    returns (resp: VolumeInfo)
    modifies set k | 0 <= k < |sessions| :: sessions[k]
    ensures target == NoSession ==> resp == VolumeUnknown("No active session")
    ensures target == NoDevice ==> resp == VolumeUnknown("No device found")
    ensures !target.Device? ==> forall k :: 0 <= k < |sessions| ==> unchanged(sessions[k])
    ensures target.Device? && FirstSession(sessions, target.id).None? ==>
      resp == VolumeUnknown("No session found for device " + target.id)
    ensures target.Device? && FirstSession(sessions, target.id).Some? ==>
      var s := sessions[FirstSession(sessions, target.id).value];
      var outcome := VolumeQuery(old(s.androidVersion), old(s.maxVolume), shell).0;
      resp == (if outcome.Ok? then VolumeIs(Percentage(outcome.value)) else VolumeUnknown(outcome.msg))
  {
    if target == NoSession {
      return VolumeUnknown("No active session");
    }
    if target == NoDevice {
      return VolumeUnknown("No device found");
    }
    var r := GetMediaVolumeInfo(sessions, target.id, shell);
    if r.Err? {
      return VolumeUnknown(r.msg);
    }
    return VolumeIs(Percentage(r.value));
  }

  // ---------------------------------------------------------------------
  // Actions

  const ACTIONS: seq<string> := ["start", "disconnect", "getAdbDevices", "volume", "getVolume", "navAction",
                                 "wifiToggle", "getWifiStatus", "getBatteryLevel", "launchApp", "adbCommand"]

  /** The members every plain object inherits from `Object.prototype`:
      `actionHandlers[action]` finds these too. */
  const INHERITED: seq<string> := ["constructor", "__defineGetter__", "__defineSetter__", "hasOwnProperty",
                                   "__lookupGetter__", "__lookupSetter__", "isPrototypeOf", "propertyIsEnumerable",
                                   "toString", "valueOf", "__proto__", "toLocaleString"]

  /** The inherited members that throw when called as a handler. The call
      is unbound, so `this` is undefined: `__proto__` is not a function,
      `toLocaleString` invokes `toString` on undefined, and the others
      convert `this` to an object first. Only `constructor` (which wraps
      the client id), `isPrototypeOf` (false for a string argument) and
      `toString` ("[object Undefined]") return normally. */
  const THROWING: seq<string> := ["__proto__", "__defineGetter__", "__defineSetter__", "hasOwnProperty",
                                  "__lookupGetter__", "__lookupSetter__", "propertyIsEnumerable",
                                  "valueOf", "toLocaleString"]

  const INVALID_FORMAT: string := "Invalid message format"

  /** How a text message is handled: by the handler of its action, by an
      inherited `Object.prototype` function that answers nothing, or with
      an error reply. */
  datatype Dispatched = Handler(action: string) | Inherited(action: string) | ErrorReply(message: string)

  function Dispatch(parsed: Option<string>): (d: Dispatched)
    ensures d.Handler? <==> parsed.Some? && parsed.value in ACTIONS
    ensures d.Handler? || d.Inherited? ==> parsed == Some(d.action)
    ensures d.Inherited? <==> parsed.Some? && parsed.value in INHERITED && parsed.value !in THROWING
    ensures d.Inherited? <==> parsed.Some? && parsed.value in ["constructor", "isPrototypeOf", "toString"]
    ensures parsed.None? ==> d == ErrorReply(INVALID_FORMAT)
    ensures parsed.Some? && parsed.value in THROWING ==> d == ErrorReply(INVALID_FORMAT)
    ensures parsed.Some? && parsed.value !in ACTIONS && parsed.value !in INHERITED ==>
      d == ErrorReply("Unknown action: " + parsed.value)
  {
    match parsed
    case None => ErrorReply(INVALID_FORMAT)
    case Some(action) =>
      if action in ACTIONS then Handler(action)
      else if action in THROWING then ErrorReply(INVALID_FORMAT)
      else if action in INHERITED then Inherited(action)
      else ErrorReply("Unknown action: " + action)
  }

  /** The error reply a text message gets once its handler has run (`threw`
      says whether the handler threw): a handler's exception is caught and
      answered like a parse failure; an inherited function that returns
      normally answers nothing. */
  function ErrorSent(d: Dispatched, threw: bool): (e: Option<string>)
    ensures d.ErrorReply? ==> e == Some(d.message)
    ensures d.Handler? ==> (e.Some? <==> threw) && (threw ==> e == Some(INVALID_FORMAT))
    ensures d.Inherited? ==> e.None?
  {
    match d
    case ErrorReply(m) => Some(m)
    case Handler(_) => if threw then Some(INVALID_FORMAT) else None
    case Inherited(_) => None
  }
}
