/** The ADB helpers of the session server (src-server/adbService.js): the
    outcome of a shell or host command, the device filter, the parser of the
    display list scrcpy prints, the media-volume query and its per-session
    cache, the battery level, and the label a launcher entry gets. A device
    shell is a parameter `shell` mapping a command to the output it prints
    (`Ok`) or to the adbkit error message (`Err`). */
module AdbService {
  import opened Wrappers
  import opened Text
  import opened StartRequests

  // ---------------------------------------------------------------------
  // Commands

  /** `executeAdbShellCommand`: `{success: true, output}` with the output
      trimmed as `streamToString` does, or `{success: false, error}`. */
  datatype ShellResult = ShellOk(output: string) | ShellFailed(error: string)

  function ExecuteAdbShell(shell: string -> Result<string>, command: string): (r: ShellResult)
    ensures r.ShellOk? <==> shell(command).Ok?
    ensures r.ShellOk? ==> r.output == Trim(shell(command).value)
    ensures r.ShellFailed? ==> r.error == shell(command).msg
  {
    match shell(command)
    case Ok(out) => ShellOk(Trim(out))
    case Err(e) => ShellFailed(e)
  }

  /** What a finished host process printed. */
  datatype ProcessOutput = ProcessOutput(stdout: string, stderr: string)

  /** `executeCommand`: a process that succeeds gives its output as it is,
      whatever it printed on stderr; a failure becomes an error naming the
      description, or the command when the description is empty. */
  function ExecuteCommand(command: string, description: string, outcome: Result<ProcessOutput>): (r: Result<ProcessOutput>)
    ensures r.Ok? <==> outcome.Ok?
    ensures r.Ok? ==> r.value == outcome.value
    ensures r.Err? && description != "" ==> r.msg == "Failed to execute: " + description + " - " + outcome.msg
    ensures r.Err? && description == "" ==> r.msg == "Failed to execute: " + command + " - " + outcome.msg
  {
    match outcome
    case Ok(out) => Ok(out)
    case Err(e) => Err("Failed to execute: " + (if description != "" then description else command) + " - " + e)
  }

  /** The results of `f` on each element, concatenated in order. */
  function Gather<T, U>(f: T -> seq<U>, xs: seq<T>): seq<U>
  {
    if xs == [] then [] else Gather(f, xs[..|xs| - 1]) + f(xs[|xs| - 1])
  }

  lemma {:induction false} GatherAppend<T, U>(f: T -> seq<U>, a: seq<T>, b: seq<T>)
    ensures Gather(f, a + b) == Gather(f, a) + Gather(f, b)
    decreases |b|
  {
    if b == [] {
      assert a + b == a;
    } else {
      var b0 := b[..|b| - 1];
      GatherAppend(f, a, b0);
      var ab := a + b;
      assert ab[..|ab| - 1] == a + b0;
      assert ab[|ab| - 1] == b[|b| - 1];
    }
  }

  // ---------------------------------------------------------------------
  // getAdbDevices

  predicate IsListed(kind: string)
  {
    kind == "device" || kind == "unauthorized" || kind == "offline"
  }

  /** What one device adds to the report: itself when listed. */
  function Listed(d: Device): seq<Device>
  {
    if IsListed(d.kind) then [d] else []
  }

  /** The devices `getAdbDevices` reports: those in state `device`,
      `unauthorized` or `offline`, in the order adb lists them. */
  function ActiveDevices(devices: seq<Device>): seq<Device>
  {
    Gather(Listed, devices)
  }

  /** Exactly the listed devices are reported. */
  lemma {:induction false} ActiveDevicesMembers(devices: seq<Device>, d: Device)
    ensures d in ActiveDevices(devices) <==> d in devices && IsListed(d.kind)
    decreases |devices|
  {
    if devices != [] {
      var init := devices[..|devices| - 1];
      ActiveDevicesMembers(init, d);
      assert devices == init + [devices[|devices| - 1]];
    }
  }

  /** No device is reported twice that adb listed once: the report is never
      longer than the list. */
  lemma {:induction false} ActiveDevicesShorter(devices: seq<Device>)
    ensures |ActiveDevices(devices)| <= |devices|
    decreases |devices|
  {
    if devices != [] {
      ActiveDevicesShorter(devices[..|devices| - 1]);
    }
  }

  /** The filter keeps the order: the devices of a concatenation are the
      devices of its parts, one after the other. */
  lemma ActiveDevicesAppend(a: seq<Device>, b: seq<Device>)
    ensures ActiveDevices(a + b) == ActiveDevices(a) + ActiveDevices(b)
  {
    GatherAppend(Listed, a, b);
  }

  // ---------------------------------------------------------------------
  // adbListDisplays

  /** A display as `list_displays=true` reports it. */
  datatype Display = Display(id: nat, resolution: string)

  const DISPLAY_TAG := "--display-id="

  /** `(\d+)\s*\(([^)]+)\)`, the part of the pattern after the tag, at the
      front of `t`. The digit and space runs are taken whole and the text
      runs to the first `)`: since a digit run here is followed by a space or
      `(`, and a space run by `(`, backtracking finds no other match. */
  function DisplayAfterTag(t: string): Option<Display>
  {
    match Number(t)
    case None => None
    case Some((id, afterId)) =>
      match ParenText(afterId)
      case None => None
      case Some(resolution) => Some(Display(id, resolution))
  }

  /** `\s*\(([^)]+)\)` at the front of `t`: the non-empty text between the
      opening parenthesis and the first closing one. */
  function ParenText(t: string): Option<string>
  {
    var u := TrimStart(t);
    if u == [] || u[0] != '(' then None
    else
      match SplitFirst(u[1..], ')')
      case None => None
      case Some((inside, _)) => if inside == [] then None else Some(inside)
  }

  /** The pattern `--display-id=(\d+)\s*\(([^)]+)\)` matched at position `i`. */
  function DisplayAt(line: string, i: nat): Option<Display>
    requires OccursAt(line, DISPLAY_TAG, i)
  {
    DisplayAfterTag(line[i + |DISPLAY_TAG|..])
  }

  /** The leftmost match at or after `i`, as `line.match` finds it. */
  function MatchDisplayFrom(line: string, i: nat): (r: Option<Display>)
    decreases |line| - i
  {
    if i + |DISPLAY_TAG| > |line| then None
    else if OccursAt(line, DISPLAY_TAG, i) && DisplayAt(line, i).Some? then DisplayAt(line, i)
    else MatchDisplayFrom(line, i + 1)
  }

  function MatchDisplay(line: string): Option<Display>
  {
    MatchDisplayFrom(line, 0)
  }

  /** The displays one line adds: its match, if any. */
  function LineDisplays(line: string): seq<Display>
  {
    match MatchDisplay(line)
    case Some(d) => [d]
    case None => []
  }

  /** The displays of output lines, one per matching line, in order. */
  function DisplaysOf(lines: seq<string>): seq<Display>
  {
    Gather(LineDisplays, lines)
  }

  /** No occurrence of the tag at or after `i`: no match there. */
  lemma {:induction false} NoMatchFrom(line: string, i: nat)
    requires forall j :: i <= j ==> !OccursAt(line, DISPLAY_TAG, j)
    ensures MatchDisplayFrom(line, i) == None
    decreases |line| - i
  {
    if i + |DISPLAY_TAG| <= |line| {
      NoMatchFrom(line, i + 1);
    }
  }

  /** A line without the tag yields no display. */
  lemma NoTagNoDisplay(line: string)
    requires !Contains(line, DISPLAY_TAG)
    ensures LineDisplays(line) == []
  {
    NoMatchFrom(line, 0);
  }

  /** Lines are read independently: the displays of two blocks of lines are
      those of the first block followed by those of the second. */
  lemma DisplaysOfAppend(a: seq<string>, b: seq<string>)
    ensures DisplaysOf(a + b) == DisplaysOf(a) + DisplaysOf(b)
  {
    GatherAppend(LineDisplays, a, b);
  }

  /** A line as scrcpy prints it for a display:
      `<indent>--display-id=<id><gap>(<resolution>)<rest>`. */
  function DisplayLine(indent: string, id: nat, gap: string, resolution: string, rest: string): string
  {
    indent + (DISPLAY_TAG + DisplayTail(id, gap, resolution, rest))
  }

  function DisplayTail(id: nat, gap: string, resolution: string, rest: string): string
  {
    NatToString(id) + (gap + ("(" + (resolution + (")" + rest))))
  }

  /** Such a line, with an indent free of `-`, white space as the gap and a
      resolution without `)`, gives back the id and the resolution. */
  lemma DisplayLineParses(indent: string, id: nat, gap: string, resolution: string, rest: string)
    requires forall k :: 0 <= k < |indent| ==> indent[k] != '-'
    requires forall k :: 0 <= k < |gap| ==> IsSpace(gap[k])
    requires resolution != [] && ')' !in resolution
    ensures MatchDisplay(DisplayLine(indent, id, gap, resolution, rest)) == Some(Display(id, resolution))
  {
    var t := DisplayTail(id, gap, resolution, rest);
    var line := indent + (DISPLAY_TAG + t);
    assert forall k :: 0 <= k < |indent| ==> line[k] == indent[k];
    assert line[|indent|..|indent| + |DISPLAY_TAG|] == DISPLAY_TAG;
    assert line[|indent| + |DISPLAY_TAG|..] == t;
    DisplayTailParses(id, gap, resolution, rest);
    SkipIndent(line, |indent|);
  }

  /** The part after the tag gives back the id and the resolution. */
  lemma DisplayTailParses(id: nat, gap: string, resolution: string, rest: string)
    requires forall k :: 0 <= k < |gap| ==> IsSpace(gap[k])
    requires resolution != [] && ')' !in resolution
    ensures DisplayAfterTag(DisplayTail(id, gap, resolution, rest)) == Some(Display(id, resolution))
  {
    var u := gap + ("(" + (resolution + (")" + rest)));
    assert u[0] == (if gap == [] then '(' else gap[0]);
    NumberOf(id, u);
    ParenTextParses(gap, resolution, rest);
  }

  /** White space, then a parenthesised text without `)`, gives back the text. */
  lemma ParenTextParses(gap: string, resolution: string, rest: string)
    requires forall k :: 0 <= k < |gap| ==> IsSpace(gap[k])
    requires resolution != [] && ')' !in resolution
    ensures ParenText(gap + ("(" + (resolution + (")" + rest)))) == Some(resolution)
  {
    var v := resolution + (")" + rest);
    TrimStartPast(gap, "(" + v);
    assert ("(" + v)[1..] == v;
    SplitFirstOf(resolution, ')', rest);
  }

  /** The search passes over an indent where the tag cannot start. */
  lemma {:induction false} SkipIndent(line: string, i: nat)
    requires i + |DISPLAY_TAG| <= |line|
    requires forall k :: 0 <= k < i ==> line[k] != '-'
    requires OccursAt(line, DISPLAY_TAG, i) && DisplayAt(line, i).Some?
    ensures MatchDisplay(line) == DisplayAt(line, i)
  {
    var j := i;
    while j > 0
      invariant 0 <= j <= i
      invariant MatchDisplayFrom(line, j) == MatchDisplayFrom(line, i)
    {
      j := j - 1;
      NoTagAt(line, j);
    }
  }

  /** A position not holding `-` is passed over. */
  lemma NoTagAt(line: string, j: nat)
    requires j < |line| && line[j] != '-'
    ensures MatchDisplayFrom(line, j) == MatchDisplayFrom(line, j + 1)
  {
    assert !OccursAt(line, DISPLAY_TAG, j) by {
      if j + |DISPLAY_TAG| <= |line| {
        assert line[j..j + |DISPLAY_TAG|][0] == line[j];
      }
    }
  }

  /** One more line adds its match, if any. */
  lemma DisplaysOfStep(lines: seq<string>, i: nat)
    requires i < |lines|
    ensures DisplaysOf(lines[..i + 1])
         == DisplaysOf(lines[..i]) + (if MatchDisplay(lines[i]).Some? then [MatchDisplay(lines[i]).value] else [])
  {
    assert lines[..i + 1][..i] == lines[..i];
    assert lines[..i + 1][i] == lines[i];
  }

  /** The answer of `adbListDisplays`: the displays, or the failed shell
      result passed on unchanged. */
  datatype DisplayListing = Displays(data: seq<Display>) | ListingFailed(error: string)

  /** `adbListDisplays` once the list command has run: the output is split
      into lines and each matching line adds one display. */
  method ListDisplays(result: ShellResult) returns (r: DisplayListing)
    ensures result.ShellFailed? ==> r == ListingFailed(result.error)
    ensures result.ShellOk? ==> r == Displays(DisplaysOf(Split(result.output, '\n')))
  {
    if result.ShellFailed? {
      return ListingFailed(result.error);
    }
    var lines := Split(result.output, '\n');
    var displays: seq<Display> := [];
    var i := 0;
    while i < |lines|
      invariant 0 <= i <= |lines|
      invariant displays == DisplaysOf(lines[..i])
    {
      var m := MatchDisplay(lines[i]);
      if m.Some? {
        displays := displays + [m.value];
      }
      DisplaysOfStep(lines, i);
      i := i + 1;
    }
    assert lines[..i] == lines;
    return Displays(displays);
  }

  // ---------------------------------------------------------------------
  // Media volume

  /** The two numbers of a volume query: the current level and the maximum. */
  datatype Reading = Reading(current: nat, max: nat)

  /** `(\d+) in range \[(\d+)\.\.(\d+)\]`, the part of the first form after
      `volume is `, at the front of `t`: the current level and the maximum. */
  function RangeAfterPrefix(t: string): Option<Reading>
  {
    match Number(t)
    case None => None
    case Some((current, r1)) =>
      match Expect(r1, " in range [")
      case None => None
      case Some(r2) =>
        match Number(r2)
        case None => None
        case Some((_, r3)) =>
          match Expect(r3, "..")
          case None => None
          case Some(r4) =>
            match Number(r4)
            case None => None
            case Some((max, r5)) => if r5 != [] && r5[0] == ']' then Some(Reading(current, max)) else None
  }

  /** `(\d+), (\d+)\]`, the part of the second form after `[`, at the front
      of `t`. */
  function PairAfterBracket(t: string): Option<Reading>
  {
    match Number(t)
    case None => None
    case Some((current, r1)) =>
      match Expect(r1, ", ")
      case None => None
      case Some(r2) =>
        match Number(r2)
        case None => None
        case Some((max, r3)) => if r3 != [] && r3[0] == ']' then Some(Reading(current, max)) else None
  }

  /** `volume is (\d+) in range \[(\d+)\.\.(\d+)\]` at position `i`. As
      with the display pattern, every digit run here is followed by a
      non-digit, so taking runs whole loses no match. */
  function RangeFormAt(s: string, i: nat): Option<Reading>
  {
    if OccursAt(s, "volume is ", i) then RangeAfterPrefix(s[i + 10..]) else None
  }

  /** `\[(\d+), (\d+)\]` at position `i`. */
  function PairFormAt(s: string, i: nat): Option<Reading>
  {
    if i < |s| && s[i] == '[' then PairAfterBracket(s[i + 1..]) else None
  }

  /** The alternation at `i`; the two forms start with different characters,
      so at most one applies. */
  function VolumeAt(s: string, i: nat): Option<Reading>
  {
    if RangeFormAt(s, i).Some? then RangeFormAt(s, i) else PairFormAt(s, i)
  }

  /** The leftmost match at or after `i`. */
  function MatchVolumeFrom(s: string, i: nat): Option<Reading>
    decreases |s| - i
  {
    if i >= |s| then None
    else if VolumeAt(s, i).Some? then VolumeAt(s, i)
    else MatchVolumeFrom(s, i + 1)
  }

  function MatchVolume(s: string): Option<Reading>
  {
    MatchVolumeFrom(s, 0)
  }

  /** The output of Android 10 and older:
      `<pre>volume is <current> in range [<min>..<max>]<rest>`. */
  function RangeLine(pre: string, current: nat, min: nat, max: nat, rest: string): string
  {
    pre + ("volume is " + RangeTail(current, min, max, rest))
  }

  function RangeTail(current: nat, min: nat, max: nat, rest: string): string
  {
    NatToString(current) + (" in range [" + (NatToString(min) + (".." + (NatToString(max) + ("]" + rest)))))
  }

  /** The output of newer versions: `<pre>[<current>, <max>]<rest>`. */
  function PairLine(pre: string, current: nat, max: nat, rest: string): string
  {
    pre + ("[" + PairTail(current, max, rest))
  }

  function PairTail(current: nat, max: nat, rest: string): string
  {
    NatToString(current) + (", " + (NatToString(max) + ("]" + rest)))
  }

  /** The first form, after a prefix where neither form can start, gives
      back the current level and the maximum. */
  lemma RangeFormParses(pre: string, current: nat, min: nat, max: nat, rest: string)
    requires 'v' !in pre && '[' !in pre
    ensures MatchVolume(RangeLine(pre, current, min, max, rest)) == Some(Reading(current, max))
  {
    var t := RangeTail(current, min, max, rest);
    var s := pre + ("volume is " + t);
    var i := |pre|;
    assert s[i..i + 10] == "volume is ";
    assert s[i + 10..] == t;
    RangeTailParses(current, min, max, rest);
    assert forall k :: 0 <= k < i ==> s[k] == pre[k];
    SkipPrefix(s, i);
  }

  lemma RangeTailParses(current: nat, min: nat, max: nat, rest: string)
    ensures RangeAfterPrefix(RangeTail(current, min, max, rest)) == Some(Reading(current, max))
  {
    var r5 := "]" + rest;
    var r3 := ".." + (NatToString(max) + r5);
    var r1 := " in range [" + (NatToString(min) + r3);
    NumberOf(current, r1);
    ExpectOf(" in range [", NatToString(min) + r3);
    NumberOf(min, r3);
    ExpectOf("..", NatToString(max) + r5);
    NumberOf(max, r5);
  }

  /** The second form, after such a prefix, gives back the current level and
      the maximum. */
  lemma PairFormParses(pre: string, current: nat, max: nat, rest: string)
    requires 'v' !in pre && '[' !in pre
    ensures MatchVolume(PairLine(pre, current, max, rest)) == Some(Reading(current, max))
  {
    var t := PairTail(current, max, rest);
    var s := pre + ("[" + t);
    var i := |pre|;
    assert s[i] == '[';
    assert s[i + 1..] == t;
    PairTailParses(current, max, rest);
    BracketAt(s, i);
    assert forall k :: 0 <= k < i ==> s[k] == pre[k];
    SkipPrefix(s, i);
  }

  /** At a `[` only the second form can match. */
  lemma BracketAt(s: string, i: nat)
    requires i < |s| && s[i] == '['
    ensures VolumeAt(s, i) == PairAfterBracket(s[i + 1..])
  {
    assert !OccursAt(s, "volume is ", i) by {
      if i + 10 <= |s| {
        assert s[i..i + 10][0] == s[i];
      }
    }
  }

  lemma PairTailParses(current: nat, max: nat, rest: string)
    ensures PairAfterBracket(PairTail(current, max, rest)) == Some(Reading(current, max))
  {
    var r3 := "]" + rest;
    var r1 := ", " + (NatToString(max) + r3);
    NumberOf(current, r1);
    ExpectOf(", ", NatToString(max) + r3);
    NumberOf(max, r3);
  }

  /** Neither form starts at a character other than `v` or `[`. */
  lemma {:induction false} SkipPrefix(s: string, i: nat)
    requires i < |s| && VolumeAt(s, i).Some?
    requires forall k :: 0 <= k < i ==> s[k] != 'v' && s[k] != '['
    ensures MatchVolume(s) == VolumeAt(s, i)
  {
    var j := i;
    while j > 0
      invariant 0 <= j <= i
      invariant MatchVolumeFrom(s, j) == MatchVolumeFrom(s, i)
    {
      j := j - 1;
      NoVolumeAt(s, j);
    }
  }

  /** A position holding neither `v` nor `[` is passed over. */
  lemma NoVolumeAt(s: string, j: nat)
    requires j < |s| && s[j] != 'v' && s[j] != '['
    ensures MatchVolumeFrom(s, j) == MatchVolumeFrom(s, j + 1)
  {
    assert !OccursAt(s, "volume is ", j) by {
      if j + 10 <= |s| {
        assert s[j..j + 10][0] == s[j];
      }
    }
  }

  const VERSION_QUERY := "getprop ro.build.version.release"

  /** The volume query for an Android version. */
  function GetCommand(version: nat): string
  {
    if version <= 10 then "media volume --get" else "cmd media_session volume --get --stream 3"
  }

  /** The volume setting for an Android version and a level. */
  function SetCommand(version: nat, level: int): string
  {
    if version <= 10 then "media volume --set " + IntToString(level)
    else "cmd media_session volume --set " + IntToString(level) + " --stream 3"
  }

  /** `Math.round(n / d)` on exact values: halves round up. */
  function RoundDiv(n: int, d: nat): (r: int)
    requires d > 0
    ensures 2 * d * r <= 2 * n + d < 2 * d * (r + 1)
  {
    (2 * n + d) / (2 * d)
  }

  /** The record a session keeps for a device: the device id, and the
      cached Android major version and maximum volume, where 0 stands for
      "not cached" as a falsy value does. */
  class VolumeSession {
    const deviceId: string
    var androidVersion: nat
    var maxVolume: nat

    constructor(deviceId: string)
      ensures this.deviceId == deviceId && androidVersion == 0 && maxVolume == 0
    {
      this.deviceId := deviceId;
      androidVersion := 0;
      maxVolume := 0;
    }

    /** `getMediaVolumeInfo` for this session: the version is queried only
        when none is cached, and the maximum read only when none is cached;
        a maximum below 1 is refused. */
    method QueryVolume(shell: string -> Result<string>) returns (r: Result<Reading>)
      modifies this
      ensures (r, androidVersion, maxVolume) == VolumeQuery(old(androidVersion), old(maxVolume), shell)
    {
      var version := androidVersion;
      if version == 0 {
        match ExecuteAdbShell(shell, VERSION_QUERY)
        case ShellFailed(e) =>
          return Err("Failed to get Android version: " + e);
        case ShellOk(out) =>
          match AndroidVersion(out)
          case Err(e) =>
            return Err("Failed to get Android version: " + e);
          case Ok(v) =>
            version := v;
            androidVersion := v;
      }
      var reading := ReadVolume(shell, version);
      if reading.Err? {
        return Err(reading.msg);
      }
      var current := reading.value.current;
      var max := maxVolume;
      if max == 0 {
        max := reading.value.max;
        maxVolume := max;
      }
      if max < 1 {
        return Err("Invalid volume info: max=" + NatToString(max) + ", current=" + NatToString(current));
      }
      return Ok(Reading(current, max));
    }

    /** `setMediaVolume` for this session: the cached maximum, or a volume
        query when there is none; the level is the rounded share of the
        maximum, and the version must be cached by then. */
    method SetVolume(percentage: int, shell: string -> Result<string>) returns (r: Result<int>)
      modifies this
      ensures (r, androidVersion, maxVolume) == VolumeSetting(deviceId, old(androidVersion), old(maxVolume), percentage, shell)
    {
      var max := maxVolume;
      if max == 0 {
        var q := QueryVolume(shell);
        if q.Err? {
          return Err(q.msg);
        }
        max := q.value.max;
      }
      var level := Share(percentage, max);
      if androidVersion == 0 {
        return Err("Android version not cached for device " + deviceId);
      }
      var done := shell(SetCommand(androidVersion, level));
      if done.Err? {
        return Err(done.msg);
      }
      return Ok(level);
    }
  }

  /** `Array.from(sessionsMap.values()).find(s => s.deviceId === deviceId)`:
      the position of the first session, in insertion order, for the
      device. */
  function FirstSession(sessions: seq<VolumeSession>, deviceId: string): (r: Option<nat>)
    ensures r.Some? ==> r.value < |sessions| && sessions[r.value].deviceId == deviceId
    ensures r.Some? ==> forall k :: 0 <= k < r.value ==> sessions[k].deviceId != deviceId
    ensures r.None? ==> forall k :: 0 <= k < |sessions| ==> sessions[k].deviceId != deviceId
  {
    if sessions == [] then None
    else if sessions[0].deviceId == deviceId then Some(0)
    else match FirstSession(sessions[1..], deviceId)
      case None => None
      case Some(k) => Some(k + 1)
  }

  /** `getMediaVolumeInfo`: the device's first session answers the query
      and updates its cache; no other session changes. */
  method GetMediaVolumeInfo(sessions: seq<VolumeSession>, deviceId: string, shell: string -> Result<string>)
    returns (r: Result<Reading>)
    modifies set k | 0 <= k < |sessions| :: sessions[k]
    ensures FirstSession(sessions, deviceId).None? ==> r == Err("No session found for device " + deviceId)
    ensures FirstSession(sessions, deviceId).Some? ==>
      var s := sessions[FirstSession(sessions, deviceId).value];
      (r, s.androidVersion, s.maxVolume) == VolumeQuery(old(s.androidVersion), old(s.maxVolume), shell)
    ensures forall k :: 0 <= k < |sessions| && (FirstSession(sessions, deviceId).None? || sessions[k] != sessions[FirstSession(sessions, deviceId).value]) ==>
      unchanged(sessions[k])
  {
    var found := FirstSession(sessions, deviceId);
    if found.None? {
      return Err("No session found for device " + deviceId);
    }
    r := sessions[found.value].QueryVolume(shell);
  }

  /** `setMediaVolume`: the device's first session sets the level and
      updates its cache; no other session changes. */
  method SetMediaVolume(sessions: seq<VolumeSession>, deviceId: string, percentage: int, shell: string -> Result<string>)
    returns (r: Result<int>)
    modifies set k | 0 <= k < |sessions| :: sessions[k]
    ensures FirstSession(sessions, deviceId).None? ==> r == Err("No session found for device " + deviceId)
    ensures FirstSession(sessions, deviceId).Some? ==>
      var s := sessions[FirstSession(sessions, deviceId).value];
      (r, s.androidVersion, s.maxVolume) == VolumeSetting(deviceId, old(s.androidVersion), old(s.maxVolume), percentage, shell)
    ensures forall k :: 0 <= k < |sessions| && (FirstSession(sessions, deviceId).None? || sessions[k] != sessions[FirstSession(sessions, deviceId).value]) ==>
      unchanged(sessions[k])
  {
    var found := FirstSession(sessions, deviceId);
    if found.None? {
      return Err("No session found for device " + deviceId);
    }
    r := sessions[found.value].SetVolume(percentage, shell);
  }

  /** The old `media volume` tool serves Android 10 and earlier, the media
      session service later versions; both set the stream to the level. */
  lemma SetCommandForm(version: nat, level: int)
    ensures version <= 10 <==> StartsWith(SetCommand(version, level), "media volume --set ")
    ensures version > 10 ==> StartsWith(SetCommand(version, level), "cmd media_session volume --set ")
  {
    if version > 10 {
      assert SetCommand(version, level)[0] == 'c';
      assert "cmd media_session volume --set " + IntToString(level) + " --stream 3" ==
        "cmd media_session volume --set " + (IntToString(level) + " --stream 3");
    } else {
      assert ("media volume --set " + IntToString(level))[..19] == "media volume --set ";
    }
  }

  /** The volume query of one version: its output, trimmed as the stream
      reader trims it, matched. */
  function ReadVolume(shell: string -> Result<string>, version: nat): (r: Result<Reading>)
    ensures r.Ok? <==> shell(GetCommand(version)).Ok? && MatchVolume(Trim(shell(GetCommand(version)).value)).Some?
    ensures r.Ok? ==> Some(r.value) == MatchVolume(Trim(shell(GetCommand(version)).value))
  {
    match ExecuteAdbShell(shell, GetCommand(version))
    case ShellFailed(e) => Err("Failed to get volume: " + e)
    case ShellOk(out) =>
      match MatchVolume(out)
      case None => Err("Failed to get volume: Unexpected volume output format: " + out)
      case Some(reading) => Ok(reading)
  }

  /** The version a query ends with: the cached one, or the one read. */
  function VersionAfter(version: nat, shell: string -> Result<string>): (r: Result<nat>)
    ensures version != 0 ==> r == Ok(version)
    ensures version == 0 && r.Ok? ==> shell(VERSION_QUERY).Ok? && AndroidVersion(Trim(shell(VERSION_QUERY).value)) == r
  {
    if version != 0 then Ok(version)
    else
      match ExecuteAdbShell(shell, VERSION_QUERY)
      case ShellFailed(e) => Err("Failed to get Android version: " + e)
      case ShellOk(out) =>
        match AndroidVersion(out)
        case Err(e) => Err("Failed to get Android version: " + e)
        case Ok(v) => Ok(v)
  }

  /** The answer of a volume query and the cache it leaves behind:
      (result, cached version, cached maximum). */
  function VolumeQuery(version: nat, max: nat, shell: string -> Result<string>): (r: (Result<Reading>, nat, nat))
    ensures version != 0 ==> r.1 == version
    ensures max != 0 ==> r.2 == max
    ensures r.0.Ok? ==> r.0.value.max == r.2 >= 1
    ensures r.0.Ok? ==> VersionAfter(version, shell) == Ok(r.1) && ReadVolume(shell, r.1).Ok?
    ensures r.0.Ok? ==> r.0.value.current == ReadVolume(shell, r.1).value.current
    ensures r.0.Ok? && max == 0 ==> r.2 == ReadVolume(shell, r.1).value.max
  {
    match VersionAfter(version, shell)
    case Err(e) => (Err(e), version, max)
    case Ok(v) =>
      match ReadVolume(shell, v)
      case Err(e) => (Err(e), v, max)
      case Ok(reading) =>
        var m: nat := if max == 0 then reading.max else max;
        if m < 1 then (Err("Invalid volume info: max=" + NatToString(m) + ", current=" + NatToString(reading.current)), v, m)
        else (Ok(Reading(reading.current, m)), v, m)
  }

  /** The answer of a volume setting and the cache it leaves behind. */
  function VolumeSetting(deviceId: string, version: nat, max: nat, percentage: int, shell: string -> Result<string>)
    : (r: (Result<int>, nat, nat))
    ensures max != 0 ==> r.1 == version && r.2 == max
    ensures r.0.Ok? ==> r.2 >= 1 && r.1 != 0 && shell(SetCommand(r.1, r.0.value)).Ok?
    ensures r.0.Ok? ==> 200 * r.0.value <= 2 * (percentage * r.2) + 100 < 200 * (r.0.value + 1)
    ensures r.0.Ok? && 0 <= percentage <= 100 ==> 0 <= r.0.value <= r.2
  {
    var (q, v, m) := if max == 0 then VolumeQuery(version, max, shell) else (Ok(Reading(0, max)), version, max);
    if q.Err? then (Err(q.msg), v, m)
    else
      var level := Share(percentage, q.value.max);
      if v == 0 then (Err("Android version not cached for device " + deviceId), v, m)
      else match shell(SetCommand(v, level))
        case Err(e) => (Err(e), v, m)
        case Ok(_) => (Ok(level), v, m)
  }

  /** `Math.round((percentage / 100) * max)`: the level nearest to the
      share of the maximum, which lies between 0 and the maximum for a
      percentage between 0 and 100. */
  function Share(percentage: int, max: nat): (level: int)
    ensures 200 * level <= 2 * (percentage * max) + 100 < 200 * (level + 1)
    ensures 0 <= percentage <= 100 ==> 0 <= level <= max
  {
    LevelInRange(percentage, max);
    RoundDiv(percentage * max, 100)
  }

  lemma LevelInRange(percentage: int, max: nat)
    ensures 0 <= percentage <= 100 ==> 0 <= RoundDiv(percentage * max, 100) <= max
  {
    if 0 <= percentage <= 100 {
      var r := RoundDiv(percentage * max, 100);
      assert percentage * max <= 100 * max by {
        assert (100 - percentage) * max >= 0;
      }
      assert percentage * max >= 0;
      assert 200 * r <= 200 * max + 100;
      assert 100 < 200 * (r + 1);
    }
  }

  // ---------------------------------------------------------------------
  // getBatteryLevel

  /** `getBatteryLevel`: the trimmed output parsed as a decimal integer,
      which must lie in 0..100. */
  function BatteryLevel(output: string): (r: Result<int>)
    ensures r.Ok? ==> 0 <= r.value <= 100
    ensures r.Ok? <==> (ParseInt(Trim(Trim(output))).Some? && 0 <= ParseInt(Trim(Trim(output))).value <= 100)
    ensures r.Err? ==> r.msg == "Invalid battery level: " + Trim(Trim(output))
  {
    var t := Trim(Trim(output));
    match ParseInt(t)
    case Some(v) => if 0 <= v <= 100 then Ok(v) else Err("Invalid battery level: " + t)
    case None => Err("Invalid battery level: " + t)
  }

  /** A level the battery service prints is read back. */
  lemma BatteryLevelOf(level: nat)
    requires level <= 100
    ensures BatteryLevel(NatToString(level)) == Ok(level)
  {
    var s := NatToString(level);
    assert TrimStart(s) == s;
    assert TrimEnd(s) == s;
    ParseIntOfNat(level);
  }
}
