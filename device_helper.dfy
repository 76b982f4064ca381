/** The Python device helper: it sorts `adb devices` ids into USB and
    network devices, finds the device's Wi-Fi address and a newly created
    overlay display, remembers the chosen device serial, and builds the
    `scrcpy` command line. Process output is taken as input. */
module DeviceHelper {
  import opened Wrappers
  import opened Text

  // ---------------------------------------------------------------------
  // Dotted groups of digits, as the regular expressions match them

  /** The end of the digit run that starts at `i`. */
  function RunEnd(s: string, i: nat): (e: nat)
    requires i <= |s|
    ensures i <= e <= |s| && (e < |s| ==> !IsDigit(s[e]))
    decreases |s| - i
  {
    if i == |s| || !IsDigit(s[i]) then i else RunEnd(s, i + 1)
  }

  /** Where `k` maximal digit runs joined by dots, starting at `i`, end:
      what `\d+(\.\d+){k-1}` matches there when the next character is not
      a digit (backtracking into a run only leaves a digit where a dot or
      the rest of the pattern is needed); `None` when there are not `k`
      such runs. */
  function Groups(s: string, i: nat, k: nat): (r: Option<nat>)
    requires i <= |s| && k >= 1
    ensures r.Some? ==> i < r.value <= |s| && (r.value < |s| ==> !IsDigit(s[r.value]))
    decreases k
  {
    var e := RunEnd(s, i);
    if e == i then None
    else if k == 1 then Some(e)
    else if e == |s| || s[e] != '.' then None
    else Groups(s, e + 1, k - 1)
  }

  /** An IPv4 address in dotted decimal: four digit runs and nothing else. */
  predicate IsQuad(ip: string)
  {
    Groups(ip, 0, 4) == Some(|ip|)
  }

  /** `re.match(r'^\d+\.\d+\.\d+\.\d+:\d+$', id)`; Python's `$` also
      matches just before a final newline. */
  predicate IsNetworkId(id: string)
  {
    NetworkShape(id) || (|id| > 0 && id[|id| - 1] == '\n' && NetworkShape(id[..|id| - 1]))
  }

  predicate NetworkShape(id: string)
  {
    match Groups(id, 0, 4)
    case None => false
    case Some(n) => n < |id| && id[n] == ':' && DigitRun(id[n + 1..])
  }

  /** Cutting the text where neither a digit nor a dot follows leaves
      every run and group that starts before the cut as it is. */
  lemma {:induction false} RunTake(s: string, i: nat, n: nat)
    requires i <= n <= |s| && (n == |s| || !IsDigit(s[n]))
    ensures RunEnd(s[..n], i) == RunEnd(s, i)
    decreases n - i
  {
    if i < n && IsDigit(s[i]) {
      assert s[..n][i] == s[i];
      RunTake(s, i + 1, n);
    }
  }

  lemma {:induction false} GroupsTake(s: string, i: nat, k: nat, n: nat)
    requires i <= n <= |s| && k >= 1 && (n == |s| || (!IsDigit(s[n]) && s[n] != '.'))
    ensures Groups(s[..n], i, k) == Groups(s, i, k)
    decreases k
  {
    RunTake(s, i, n);
    var r := RunEnd(s, i);
    if k > 1 && r > i && r < n {
      assert s[..n][r] == s[r];
      if s[r] == '.' {
        GroupsTake(s, r + 1, k - 1, n);
      }
    }
  }

  /** Dropping the first `a` characters moves every run and group `a`
      positions to the left. */
  lemma {:induction false} RunDrop(s: string, a: nat, i: nat)
    requires a + i <= |s|
    ensures RunEnd(s[a..], i) == RunEnd(s, a + i) - a
    decreases |s| - a - i
  {
    if a + i < |s| && IsDigit(s[a + i]) {
      assert s[a..][i] == s[a + i];
      RunDrop(s, a, i + 1);
    }
  }

  lemma {:induction false} GroupsDrop(s: string, a: nat, i: nat, k: nat)
    requires a + i <= |s| && k >= 1
    ensures Groups(s[a..], i, k) == if Groups(s, a + i, k).Some? then Some(Groups(s, a + i, k).value - a) else None
    decreases k
  {
    RunDrop(s, a, i);
    var r := RunEnd(s, a + i);
    if k > 1 && r > a + i && r < |s| {
      assert s[a..][r - a] == s[r];
      if s[r] == '.' {
        GroupsDrop(s, a, r - a + 1, k - 1);
      }
    }
  }

  /** The Wi-Fi target `<ip>:5555` of a dotted address is a network id. */
  lemma WifiTargetIsNetwork(ip: string)
    requires IsQuad(ip)
    ensures IsNetworkId(WifiTarget(ip))
  {
    var id := WifiTarget(ip);
    GroupsTake(id, 0, 4, |ip|);
    assert id[..|ip|] == ip;
    assert id[|ip| + 1..] == "5555";
    assert NetworkShape(id);
  }

  /** `f"{ip}:5555"`. */
  function WifiTarget(ip: string): (id: string)
    ensures |id| == |ip| + 5 && id[..|ip|] == ip && id[|ip|..] == ":5555"
  {
    ip + ":5555"
  }

  // ---------------------------------------------------------------------
  // classify_devices

  /** The ids, in order, that are (`network`) or are not network ids. */
  function Kept(devices: seq<string>, network: bool): (r: seq<string>)
    ensures |r| <= |devices|
    ensures forall d | d in r :: d in devices && IsNetworkId(d) == network
  {
    if devices == [] then []
    else
      var last := devices[|devices| - 1];
      Kept(devices[..|devices| - 1], network) + (if IsNetworkId(last) == network then [last] else [])
  }

  /** `classify_devices`: one pass appending each id to one of two lists. */
  method ClassifyDevices(devices: seq<string>) returns (usb: seq<string>, network: seq<string>)
    ensures usb == Kept(devices, false) && network == Kept(devices, true)
  {
    usb, network := [], [];
    var i := 0;
    while i < |devices|
      invariant 0 <= i <= |devices|
      invariant usb == Kept(devices[..i], false) && network == Kept(devices[..i], true)
    {
      assert devices[..i + 1][..i] == devices[..i];
      if IsNetworkId(devices[i]) {
        network := network + [devices[i]];
      } else {
        usb := usb + [devices[i]];
      }
      i := i + 1;
    }
    assert devices[..i] == devices;
  }

  /** Every id lands in exactly one list: together they hold each id as
      often as the input does, and an id is a network id exactly when it
      is in the network list. */
  lemma {:induction false} ClassifyPartition(devices: seq<string>)
    ensures multiset(Kept(devices, false)) + multiset(Kept(devices, true)) == multiset(devices)
    ensures forall d :: d in Kept(devices, true) <==> d in devices && IsNetworkId(d)
    ensures forall d :: d in Kept(devices, false) <==> d in devices && !IsNetworkId(d)
    decreases |devices|
  {
    if devices != [] {
      var init := devices[..|devices| - 1];
      ClassifyPartition(init);
      assert devices == init + [devices[|devices| - 1]];
    }
  }

  // ---------------------------------------------------------------------
  // Device lines

  /** `'\tdevice' in line`. */
  predicate Listed(line: string)
  {
    Contains(line, "\tdevice")
  }

  /** `[line.split('\t')[0] for line in lines if '\tdevice' in line]`. */
  function DeviceIds(lines: seq<string>): (ids: seq<string>)
    ensures |ids| <= |lines|
    ensures forall i :: 0 <= i < |ids| ==> '\t' !in ids[i]
  {
    if lines == [] then []
    else
      var rest := DeviceIds(lines[1..]);
      if Listed(lines[0]) then [Split(lines[0], '\t')[0]] + rest else rest
  }

  /** An id is listed exactly when some `device` line starts with it and a
      tab; lines of other states contribute nothing. */
  lemma {:induction false} DeviceIdsListed(lines: seq<string>, id: string)
    ensures id in DeviceIds(lines) <==>
      exists i :: 0 <= i < |lines| && Listed(lines[i]) && Split(lines[i], '\t')[0] == id
    decreases |lines|
  {
    if lines != [] {
      DeviceIdsListed(lines[1..], id);
      if id in DeviceIds(lines) && !(Listed(lines[0]) && Split(lines[0], '\t')[0] == id) {
        var i :| 0 <= i < |lines[1..]| && Listed(lines[1..][i]) && Split(lines[1..][i], '\t')[0] == id;
        assert lines[i + 1] == lines[1..][i];
      }
      if exists i :: 0 <= i < |lines| && Listed(lines[i]) && Split(lines[i], '\t')[0] == id {
        var i :| 0 <= i < |lines| && Listed(lines[i]) && Split(lines[i], '\t')[0] == id;
        if i > 0 {
          assert lines[1..][i - 1] == lines[i];
        }
      }
    }
  }

  // ---------------------------------------------------------------------
  // get_device_ip

  /** `inet <dotted quad>/` occurs at `i`: where the regular expression
      `inet (\d+\.\d+\.\d+\.\d+)/` can match. */
  ghost predicate InetMatchesAt(out: string, i: nat)
  {
    exists ip :: IsQuad(ip) && OccursAt(out, "inet " + ip + "/", i)
  }

  /** The address `re.search(r'inet (\d+\.\d+\.\d+\.\d+)/', out)` captures
      when its match starts at `i`. */
  function InetAt(out: string, i: nat): (r: Option<string>)
    ensures r.Some? ==> IsQuad(r.value) && OccursAt(out, "inet " + r.value + "/", i)
  {
    if !OccursAt(out, "inet ", i) then None
    else
      match Groups(out, i + 5, 4)
      case None => None
      case Some(e) =>
        if e < |out| && out[e] == '/' then
          SliceIsQuad(out, i + 5, e);
          InetMatch(out, i, e - i - 5);
          Some(out[i + 5..e])
        else None
  }

  /** The text from `a` to the `/` after four groups is a dotted quad. */
  lemma SliceIsQuad(out: string, a: nat, e: nat)
    requires a <= e < |out| && out[e] == '/' && Groups(out, a, 4) == Some(e)
    ensures IsQuad(out[a..e])
  {
    GroupsTake(out, a, 4, e);
    GroupsDrop(out[..e], a, 0, 4);
    assert out[..e][a..] == out[a..e];
  }

  lemma InetMatch(out: string, i: nat, n: nat)
    requires OccursAt(out, "inet ", i) && i + 5 + n < |out| && out[i + 5 + n] == '/'
    ensures OccursAt(out, "inet " + out[i + 5..i + 5 + n] + "/", i)
  {
    var w := out[i..i + 6 + n];
    assert w == out[i..i + 5] + out[i + 5..i + 5 + n] + [out[i + 5 + n]];
  }

  /** `InetAt` finds exactly the address the pattern matches at `i`: a
      dotted quad followed by `/` there is the one it returns, and it
      returns nothing where the pattern does not match. */
  lemma InetAtExact(out: string, i: nat, ip: string)
    ensures InetAt(out, i) == Some(ip) <==> IsQuad(ip) && OccursAt(out, "inet " + ip + "/", i)
  {
    if IsQuad(ip) && OccursAt(out, "inet " + ip + "/", i) {
      var n := i + 5 + |ip|;
      InetPieces(out, i, ip);
      QuadGroups(out, i, ip);
      assert Groups(out, i + 5, 4) == Some(n);
    }
  }

  /** The three pieces of an `inet <ip>/` occurrence. */
  lemma InetPieces(out: string, i: nat, ip: string)
    requires OccursAt(out, "inet " + ip + "/", i)
    ensures OccursAt(out, "inet ", i) && i + 5 + |ip| < |out|
    ensures out[i + 5..i + 5 + |ip|] == ip && out[i + 5 + |ip|] == '/'
  {
    var w := "inet " + ip + "/";
    assert out[i..i + |w|] == w;
    assert out[i..i + 5] == out[i..i + |w|][..5] == w[..5];
    forall k | 0 <= k < |ip|
      ensures out[i + 5 + k] == ip[k]
    {
      assert out[i + 5 + k] == out[i..i + |w|][5 + k] == w[5 + k];
    }
    assert out[i + 5..i + 5 + |ip|] == ip;
    assert out[i + 5 + |ip|] == out[i..i + |w|][5 + |ip|] == w[5 + |ip|];
  }

  /** The four groups of a dotted quad copied into the output end where
      the quad does when `/` follows. */
  lemma QuadGroups(out: string, i: nat, ip: string)
    requires IsQuad(ip) && i + 5 + |ip| < |out|
    requires out[i + 5..i + 5 + |ip|] == ip && out[i + 5 + |ip|] == '/'
    ensures Groups(out, i + 5, 4) == Some(i + 5 + |ip|)
  {
    var n := i + 5 + |ip|;
    GroupsTake(out, i + 5, 4, n);
    GroupsDrop(out[..n], i + 5, 0, 4);
    assert out[..n][i + 5..] == ip;
  }

  /** As a match predicate: `InetAt` answers exactly where the pattern
      matches. */
  lemma InetAtMatches(out: string, i: nat)
    ensures InetAt(out, i).Some? <==> InetMatchesAt(out, i)
  {
    if InetMatchesAt(out, i) {
      var ip :| IsQuad(ip) && OccursAt(out, "inet " + ip + "/", i);
      InetAtExact(out, i, ip);
    }
  }

  /** The first match at or after `from`. */
  function FirstInet(out: string, from: nat): (r: Option<string>)
    ensures r.Some? ==> IsQuad(r.value) && Contains(out, "inet " + r.value + "/")
    ensures r.Some? ==> exists i :: from <= i < |out| && InetAt(out, i) == r &&
                                    forall j :: from <= j < i ==> InetAt(out, j).None?
    ensures r.None? ==> forall i :: from <= i < |out| ==> InetAt(out, i).None?
    decreases |out| - from
  {
    if from >= |out| then None
    else
      match InetAt(out, from)
      case Some(ip) => ContainsAt(out, "inet " + ip + "/", from); Some(ip)
      case None => FirstInet(out, from + 1)
  }

  /** `get_device_ip` from the exit code and output of
      `adb -s <serial> shell ip addr show wlan0`. */
  function DeviceIp(code: int, out: string): (r: Option<string>)
    ensures r.Some? ==> code == 0 && Contains(out, "inet ")
    ensures r.Some? ==> IsQuad(r.value) && Contains(out, "inet " + r.value + "/")
    ensures code == 0 && Contains(out, "inet ") ==>
      (r.None? <==> forall i :: 0 <= i < |out| ==> InetAt(out, i).None?)
    ensures r.Some? ==> exists i :: 0 <= i < |out| && InetAt(out, i) == r &&
                                    forall j :: 0 <= j < i ==> InetAt(out, j).None?
  {
    if code == 0 && Contains(out, "inet ") then FirstInet(out, 0) else None
  }

  /** `get_device_ip`'s answer in terms of the pattern alone: the address
      of the first position where `inet <dotted quad>/` matches, and `None`
      when the run failed or nothing matches. The `'inet ' in stdout` guard
      changes nothing, since every match contains `inet `. */
  lemma DeviceIpFirstMatch(code: int, out: string)
    ensures DeviceIp(code, out).None? <==>
      code != 0 || forall i :: 0 <= i < |out| ==> !InetMatchesAt(out, i)
    ensures var r := DeviceIp(code, out);
      r.Some? ==> exists i :: 0 <= i < |out| && OccursAt(out, "inet " + r.value + "/", i) &&
                              forall j :: 0 <= j < i ==> !InetMatchesAt(out, j)
  {
    var r := DeviceIp(code, out);
    if code == 0 && exists i :: 0 <= i < |out| && InetMatchesAt(out, i) {
      var i :| 0 <= i < |out| && InetMatchesAt(out, i);
      DeviceIpFindsMatch(code, out, i);
    }
    if r.Some? {
      var i :| 0 <= i < |out| && InetAt(out, i) == r && forall j :: 0 <= j < i ==> InetAt(out, j).None?;
      InetAtExact(out, i, r.value);
      assert InetMatchesAt(out, i);
      NoMatchBefore(out, i);
    }
  }

  lemma DeviceIpFindsMatch(code: int, out: string, i: nat)
    requires code == 0 && InetMatchesAt(out, i)
    ensures DeviceIp(code, out).Some?
  {
    var ip :| IsQuad(ip) && OccursAt(out, "inet " + ip + "/", i);
    InetAtExact(out, i, ip);
    InetPrefix(out, i, ip);
  }

  lemma NoMatchBefore(out: string, i: nat)
    requires forall j :: 0 <= j < i ==> InetAt(out, j).None?
    ensures forall j :: 0 <= j < i ==> !InetMatchesAt(out, j)
  {
    forall j | 0 <= j < i
      ensures !InetMatchesAt(out, j)
    {
      InetAtMatches(out, j);
    }
  }

  /** A match of the whole pattern contains `inet `. */
  lemma InetPrefix(out: string, i: nat, ip: string)
    requires OccursAt(out, "inet " + ip + "/", i)
    ensures Contains(out, "inet ")
  {
    var w := "inet " + ip + "/";
    assert out[i..i + 5] == out[i..i + |w|][..5] == w[..5] == "inet ";
    ContainsAt(out, "inet ", i);
  }

  // ---------------------------------------------------------------------
  // get_dynamic_display_id

  /** The overlay that `get_dynamic_display_id` always creates, whatever
      size was asked for. */
  const PROBE_OVERLAY: string := "1920x1080/160"

  /** `re.search(r'--display-id=(\d+)', line)`: the first occurrence that is
      followed by a digit, and the value of its digit run. */
  function DisplayIdFrom(line: string, from: nat): (r: Option<nat>)
    decreases |line| - from
  {
    if from >= |line| then None
    else if OccursAt(line, "--display-id=", from) && LeadingDigits(line[from + 13..]) > 0 then
      var t := line[from + 13..];
      Some(DigitsValue(t[..LeadingDigits(t)]))
    else DisplayIdFrom(line, from + 1)
  }

  /** The display ids of a `scrcpy --list-displays` run, in order; a failed
      run lists none. */
  function DisplayIds(code: int, lines: seq<string>): (ids: seq<nat>)
    ensures code != 0 ==> ids == []
    ensures |ids| <= |lines|
  {
    if code != 0 || lines == [] then []
    else
      var init := DisplayIds(code, lines[..|lines| - 1]);
      match DisplayIdFrom(lines[|lines| - 1], 0)
      case Some(id) => init + [id]
      case None => init
  }

  /** The loop of `get_dynamic_display_id` that collects the ids. */
  method CollectDisplayIds(code: int, lines: seq<string>) returns (ids: seq<nat>)
    ensures ids == DisplayIds(code, lines)
  {
    ids := [];
    if code == 0 {
      var i := 0;
      while i < |lines|
        invariant 0 <= i <= |lines|
        invariant ids == DisplayIds(code, lines[..i])
      {
        assert lines[..i + 1][..i] == lines[..i];
        var found := DisplayIdFrom(lines[i], 0);
        if found.Some? {
          ids := ids + [found.value];
        }
        i := i + 1;
      }
      assert lines[..i] == lines;
    }
  }

  /** `list(set(updated) - set(initial))[0]`, or `None` when no display is
      new. Which new id a Python set yields first is unspecified; this
      takes the first new one in listing order. */
  function NewDisplayId(initial: seq<nat>, updated: seq<nat>): (r: Option<nat>)
    ensures r.Some? ==> r.value in updated && r.value !in initial
    ensures r.None? <==> forall x | x in updated :: x in initial
  {
    if updated == [] then None
    else if updated[0] !in initial then Some(updated[0])
    else NewDisplayId(initial, updated[1..])
  }

  /** The commands `get_dynamic_display_id` runs, in order: the overlay is
      reset, the displays listed, the fixed overlay created, and the
      displays listed again. */
  function ProbeCalls(serial: string): seq<seq<string>>
  {
    [OverlayCall(serial, "none"), ListDisplays(serial), OverlayCall(serial, PROBE_OVERLAY), ListDisplays(serial)]
  }

  function OverlayCall(serial: string, value: string): seq<string>
  {
    ["adb", "-s", serial, "shell", "settings", "put", "global", "overlay_display_devices", value]
  }

  function ListDisplays(serial: string): seq<string>
  {
    ["scrcpy", "-s", serial, "--list-displays"]
  }

  /** One `scrcpy --list-displays` run: its exit code and output lines. */
  datatype Listing = Listing(code: int, lines: seq<string>)

  /** `get_dynamic_display_id`, given what its two listings print: the
      commands it runs, and the first id of the second listing that the
      first did not show. */
  method GetDynamicDisplayId(serial: string, before: Listing, after: Listing)
    returns (calls: seq<seq<string>>, id: Option<nat>)
    ensures calls == ProbeCalls(serial)
    ensures id == NewDisplayId(DisplayIds(before.code, before.lines), DisplayIds(after.code, after.lines))
  {
    var initial := CollectDisplayIds(before.code, before.lines);
    var updated := CollectDisplayIds(after.code, after.lines);
    calls := ProbeCalls(serial);
    id := NewDisplayId(initial, updated);
  }

  // ---------------------------------------------------------------------
  // detect_device and start_scrcpy

  /** The exit code and output of one subprocess. */
  datatype Proc = Proc(code: int, stdout: string, stderr: string)

  /** What the adb calls of `detect_device` answer: the lines of
      `adb devices` (or the error text when it fails), the `ip addr` run
      for the first USB device, `tcpip 5555`, `adb connect`, and the second
      `adb devices`. */
  datatype Replies = Replies(devices: Result<seq<string>>, ipAddr: Proc, tcpip: Proc,
                             connect: Proc, devicesAfter: Result<string>)

  /** A successful detection: the serial chosen and the address reported. */
  datatype Detected = Detected(serial: string, ip: Option<string>)

  /** `'connected to' in out or 'already connected' in out`. */
  predicate ConnectedOutput(out: string)
  {
    Contains(out, "connected to") || Contains(out, "already connected")
  }

  /** The request fields `start_scrcpy` reads; an empty string stands for a
      missing or empty value. */
  datatype StartRequest = StartRequest(resolution: string, dpi: string, bitrate: string,
    maxFps: string, rotationLock: string, options: seq<string>, useAndroid11: bool)

  /** `start_scrcpy`'s answer: an HTTP 500 with its text, or the command
      with the adb calls made before it and whether the overlay is reset
      once `scrcpy` exits. */
  datatype Launch =
    | Refused(setup: seq<seq<string>>, message: string)
    | Launched(setup: seq<seq<string>>, cmd: seq<string>, resetNeeded: bool)

  /** The display argument: `--new-display=<res>/<dpi or 160>` on the
      Android 11 path when a resolution is given, `--display-id=<id>` on the
      overlay path when both resolution and dpi are given. */
  function DisplayArg(req: StartRequest, displayId: nat): (arg: seq<string>)
    ensures req.useAndroid11 ==> (|arg| == 1 <==> req.resolution != "")
    ensures !req.useAndroid11 ==> (|arg| == 1 <==> req.resolution != "" && req.dpi != "")
    ensures |arg| <= 1
  {
    if req.useAndroid11 then
      if req.resolution != "" then
        ["--new-display=" + req.resolution + "/" + (if req.dpi != "" then req.dpi else "160")]
      else []
    else if req.resolution != "" && req.dpi != "" then ["--display-id=" + NatToString(displayId)]
    else []
  }

  /** The non-empty strings of `s`, in their order. */
  function NonEmpty(s: seq<string>): (r: seq<string>)
    ensures |r| <= |s|
    ensures forall x :: x in r <==> x in s && x != ""
  {
    if s == [] then [] else (if s[0] != "" then [s[0]] else []) + NonEmpty(s[1..])
  }

  /** The bitrate, max-fps and rotation-lock values that are set, in that
      order: each appears exactly when it is non-empty, bitrate first and
      rotation lock last. */
  function Flags(req: StartRequest): (f: seq<string>)
    ensures f == NonEmpty([req.bitrate, req.maxFps, req.rotationLock])
    ensures |f| <= 3 && forall i :: 0 <= i < |f| ==> f[i] != ""
    ensures req.bitrate != "" ==> |f| > 0 && f[0] == req.bitrate
    ensures req.rotationLock != "" ==> |f| > 0 && f[|f| - 1] == req.rotationLock
    ensures req.maxFps != "" ==> req.maxFps in f
    ensures req.bitrate == "" && req.maxFps == "" && req.rotationLock == "" <==> f == []
  {
    var s := [req.bitrate, req.maxFps, req.rotationLock];
    assert s[1..] == [req.maxFps, req.rotationLock] && s[1..][1..] == [req.rotationLock];
    assert NonEmpty([req.rotationLock]) == if req.rotationLock != "" then [req.rotationLock] else [];
    (if req.bitrate != "" then [req.bitrate] else [])
    + (if req.maxFps != "" then [req.maxFps] else [])
    + (if req.rotationLock != "" then [req.rotationLock] else [])
  }

  /** The overlay path: no Android 11 flag, and both resolution and dpi. */
  predicate OverlayPath(req: StartRequest)
  {
    !req.useAndroid11 && req.resolution != "" && req.dpi != ""
  }

  /** `run_scrcpy_with_reset`: the actions the helper thread performs;
      `spawned` says whether `subprocess.Popen` started scrcpy or raised
      (scrcpy missing, say). The spawn is attempted first and once; a
      failed spawn ends the thread there; otherwise the overlay is reset
      exactly when a reset is owed, and never before scrcpy has exited. */
  datatype Action = Spawn(cmd: seq<string>) | WaitForExit | Run(call: seq<string>)

  function RunWithReset(cmd: seq<string>, serial: string, resetNeeded: bool, spawned: bool): (acts: seq<Action>)
    ensures |acts| > 0 && acts[0] == Spawn(cmd) && Spawn(cmd) !in acts[1..]
    ensures !spawned ==> acts == [Spawn(cmd)]
    ensures Run(OverlayCall(serial, "none")) in acts <==> resetNeeded && spawned
    ensures forall k :: 0 <= k < |acts| && acts[k].Run? ==> WaitForExit in acts[..k]
  {
    var acts := [Spawn(cmd)] + if resetNeeded && spawned then [WaitForExit, Run(OverlayCall(serial, "none"))] else [];
    assert resetNeeded && spawned ==> acts[..2][1] == WaitForExit;
    acts
  }

  /** The address the Wi-Fi branch connects to: the one given, or else the
      first USB device's own. */
  function WifiAddress(ip: string, usb: seq<string>, replies: Replies): (r: Option<string>)
    ensures ip != "" ==> r == Some(ip)
    ensures ip == "" && r.Some? ==> usb != [] && r == DeviceIp(replies.ipAddr.code, replies.ipAddr.stdout)
  {
    if ip != "" then Some(ip)
    else if usb != [] then DeviceIp(replies.ipAddr.code, replies.ipAddr.stdout)
    else None
  }

  /** The Wi-Fi branch of `detect_device` after the disconnects, up to the
      point where the serial would be stored. */
  method ConnectWifi(ip: string, usb: seq<string>, replies: Replies) returns (r: Result<Detected>)
    ensures var target := WifiAddress(ip, usb, replies);
      (r.Ok? <==> (target.Some? && (ip != "" || replies.tcpip.code == 0)
                   && ConnectedOutput(replies.connect.stdout) && replies.devicesAfter.Ok?
                   && Contains(replies.devicesAfter.value, WifiTarget(target.value))))
      && (r.Ok? ==> r.value == Detected(WifiTarget(target.value), target))
    ensures r.Ok? && ip == "" ==> IsNetworkId(r.value.serial)
  {
    var target := if ip != "" then Some(ip) else None;
    if ip == "" && usb != [] {
      target := DeviceIp(replies.ipAddr.code, replies.ipAddr.stdout);
      if target.Some? && replies.tcpip.code != 0 {
        return Err("Failed to enable TCP/IP: " + replies.tcpip.stderr);
      }
    }
    if target.None? {
      return Err("IP address required for WiFi mode and could not be auto-detected");
    }
    var wifi := WifiTarget(target.value);
    if !ConnectedOutput(replies.connect.stdout) {
      return Err("Failed to connect to " + wifi + ": " + replies.connect.stderr);
    }
    if replies.devicesAfter.Err? {
      return Err("ADB error: " + replies.devicesAfter.msg);
    }
    if !Contains(replies.devicesAfter.value, wifi) {
      return Err(wifi + " not found after connection attempt");
    }
    if ip == "" {
      WifiTargetIsNetwork(target.value);
    }
    return Ok(Detected(wifi, target));
  }

  /** The helper's one piece of state, `DEVICE_SERIAL`. */
  class Helper {
    var deviceSerial: Option<string>

    constructor()
      ensures deviceSerial == None
    {
      deviceSerial := None;
    }

    /** `detect_device`: in USB mode the first USB id is chosen; in Wi-Fi
        mode the address (given, or read from the first USB device, which is
        then switched to TCP/IP) is connected on port 5555 and must show up
        in `adb devices`. The serial changes only on success. */
    method DetectDevice(mode: string, ip: string, replies: Replies)
      returns (r: Result<Detected>, disconnected: seq<string>)
      modifies this
      ensures r.Err? ==> deviceSerial == old(deviceSerial)
      ensures r.Ok? ==> deviceSerial == Some(r.value.serial)
      ensures replies.devices.Err? ==> r == Err("ADB error: " + replies.devices.msg) && disconnected == []
      ensures mode != "usb" && mode != "wifi" && replies.devices.Ok? ==> r == Err("Invalid connection mode")
      ensures mode == "usb" && replies.devices.Ok? ==>
        var usb := Kept(DeviceIds(replies.devices.value), false);
        (r.Ok? <==> usb != [])
        && (r.Ok? ==> r.value == Detected(usb[0], DeviceIp(replies.ipAddr.code, replies.ipAddr.stdout)))
      ensures replies.devices.Ok? ==>
        disconnected == if mode == "wifi" then Kept(DeviceIds(replies.devices.value), true) else []
      ensures mode == "wifi" && replies.devices.Ok? ==>
        var target := WifiAddress(ip, Kept(DeviceIds(replies.devices.value), false), replies);
        (r.Ok? <==> (target.Some? && (ip != "" || replies.tcpip.code == 0)
                     && ConnectedOutput(replies.connect.stdout) && replies.devicesAfter.Ok?
                     && Contains(replies.devicesAfter.value, WifiTarget(target.value))))
        && (r.Ok? ==> r.value == Detected(WifiTarget(target.value), target))
      ensures mode == "wifi" && r.Ok? && ip == "" ==> IsNetworkId(r.value.serial)
    {
      disconnected := [];
      if replies.devices.Err? {
        r := Err("ADB error: " + replies.devices.msg);
        return;
      }
      var usb, network := ClassifyDevices(DeviceIds(replies.devices.value));
      if mode == "usb" {
        if usb == [] {
          r := Err("No USB devices found");
          return;
        }
        deviceSerial := Some(usb[0]);
        r := Ok(Detected(usb[0], DeviceIp(replies.ipAddr.code, replies.ipAddr.stdout)));
      } else if mode == "wifi" {
        disconnected := network;
        r := ConnectWifi(ip, usb, replies);
        if r.Ok? {
          deviceSerial := Some(r.value.serial);
        }
      } else {
        r := Err("Invalid connection mode");
      }
    }

    /** `if not DEVICE_SERIAL`: no serial, or an empty one. */
    predicate NoSerial()
      reads this
    {
      deviceSerial.None? || deviceSerial.value == ""
    }

    /** `start_scrcpy`, given what the two display listings of the overlay
        path print: the command is `scrcpy -s <serial>`, the display
        argument, the set flags and the options verbatim; the overlay path
        needs a new display id and owes a reset, and its adb calls are made
        whether or not an id is found. A launch is answered before the
        thread spawns scrcpy, so the answer does not depend on the spawn,
        and a failed spawn leaves the overlay set. */
    method StartScrcpy(req: StartRequest, before: Listing, after: Listing) returns (r: Launch)
      ensures NoSerial() ==> r == Refused([], "Error: No device detected yet")
      ensures !NoSerial() && OverlayPath(req) ==>
        r.setup == [OverlayCall(deviceSerial.value, req.resolution + "/" + req.dpi)] + ProbeCalls(deviceSerial.value)
      ensures !OverlayPath(req) ==> r.setup == []
      ensures var id := NewDisplayId(DisplayIds(before.code, before.lines), DisplayIds(after.code, after.lines));
        && (!NoSerial() && OverlayPath(req) && id.None? ==> r.Refused? && r.message == "Error: Could not find a valid display ID")
        && (r.Refused? <==> NoSerial() || (OverlayPath(req) && id.None?))
        && (r.Launched? ==>
              r.cmd == ["scrcpy", "-s", deviceSerial.value] + DisplayArg(req, if id.Some? then id.value else 0)
                       + Flags(req) + req.options)
      ensures r.Launched? ==> (r.resetNeeded <==> OverlayPath(req))
      ensures r.Launched? ==>
        (Run(OverlayCall(deviceSerial.value, "none")) in RunWithReset(r.cmd, deviceSerial.value, r.resetNeeded, true)
         <==> OverlayPath(req))
        && Run(OverlayCall(deviceSerial.value, "none")) !in RunWithReset(r.cmd, deviceSerial.value, r.resetNeeded, false)
    {
      if NoSerial() {
        return Refused([], "Error: No device detected yet");
      }
      var serial := deviceSerial.value;
      var cmd := ["scrcpy", "-s", serial];
      var setup: seq<seq<string>> := [];
      var resetNeeded := false;
      var found: Option<nat> := None;
      if req.useAndroid11 {
        if req.resolution != "" {
          cmd := cmd + ["--new-display=" + req.resolution + "/" + (if req.dpi != "" then req.dpi else "160")];
        }
      } else if req.resolution != "" && req.dpi != "" {
        var probe;
        probe, found := GetDynamicDisplayId(serial, before, after);
        setup := [OverlayCall(serial, req.resolution + "/" + req.dpi)] + probe;
        if found.None? {
          return Refused(setup, "Error: Could not find a valid display ID");
        }
        cmd := cmd + ["--display-id=" + NatToString(found.value)];
        resetNeeded := true;
      }
      assert cmd == ["scrcpy", "-s", serial] + DisplayArg(req, if found.Some? then found.value else 0);
      cmd := AppendFlags(cmd, req);
      cmd := cmd + req.options;
      return Launched(setup, cmd, resetNeeded);
    }
  }

  /** The three optional flags of `start_scrcpy`, appended when set. */
  method AppendFlags(cmd: seq<string>, req: StartRequest) returns (r: seq<string>)
    ensures r == cmd + Flags(req)
  {
    r := cmd;
    if req.bitrate != "" {
      r := r + [req.bitrate];
    }
    if req.maxFps != "" {
      r := r + [req.maxFps];
    }
    if req.rotationLock != "" {
      r := r + [req.rotationLock];
    }
  }

  /** `get_dynamic_display_id` ignores the size `start_scrcpy` asked for:
      it resets the overlay and creates its own 1920x1080/160 one, so on the
      overlay path the `<resolution>/<dpi>` overlay written first is
      replaced, and the last overlay written before scrcpy starts is the
      fixed one, followed only by the second listing. */
  lemma OverlayIsFixed(serial: string, req: StartRequest)
    requires OverlayPath(req)
    ensures var setup := [OverlayCall(serial, req.resolution + "/" + req.dpi)] + ProbeCalls(serial);
      setup[|setup| - 2] == OverlayCall(serial, PROBE_OVERLAY)
      && forall i :: |setup| - 2 < i < |setup| ==> setup[i][0] == "scrcpy"
  {
  }
}
