/** The QR-code pairing service of the server.

    It covers the first-match searches over mDNS browse results, the
    `/connect-ip` route, and the session record that three things update
    step by step: the initiate route, the cancel route and the
    asynchronous pairing workflow. The search follows RFC 6763, sections 4
    and 5: a PTR record names a service instance, and the SRV record of
    that instance gives its port. Every `await` of the workflow is modelled
    as an event that resumes a `Run`, the workflow's continuation, so a
    cancel request can fall between any two of its steps. Browse results,
    process outputs, the clock and the random names are parameters. */
module QrPairing {
  import opened Wrappers
  import opened Text
  import AdbService
  import DeviceHelper

  const PAIRING_SERVICE := "_adb-tls-pairing._tcp.local"
  const CONNECT_SERVICE := "_adb-tls-connect._tcp.local"
  const PAIRING_TIMEOUT := 90000
  const CONNECT_TIMEOUT := 60000

  // The texts the service prints and matches.
  const PAIR_COMMAND := "adb pair "
  const CONNECT_COMMAND := "adb connect "
  const ELLIPSIS := "..."
  const CANCELLED_MESSAGE := "QR pairing cancelled."
  const UNEXPECTED_MESSAGE := "An unexpected error occurred during the QR process."
  const PAIRING_DISCOVERY_MESSAGE := "Discovering device for pairing..."
  const PAIRING_TIMEOUT_MESSAGE := "Device discovery for pairing timed out."
  const PAIRING_WITH := "Pairing with "
  const PAIRING_FAILED := "Pairing failed. "
  const PAIRING_UNCONFIRMED := "Pairing failed. Device did not confirm success."
  const CONNECT_DISCOVERY_MESSAGE := "Discovering device for connection..."
  const CONNECT_TIMEOUT_MESSAGE := "Device discovery for connection timed out."
  const CONNECTING_TO := "Connecting to "
  const CONNECTED_TO := "Successfully connected to "
  const CONNECT_FAILED := "Connection failed. "
  const CONNECT_UNCONFIRMED := "Connection failed. Device did not confirm success."
  const PAIR_DESCRIPTION := "ADB Pair"
  const CONNECT_DESCRIPTION := "ADB Connect"
  const PAIRED_MARK := "successfully paired"
  const TIMEOUT_MARK := "timeout"
  const TIMEOUT_CAUSE := "Timeout."
  const ERROR_CAUSE := "Error."
  const GENERATING_MESSAGE := "Generating QR Code..."
  const SCAN_MESSAGE := "Scan QR with your device..."
  const BUSY_MESSAGE := "A QR session is already in progress."
  const CANCELLED_BY_USER := "QR pairing cancelled by user."
  const NOT_ACTIVE_MESSAGE := "System Idle. QR session was not active or already cancelled."
  const NAME_PREFIX := "WebAppQR-"

  // ---------------------------------------------------------------------
  // mDNS browse results and the first-match searches
  // ---------------------------------------------------------------------

  /** One resource record as the browser reports it. `data` is the text
      data: the address of an A record, or the instance a PTR record names.
      `port` is the port of an SRV record, 0 when it has none. */
  datatype Record = Record(rtype: string, name: string, data: string, port: int)

  /** A received packet. A packet without an answer section has
      `answers == None`; a missing additional section is empty; an empty
      `address` stands for a missing sender address. */
  datatype Packet = Packet(answers: Option<seq<Record>>, additionals: seq<Record>, address: string)

  datatype Service = Service(packet: Option<Packet>)

  datatype Endpoint = Endpoint(address: string, port: int)

  /** `address:port`, as the workflow prints and dials it. */
  function Address(e: Endpoint): string
  {
    e.address + ":" + IntToString(e.port)
  }

  /** `Array.prototype.findIndex`: the first record satisfying `p`. */
  function FirstWhere(rs: seq<Record>, p: Record -> bool): (r: Option<nat>)
    ensures r.Some? ==> r.value < |rs| && p(rs[r.value]) && forall k :: 0 <= k < r.value ==> !p(rs[k])
    ensures r.None? ==> forall k :: 0 <= k < |rs| ==> !p(rs[k])
    decreases |rs|
  {
    if rs == [] then None
    else if p(rs[0]) then Some(0)
    else match FirstWhere(rs[1..], p)
      case None => None
      case Some(k) => Some(k + 1)
  }

  /** `Array.prototype.find`. */
  function Find(rs: seq<Record>, p: Record -> bool): Option<Record>
  {
    match FirstWhere(rs, p)
    case None => None
    case Some(k) => Some(rs[k])
  }

  predicate IsAddress(a: Record)
  {
    a.rtype == "A" && a.data != ""
  }

  predicate IsPointer(a: Record, kind: string, instance: Option<string>)
  {
    a.rtype == "PTR" && Contains(a.name, kind) && (instance.None? || Contains(a.data, instance.value))
  }

  predicate IsServiceOf(a: Record, instance: string)
  {
    a.rtype == "SRV" && a.name == instance
  }

  /** The data of the first A record among the additionals that has data,
      else the address the packet came from. */
  function ServiceAddress(p: Packet): string
  {
    match Find(p.additionals, IsAddress)
    case Some(a) => a.data
    case None => p.address
  }

  /** The port of the instance's SRV record. The answer section is searched
      first, and the additionals only when the answers hold no such record.
      The result is 0 when neither holds one. */
  function ServicePort(answers: seq<Record>, additionals: seq<Record>, instance: string): int
  {
    match Find(answers, a => IsServiceOf(a, instance))
    case Some(srv) => srv.port
    case None =>
      match Find(additionals, a => IsServiceOf(a, instance))
      case Some(srv) => srv.port
      case None => 0
  }

  /** One iteration of the search loops. It gives the service's endpoint
      when three things hold: the service has an address (equal to `ip`
      when one is wanted); its first PTR answer of the wanted kind (naming
      `instance` when one is wanted) exists; and that instance's SRV record
      gives a nonzero port. */
  function Match(s: Service, kind: string, instance: Option<string>, ip: Option<string>): Option<Endpoint>
  {
    if s.packet.None? || s.packet.value.answers.None? then None
    else
      var p := s.packet.value;
      var address := ServiceAddress(p);
      if address == "" || (ip.Some? && address != ip.value) then None
      else
        match Find(p.answers.value, a => IsPointer(a, kind, instance))
        case None => None
        case Some(ptr) =>
          var port := ServicePort(p.answers.value, p.additionals, ptr.data);
          if port != 0 then Some(Endpoint(address, port)) else None
  }

  /** The first `Some` that `f` gives on the elements in order. */
  function FirstSome<T, U>(xs: seq<T>, f: T -> Option<U>): Option<U>
    decreases |xs|
  {
    if xs == [] then None
    else if f(xs[0]).Some? then f(xs[0])
    else FirstSome(xs[1..], f)
  }

  /** `FirstSome` gives the result of an element that every element before
      it fails. */
  lemma {:induction false} FirstSomeFound<T, U>(xs: seq<T>, f: T -> Option<U>)
    requires FirstSome(xs, f).Some?
    ensures exists i :: 0 <= i < |xs| && f(xs[i]) == FirstSome(xs, f) && forall j :: 0 <= j < i ==> f(xs[j]).None?
    decreases |xs|
  {
    if f(xs[0]).None? {
      var tail := xs[1..];
      FirstSomeFound(tail, f);
      var i :| 0 <= i < |tail| && f(tail[i]) == FirstSome(tail, f) && forall j :: 0 <= j < i ==> f(tail[j]).None?;
      assert xs[i + 1] == tail[i];
      forall j | 0 <= j < i + 1
        ensures f(xs[j]).None?
      {
        if j > 0 { assert xs[j] == tail[j - 1]; }
      }
    }
  }

  /** `FirstSome` gives nothing exactly when every element fails. */
  lemma {:induction false} FirstSomeNone<T, U>(xs: seq<T>, f: T -> Option<U>)
    ensures FirstSome(xs, f).None? <==> forall i :: 0 <= i < |xs| ==> f(xs[i]).None?
    decreases |xs|
  {
    if xs != [] {
      FirstSomeNone(xs[1..], f);
      assert forall i :: 0 < i < |xs| ==> xs[i] == xs[1..][i - 1];
    }
  }

  /** The endpoint of the first service that matches. */
  function FirstMatch(services: seq<Service>, kind: string, instance: Option<string>, ip: Option<string>): Option<Endpoint>
  {
    FirstSome(services, s => Match(s, kind, instance, ip))
  }

  /** The search returns the endpoint of a matching service that every
      service before it fails to match, and nothing only when no service
      matches. */
  lemma FirstMatchMeaning(services: seq<Service>, kind: string, instance: Option<string>, ip: Option<string>)
    ensures var r := FirstMatch(services, kind, instance, ip);
      r.Some? ==> exists i :: (0 <= i < |services| && Match(services[i], kind, instance, ip) == r
        && forall j :: 0 <= j < i ==> Match(services[j], kind, instance, ip).None?)
    ensures FirstMatch(services, kind, instance, ip).None? <==>
      forall i :: 0 <= i < |services| ==> Match(services[i], kind, instance, ip).None?
  {
    var f := s => Match(s, kind, instance, ip);
    FirstSomeNone(services, f);
    if FirstSome(services, f).Some? {
      FirstSomeFound(services, f);
    }
  }

  /** What a match promises about the service it came from. The address is
      non-empty and equals `ip` when one is wanted. The port is nonzero.
      The packet holds a PTR answer of the wanted kind, an SRV record for
      the instance that answer names carries the port, and the address
      comes from an A record with data or from the packet itself. */
  lemma MatchMeaning(s: Service, kind: string, instance: Option<string>, ip: Option<string>)
    requires Match(s, kind, instance, ip).Some?
    ensures var e := Match(s, kind, instance, ip).value;
      var p := s.packet.value;
      p.answers.Some? && e.address != "" && (ip.Some? ==> e.address == ip.value) && e.port != 0
      && ((exists k :: 0 <= k < |p.additionals| && IsAddress(p.additionals[k]) && p.additionals[k].data == e.address)
         || e.address == p.address)
      && (exists k :: (0 <= k < |p.answers.value| && IsPointer(p.answers.value[k], kind, instance)
        && exists r :: r in p.answers.value + p.additionals && IsServiceOf(r, p.answers.value[k].data) && r.port == e.port))
  {
    var p := s.packet.value;
    var answers := p.answers.value;
    var e := Match(s, kind, instance, ip).value;
    var k := FirstWhere(answers, a => IsPointer(a, kind, instance)).value;
    var ptr := answers[k];
    match FirstWhere(p.additionals, IsAddress)
    case Some(a) => assert p.additionals[a].data == e.address;
    case None =>
    match FirstWhere(answers, a => IsServiceOf(a, ptr.data))
    case Some(j) => assert answers[j] in answers + p.additionals;
    case None =>
      var j := FirstWhere(p.additionals, a => IsServiceOf(a, ptr.data)).value;
      assert p.additionals[j] in answers + p.additionals;
  }

  /** `findTargetPairingService`: the first service whose PTR answer names
      the session's instance. */
  method FindTargetPairingService(services: seq<Service>, target: string) returns (r: Option<Endpoint>)
    ensures r == FirstMatch(services, PAIRING_SERVICE, Some(target), None)
  {
    r := FindTarget(services, PAIRING_SERVICE, Some(target), None);
  }

  /** `findTargetConnectService`: the first connect service at the given
      address. */
  method FindTargetConnectService(services: seq<Service>, targetIp: string) returns (r: Option<Endpoint>)
    ensures r == FirstMatch(services, CONNECT_SERVICE, None, Some(targetIp))
  {
    r := FindTarget(services, CONNECT_SERVICE, None, Some(targetIp));
  }

  /** The loop both searches share: skip to the next service until one
      matches. */
  method FindTarget(services: seq<Service>, kind: string, instance: Option<string>, ip: Option<string>) returns (r: Option<Endpoint>)
    ensures r == FirstMatch(services, kind, instance, ip)
  {
    var i := 0;
    while i < |services|
      invariant 0 <= i <= |services|
      invariant FirstMatch(services[i..], kind, instance, ip) == FirstMatch(services, kind, instance, ip)
    {
      var found := Match(services[i], kind, instance, ip);
      assert services[i..][0] == services[i] && services[i..][1..] == services[i + 1..];
      if found.Some? {
        return found;
      }
      i := i + 1;
    }
    return None;
  }

  // ---------------------------------------------------------------------
  // The `/connect-ip` route
  // ---------------------------------------------------------------------

  /** `^\d{1,3}\.\d{1,3}\.\d{1,3}\.\d{1,3}:\d{1,5}$`: four dot-separated
      groups of one to three digits, a colon, and one to five digits. */
  predicate IsIpPort(s: string)
  {
    var halves := Split(s, ':');
    |halves| == 2 && IsGroups(Split(halves[0], '.')) && 1 <= |halves[1]| <= 5 && AllDigits(halves[1])
  }

  predicate IsGroups(groups: seq<string>)
  {
    |groups| == 4 && forall i :: 0 <= i < 4 ==> 1 <= |groups[i]| <= 3 && AllDigits(groups[i])
  }

  /** An accepted address is its four groups joined by dots, a colon and
      the port. */
  lemma IpPortForm(s: string)
    requires IsIpPort(s)
    ensures var halves := Split(s, ':');
      s == Join(Split(halves[0], '.'), '.') + ":" + halves[1]
  {
    var halves := Split(s, ':');
    JoinSplit(s, ':');
    JoinSplit(halves[0], '.');
    assert Join(halves, ':') == halves[0] + [':'] + Join(halves[1..], ':');
  }

  /** Every address built of four groups of one to three digits and a port
      of one to five digits is accepted. */
  lemma IpPortOf(groups: seq<string>, port: string)
    requires IsGroups(groups) && 1 <= |port| <= 5 && AllDigits(port)
    ensures IsIpPort(Join(groups, '.') + ":" + port)
  {
    forall i | 0 <= i < 4
      ensures '.' !in groups[i]
    {
      DigitsLack(groups[i], '.');
    }
    SplitJoin(groups, '.');
    var host := Join(groups, '.');
    NoColonInJoin(groups);
    DigitsLack(port, ':');
    SplitCons(host, port, ':');
    SplitJoin([port], ':');
    assert host + ":" + port == host + [':'] + port;
  }

  lemma DigitsLack(s: string, c: char)
    requires AllDigits(s) && !IsDigit(c)
    ensures c !in s
  {
    forall k | 0 <= k < |s|
      ensures s[k] != c
    {
      assert IsDigit(s[k]);
    }
  }

  lemma NoColonInJoin(groups: seq<string>)
    requires IsGroups(groups)
    ensures ':' !in Join(groups, '.')
  {
    forall i | 0 <= i < |groups|
      ensures ':' !in groups[i]
    {
      DigitsLack(groups[i], ':');
    }
    JoinLacks(groups, '.', ':');
  }

  /** Joining parts that lack a character with another one gives a string
      that lacks it. */
  lemma {:induction false} JoinLacks(parts: seq<string>, c: char, d: char)
    requires c != d && forall i :: 0 <= i < |parts| ==> d !in parts[i]
    ensures d !in Join(parts, c)
    decreases |parts|
  {
    if |parts| > 1 {
      JoinLacks(parts[1..], c, d);
      assert d !in parts[0];
      var rest := Join(parts[1..], c);
      assert Join(parts, c) == parts[0] + [c] + rest;
    }
  }

  datatype Reply = Message(code: int, success: bool, message: string) | QrCode(qrString: string)

  const INVALID_ADDRESS := "Invalid IP address format (e.g., 192.168.1.10:5555)"

  /** The success test of `/connect-ip`: stdout says "connected to" or
      "already connected", or stderr says "connected to" (the stderr test
      for "already connected to" is contained in that one). */
  predicate ConnectIpSucceeded(out: AdbService.ProcessOutput)
  {
    DeviceHelper.ConnectedOutput(ToLower(out.stdout))
    || (out.stderr != "" && (Contains(ToLower(out.stderr), "already connected to") || Contains(ToLower(out.stderr), "connected to")))
  }

  /** The `/connect-ip` route; `outcome` is what `adb connect <address>`
      gave. */
  function ConnectIp(ipAddress: string, outcome: Result<AdbService.ProcessOutput>): (r: Reply)
    ensures r.Message?
    ensures r.code == 400 <==> !IsIpPort(ipAddress)
    ensures r.success <==> IsIpPort(ipAddress) && outcome.Ok? && ConnectIpSucceeded(outcome.value)
  {
    if ipAddress == "" || !IsIpPort(ipAddress) then Message(400, false, INVALID_ADDRESS)
    else
      match AdbService.ExecuteCommand(CONNECT_COMMAND + ipAddress, "ADB Connect IP", outcome)
      case Err(m) => Message(500, false, "Error connecting: " + m)
      case Ok(out) =>
        if ConnectIpSucceeded(out) then Message(200, true, CONNECTED_TO + ipAddress)
        else Message(500, false, "Failed to connect. ADB output: "
          + (if out.stdout != "" then out.stdout else if out.stderr != "" then out.stderr else "No output"))
  }

  /** The route succeeds exactly when stdout reports the connection or
      stderr says "connected to". */
  lemma ConnectIpRule(ipAddress: string, out: AdbService.ProcessOutput)
    requires IsIpPort(ipAddress)
    ensures ConnectIp(ipAddress, Ok(out)).success <==>
      DeviceHelper.ConnectedOutput(ToLower(out.stdout)) || Contains(ToLower(out.stderr), "connected to")
  {
    var low := ToLower(out.stderr);
    if Contains(low, "already connected to") {
      var i := IndexOfFrom(low, "already connected to", 0).value;
      assert low[i + 8..i + 20] == "connected to";
      ContainsAt(low, "connected to", i + 8);
    }
  }

  // ---------------------------------------------------------------------
  // The session record
  // ---------------------------------------------------------------------

  datatype Status = Idle | Generating | Cancelled | Failed | Success

  /** The status as the session reports it. */
  function StatusName(s: Status): string
  {
    match s
    case Idle => "idle"
    case Generating => "generating"
    case Cancelled => "cancelled"
    case Failed => "error"
    case Success => "success"
  }

  /** `currentQrSession` as a value. */
  datatype Qr = Qr(serviceName: Option<string>, password: Option<string>, qrString: Option<string>,
    status: Status, statusMessage: string, isProcessing: bool, connectedDeviceIp: Option<string>, isCancelled: bool)

  /** What `broadcastQrStatus` sends to every open status socket. */
  datatype Snapshot = Snapshot(status: Status, statusMessage: string, isProcessing: bool, connectedDeviceIp: Option<string>)

  function Shown(q: Qr): Snapshot
  {
    Snapshot(q.status, q.statusMessage, q.isProcessing, q.connectedDeviceIp)
  }

  const IDLE_MESSAGE := "System Idle."

  /** The record `resetQrSession` installs. */
  function Fresh(message: string): Qr
  {
    Qr(None, None, None, Idle, message, false, None, false)
  }

  /** The Wi-Fi QR payload that `adb` pairing scans. */
  function QrPayload(name: string, password: string): string
  {
    "WIFI:T:ADB;S:" + name + ";P:" + password + ";;"
  }

  /** Splitting the payload at its semicolons gives back the name and the
      password when neither holds a semicolon. */
  lemma QrPayloadFields(name: string, password: string)
    requires ';' !in name && ';' !in password
    ensures Split(QrPayload(name, password), ';') == ["WIFI:T:ADB", "S:" + name, "P:" + password, "", ""]
  {
    var parts := ["WIFI:T:ADB", "S:" + name, "P:" + password, "", ""];
    assert QrPayload(name, password) == Join(parts, ';') by {
      assert parts[3..] == ["", ""] && parts[4..] == [""];
      assert Join(parts[3..], ';') == [';'];
      assert Join(parts[2..], ';') == "P:" + password + [';'] + [';'];
      assert Join(parts[1..], ';') == "S:" + name + [';'] + ("P:" + password + [';'] + [';']);
    }
    Prefixed("S:", name, ';');
    Prefixed("P:", password, ';');
    SplitJoin(parts, ';');
  }

  lemma Prefixed(prefix: string, s: string, c: char)
    requires c !in prefix && c !in s
    ensures c !in prefix + s
  {
    forall k | 0 <= k < |prefix + s|
      ensures (prefix + s)[k] != c
    {
      if k >= |prefix| { assert (prefix + s)[k] == s[k - |prefix|]; }
      else { assert (prefix + s)[k] == prefix[k]; }
    }
  }

  /** The URL-safe characters `nanoid` draws from. */
  predicate IsNanoidChar(c: char)
  {
    'A' <= c <= 'Z' || 'a' <= c <= 'z' || '0' <= c <= '9' || c == '_' || c == '-'
  }

  predicate IsNanoid(s: string, size: nat)
  {
    |s| == size && forall i :: 0 <= i < |s| ==> IsNanoidChar(s[i])
  }

  /** How the route's fields hang together. A cancelled session has
      stopped processing and says so. A successful one names the device.
      The service name, the password and the QR string are set together,
      and the QR string is the payload of the other two. */
  predicate Valid(q: Qr)
  {
    (q.isCancelled ==> q.status == Cancelled && !q.isProcessing)
    && (q.status == Success ==> q.connectedDeviceIp.Some?)
    && ((q.serviceName.Some? || q.password.Some? || q.qrString.Some?) ==>
        q.serviceName.Some? && q.password.Some? && q.qrString == Some(QrPayload(q.serviceName.value, q.password.value)))
  }

  /** A value `${...}` prints: the string, or "null" for a cleared field. */
  function OrNull(s: Option<string>): string
  {
    if s.Some? then s.value else "null"
  }

  // ---------------------------------------------------------------------
  // The workflow, one resumption at a time
  // ---------------------------------------------------------------------

  /** Where `executeQrWorkflow` is suspended. */
  datatype Run =
    | PairingBrowse(start: int)                                  // browsing for the pairing service
    | PairingDelay(start: int)                                   // waiting before the next pairing browse
    | Pairing(pairing: Endpoint, command: string)                // `adb pair` is running
    | ConnectBrowse(pairing: Endpoint, start: int)               // browsing for the connect service
    | ConnectDelay(pairing: Endpoint, start: int)                // waiting before the next connect browse
    | Connecting(service: Endpoint, command: string)             // `adb connect` is running
    | Ended

  /** What ends an await: a browse result (or the error it threw), the
      retry delay running out at time `now`, or a finished adb process. */
  datatype Event =
    | Browsed(services: Result<seq<Service>>)
    | Woke(now: int)
    | Finished(outcome: Result<AdbService.ProcessOutput>, at: int)

  predicate Awaits(run: Run, e: Event)
  {
    match run
    case PairingBrowse(_) => e.Browsed?
    case PairingDelay(_) => e.Woke?
    case Pairing(_, _) => e.Finished?
    case ConnectBrowse(_, _) => e.Browsed?
    case ConnectDelay(_, _) => e.Woke?
    case Connecting(_, _) => e.Finished?
    case Ended => false
  }

  /** The record after a step, the snapshots it broadcast in order, where
      the workflow is suspended next, and the adb command it started. */
  datatype Outcome = Outcome(q: Qr, sent: seq<Snapshot>, run: Run, command: Option<string>)

  /** The workflow's cancelled branch. */
  function CancelRun(q: Qr): Outcome
  {
    var c := q.(status := Cancelled, statusMessage := CANCELLED_MESSAGE, isProcessing := false);
    Outcome(c, [Shown(c)], Ended, None)
  }

  /** A failure: the error is broadcast while `isProcessing` still holds,
      and only then is processing cleared. */
  function FailRun(q: Qr, message: string): Outcome
  {
    var f := q.(status := Failed, statusMessage := message);
    Outcome(f.(isProcessing := false), [Shown(f)], Ended, None)
  }

  /** A failure seen after a cancel: the workflow returns without a word. */
  function Quiet(q: Qr): Outcome
  {
    Outcome(q, [], Ended, None)
  }

  function Await(q: Qr, run: Run): Outcome
  {
    Outcome(q, [], run, None)
  }

  /** A new status message, broadcast, and the next await. */
  function Say(q: Qr, message: string, run: Run, command: Option<string>): Outcome
  {
    var s := q.(statusMessage := message);
    Outcome(s, [Shown(s)], run, command)
  }

  /** The error of the outer `catch`. */
  function Unexpected(q: Qr): Outcome
  {
    if q.isCancelled then Quiet(q) else FailRun(q, UNEXPECTED_MESSAGE)
  }

  /** `Timeout.` for an error that mentions a timeout, else `Error.` */
  function Cause(message: string): string
  {
    if Contains(message, TIMEOUT_MARK) then TIMEOUT_CAUSE else ERROR_CAUSE
  }

  /** The part of the workflow that runs before its first `await`. */
  function WorkflowStart(q: Qr, now: int): Outcome
  {
    if q.isCancelled then CancelRun(q)
    else Say(q, PAIRING_DISCOVERY_MESSAGE, PairingBrowse(now), None)
  }

  /** The head of the pairing-discovery loop, reached after a retry delay. */
  function PairingLoop(q: Qr, start: int, now: int): Outcome
  {
    if now - start < PAIRING_TIMEOUT then
      if q.isCancelled then CancelRun(q) else Await(q, PairingBrowse(start))
    else if q.isCancelled then Quiet(q)
    else FailRun(q, PAIRING_TIMEOUT_MESSAGE)
  }

  /** A pairing browse returned: on a match, `adb pair` is started with the
      session's password. */
  function PairingBrowsed(q: Qr, start: int, services: Result<seq<Service>>): Outcome
  {
    match services
    case Err(_) => Unexpected(q)
    case Ok(found) =>
      match FirstMatch(found, PAIRING_SERVICE, Some(OrNull(q.serviceName)), None)
      case None => Await(q, PairingDelay(start))
      case Some(p) =>
        if q.isCancelled then CancelRun(q)
        else
          var command := PAIR_COMMAND + Address(p) + " " + OrNull(q.password);
          Say(q, PAIRING_WITH + Address(p) + ELLIPSIS, Pairing(p, command), Some(command))
  }

  /** `adb pair` finished: only output that confirms the pairing moves on to
      the connect discovery. */
  function Paired(q: Qr, pairing: Endpoint, command: string, outcome: Result<AdbService.ProcessOutput>, now: int): Outcome
  {
    match AdbService.ExecuteCommand(command, PAIR_DESCRIPTION, outcome)
    case Err(m) => if q.isCancelled then Quiet(q) else FailRun(q, PAIRING_FAILED + Cause(m))
    case Ok(out) =>
      if out.stdout == "" || !Contains(ToLower(out.stdout), PAIRED_MARK) then
        if q.isCancelled then Quiet(q) else FailRun(q, PAIRING_UNCONFIRMED)
      else if q.isCancelled then CancelRun(q)
      else Say(q, CONNECT_DISCOVERY_MESSAGE, ConnectBrowse(pairing, now), None)
  }

  /** The head of the connect-discovery loop, reached after a retry delay. */
  function ConnectLoop(q: Qr, pairing: Endpoint, start: int, now: int): Outcome
  {
    if now - start < CONNECT_TIMEOUT then
      if q.isCancelled then CancelRun(q) else Await(q, ConnectBrowse(pairing, start))
    else if q.isCancelled then Quiet(q)
    else FailRun(q, CONNECT_TIMEOUT_MESSAGE)
  }

  /** A connect browse returned: a connect service at the paired address
      starts `adb connect`. */
  function ConnectBrowsed(q: Qr, pairing: Endpoint, start: int, services: Result<seq<Service>>): Outcome
  {
    match services
    case Err(_) => Unexpected(q)
    case Ok(found) =>
      match FirstMatch(found, CONNECT_SERVICE, None, Some(pairing.address))
      case None => Await(q, ConnectDelay(pairing, start))
      case Some(c) =>
        if q.isCancelled then CancelRun(q)
        else
          var command := CONNECT_COMMAND + Address(c);
          Say(q, CONNECTING_TO + Address(c) + ELLIPSIS, Connecting(c, command), Some(command))
  }

  /** The final verdict on the `adb connect` output. The verdict is
      broadcast before processing is cleared. */
  function Verdict(q: Qr, service: Endpoint, stdout: string): Outcome
  {
    var v := if stdout != "" && DeviceHelper.ConnectedOutput(ToLower(stdout)) then
        q.(status := Success, statusMessage := CONNECTED_TO + Address(service) + "!",
          connectedDeviceIp := Some(Address(service)))
      else q.(status := Failed, statusMessage := CONNECT_UNCONFIRMED);
    Outcome(v.(isProcessing := false), [Shown(v)], Ended, None)
  }

  /** `adb connect` finished. */
  function Connected(q: Qr, service: Endpoint, command: string, outcome: Result<AdbService.ProcessOutput>): Outcome
  {
    match AdbService.ExecuteCommand(command, CONNECT_DESCRIPTION, outcome)
    case Err(m) => if q.isCancelled then Quiet(q) else FailRun(q, CONNECT_FAILED + Cause(m))
    case Ok(out) => if q.isCancelled then CancelRun(q) else Verdict(q, service, out.stdout)
  }

  /** One resumption of the workflow. */
  function Resumed(q: Qr, run: Run, e: Event): Outcome
    requires Awaits(run, e)
  {
    match run
    case PairingBrowse(start) => PairingBrowsed(q, start, e.services)
    case PairingDelay(start) => PairingLoop(q, start, e.now)
    case Pairing(p, command) => Paired(q, p, command, e.outcome, e.at)
    case ConnectBrowse(p, start) => ConnectBrowsed(q, p, start, e.services)
    case ConnectDelay(p, start) => ConnectLoop(q, p, start, e.now)
    case Connecting(c, command) => Connected(q, c, command, e.outcome)
  }

  /** The workflow's resumptions in turn; an event the run does not await
      ends the trace. */
  function Trace(q: Qr, run: Run, events: seq<Event>): Qr
    decreases |events|
  {
    if events == [] || !Awaits(run, events[0]) then q
    else
      var o := Resumed(q, run, events[0]);
      Trace(o.q, o.run, events[1..])
  }

  // ---------------------------------------------------------------------
  // The routes
  // ---------------------------------------------------------------------

  /** `/initiate-qr-session`. The request is refused while a session is
      processing, and when the adb check fails (`adbError`). Otherwise it
      resets the record, marks it generating and stores the names drawn
      for it, then runs the workflow up to its first await and answers
      with the QR payload. This is the route when nothing else happens
      while it awaits the adb check. */
  function Initiated(q: Qr, adbError: Option<string>, suffix: string, password: string, now: int): (Reply, Outcome)
  {
    if q.isProcessing then (Message(400, false, BUSY_MESSAGE), Quiet(q))
    else InitiateResumes(q, adbError, suffix, password, now)
  }

  /** The route after its awaited adb check, on the record `q` as it is
      then: the busy check is not repeated. */
  function InitiateResumes(q: Qr, adbError: Option<string>, suffix: string, password: string, now: int): (Reply, Outcome)
  {
    if adbError.Some? then (Message(500, false, adbError.value), Quiet(q))
    else
      var cleared := Fresh(GENERATING_MESSAGE);
      var generating := cleared.(isProcessing := true, status := Generating);
      var name := NAME_PREFIX + suffix;
      var named := generating.(serviceName := Some(name), password := Some(password),
        qrString := Some(QrPayload(name, password)), statusMessage := SCAN_MESSAGE);
      var w := WorkflowStart(named, now);
      (QrCode(QrPayload(name, password)), Outcome(w.q, [Shown(cleared), Shown(generating), Shown(named)] + w.sent, w.run, w.command))
  }

  /** `/cancel-qr-session`: a processing session is marked cancelled and
      stops processing; any other session is reset to idle. */
  function CancelRequested(q: Qr): Outcome
  {
    if q.isProcessing then
      var c := q.(isCancelled := true, status := Cancelled, statusMessage := CANCELLED_BY_USER, isProcessing := false);
      Outcome(c, [Shown(c)], Ended, None)
    else
      var f := Fresh(NOT_ACTIVE_MESSAGE);
      Outcome(f, [Shown(f)], Ended, None)
  }

  const CANCEL_REPLY := Message(200, true, "QR session cancellation initiated.")

  // ---------------------------------------------------------------------
  // Properties of the record
  // ---------------------------------------------------------------------

  /** Initiating is refused exactly while a session is processing, and then
      changes nothing. An accepted start leaves a valid, processing,
      uncancelled session whose QR string is the payload of
      `WebAppQR-<suffix>` and the password, and it has started browsing
      for the pairing service. */
  lemma InitiateRule(q: Qr, adbError: Option<string>, suffix: string, password: string, now: int)
    ensures var (reply, o) := Initiated(q, adbError, suffix, password, now);
      (reply == Message(400, false, BUSY_MESSAGE) <==> q.isProcessing)
      && (reply.Message? ==> o.q == q && o.sent == [] && o.run == Ended)
      && (reply.QrCode? <==> !q.isProcessing && adbError.None?)
      && (reply.QrCode? ==> (Valid(o.q) && o.q.isProcessing && !o.q.isCancelled && o.q.status == Generating
        && o.q.serviceName == Some(NAME_PREFIX + suffix) && o.q.qrString == Some(reply.qrString)
        && reply.qrString == QrPayload(NAME_PREFIX + suffix, password) && o.run == PairingBrowse(now)))
  {
  }

  /** The busy check comes before the awaited adb check, so two requests
      that arrive while no session is processing both pass it. Both then
      start a workflow: the second resets the record while the first
      session is processing, which the route refuses to do for a request
      that arrives after the first has finished starting. */
  lemma ConcurrentInitiates(q: Qr, s1: string, p1: string, s2: string, p2: string, now: int)
    requires !q.isProcessing
    ensures var (r1, o1) := InitiateResumes(q, None, s1, p1, now);
      var (r2, o2) := InitiateResumes(o1.q, None, s2, p2, now);
      r1.QrCode? && o1.q.isProcessing && o1.run == PairingBrowse(now)
      && Initiated(o1.q, None, s2, p2, now).0 == Message(400, false, BUSY_MESSAGE)
      && r2.QrCode? && o2.run == PairingBrowse(now) && o2.q.serviceName == Some(NAME_PREFIX + s2)
  {
  }

  /** A cancel followed by a new start clears `isCancelled`, since the
      start resets the record. A run of the cancelled session that was
      still waiting on `adb connect` then carries on with the new record,
      and output confirming a connection makes it report success. */
  lemma CancelledRunRevived(q: Qr, c: Endpoint, command: string, suffix: string, password: string, now: int,
                            out: AdbService.ProcessOutput, at: int)
    requires q.isProcessing
    requires out.stdout != "" && DeviceHelper.ConnectedOutput(ToLower(out.stdout))
    ensures var cancelled := CancelRequested(q).q;
      var (reply, started) := Initiated(cancelled, None, suffix, password, now);
      var late := Resumed(started.q, Connecting(c, command), Finished(Ok(out), at));
      cancelled.isCancelled && reply.QrCode? && !started.q.isCancelled
      && late.q.status == Success && late.q.connectedDeviceIp == Some(Address(c))
  {
  }

  /** The payload of an accepted start carries a 17-character service name
      and a 10-character password, both read back by splitting it. */
  lemma InitiatePayload(q: Qr, suffix: string, password: string, now: int)
    requires !q.isProcessing && IsNanoid(suffix, 8) && IsNanoid(password, 10)
    ensures var reply := Initiated(q, None, suffix, password, now).0;
      reply.QrCode? && |NAME_PREFIX + suffix| == 17
      && Split(reply.qrString, ';') == ["WIFI:T:ADB", "S:" + (NAME_PREFIX + suffix), "P:" + password, "", ""]
  {
    NanoidLacks(suffix, 8);
    NanoidLacks(password, 10);
    Prefixed(NAME_PREFIX, suffix, ';');
    QrPayloadFields(NAME_PREFIX + suffix, password);
  }

  lemma NanoidLacks(s: string, size: nat)
    requires IsNanoid(s, size)
    ensures ';' !in s
  {
    forall k | 0 <= k < |s|
      ensures s[k] != ';'
    {
      assert IsNanoidChar(s[k]);
    }
  }

  /** Both branches of the cancel route leave a valid record that has
      stopped processing. A processing session becomes cancelled; any other
      becomes an idle record with every field cleared. */
  lemma CancelRule(q: Qr)
    requires Valid(q)
    ensures var o := CancelRequested(q);
      Valid(o.q) && !o.q.isProcessing
      && (q.isProcessing ==> o.q.isCancelled && o.q.status == Cancelled && o.q.serviceName == q.serviceName)
      && (!q.isProcessing ==> o.q == Fresh(NOT_ACTIVE_MESSAGE))
      && o.sent == [Shown(o.q)]
  {
  }

  /** Every resumption keeps the record valid. */
  lemma ResumeKeepsValid(q: Qr, run: Run, e: Event)
    requires Valid(q) && Awaits(run, e)
    ensures Valid(Resumed(q, run, e).q)
  {
    match run
    case PairingBrowse(start) => BrowseKeepsValid(q, run, e);
    case ConnectBrowse(_, _) => BrowseKeepsValid(q, run, e);
    case PairingDelay(_) => LoopKeepsValid(q, run, e);
    case ConnectDelay(_, _) => LoopKeepsValid(q, run, e);
    case Pairing(_, _) => PairKeepsValid(q, run, e);
    case Connecting(_, _) => ConnectKeepsValid(q, run, e);
  }

  lemma BrowseKeepsValid(q: Qr, run: Run, e: Event)
    requires Valid(q) && Awaits(run, e) && (run.PairingBrowse? || run.ConnectBrowse?)
    ensures Valid(Resumed(q, run, e).q)
  {
  }

  lemma LoopKeepsValid(q: Qr, run: Run, e: Event)
    requires Valid(q) && Awaits(run, e) && (run.PairingDelay? || run.ConnectDelay?)
    ensures Valid(Resumed(q, run, e).q)
  {
  }

  lemma PairKeepsValid(q: Qr, run: Run, e: Event)
    requires Valid(q) && Awaits(run, e) && run.Pairing?
    ensures Valid(Resumed(q, run, e).q)
  {
  }

  lemma ConnectKeepsValid(q: Qr, run: Run, e: Event)
    requires Valid(q) && Awaits(run, e) && run.Connecting?
    ensures Valid(Resumed(q, run, e).q)
  {
  }

  /** Once cancelled, a run stays cancelled. Every resumption leaves the
      record cancelled and not processing, ends or keeps waiting, and
      starts no adb command. */
  lemma CancelledStaysCancelled(q: Qr, run: Run, e: Event)
    requires Valid(q) && q.isCancelled && Awaits(run, e)
    ensures var o := Resumed(q, run, e);
      o.q.isCancelled && o.q.status == Cancelled && !o.q.isProcessing && o.command.None?
      && (o.run.Ended? || o.run.PairingDelay? || o.run.ConnectDelay? || o.run == run)
  {
  }

  /** A cancelled run never reports success, however many of its awaits
      complete afterwards. */
  lemma {:induction false} CancelledNeverSucceeds(q: Qr, run: Run, events: seq<Event>)
    requires Valid(q) && q.isCancelled
    ensures var t := Trace(q, run, events);
      t.status == Cancelled && t.isCancelled && !t.isProcessing
    decreases |events|
  {
    if events != [] && Awaits(run, events[0]) {
      CancelledStaysCancelled(q, run, events[0]);
      var o := Resumed(q, run, events[0]);
      CancelledNeverSucceeds(o.q, o.run, events[1..]);
    }
  }

  /** Success is reached only by the final verdict of an uncancelled run.
      That verdict comes from successful `adb connect` output that reports
      the connection. It names the connected endpoint and clears
      processing. */
  lemma SuccessOnlyByConnect(q: Qr, run: Run, e: Event)
    requires Awaits(run, e)
    ensures var o := Resumed(q, run, e);
      o.q.status == Success && q.status != Success ==>
        !q.isCancelled && run.Connecting? && e.outcome.Ok? && e.outcome.value.stdout != ""
        && DeviceHelper.ConnectedOutput(ToLower(e.outcome.value.stdout))
        && o.q.connectedDeviceIp == Some(Address(run.service)) && !o.q.isProcessing && o.run == Ended
  {
  }

  /** Every failure ends the run and clears processing. It happens only
      while the run is not cancelled, and its broadcast still shows the
      processing flag as it was. */
  lemma FailureEnds(q: Qr, run: Run, e: Event)
    requires Awaits(run, e)
    ensures var o := Resumed(q, run, e);
      o.q.status == Failed && q.status != Failed ==>
        !q.isCancelled && !o.q.isProcessing && o.run == Ended
        && o.sent == [Snapshot(Failed, o.q.statusMessage, q.isProcessing, q.connectedDeviceIp)]
  {
  }

  /** `adb pair` is started with the session's password at the address and
      port of the first matching pairing service. */
  lemma PairCommandRule(q: Qr, start: int, services: seq<Service>)
    requires !q.isCancelled && q.password.Some?
    ensures var o := PairingBrowsed(q, start, Ok(services));
      var target := FirstMatch(services, PAIRING_SERVICE, Some(OrNull(q.serviceName)), None);
      (o.command.Some? <==> target.Some?)
      && (target.Some? ==> (o.command == Some(PAIR_COMMAND + Address(target.value) + " " + q.password.value)
        && o.run == Pairing(target.value, o.command.value)))
      && (target.None? ==> o.q == q && o.run == PairingDelay(start))
  {
  }

  // ---------------------------------------------------------------------
  // The record as the service holds it
  // ---------------------------------------------------------------------

  /** `currentQrSession` and the status broadcasts sent so far. */
  class QrService {
    var serviceName: Option<string>
    var password: Option<string>
    var qrString: Option<string>
    var status: Status
    var statusMessage: string
    var isProcessing: bool
    var connectedDeviceIp: Option<string>
    var isCancelled: bool
    var broadcasts: seq<Snapshot>

    function State(): Qr
      reads this
    {
      Qr(serviceName, password, qrString, status, statusMessage, isProcessing, connectedDeviceIp, isCancelled)
    }

    constructor ()
      ensures State() == Fresh(IDLE_MESSAGE) && broadcasts == []
    {
      serviceName, password, qrString := None, None, None;
      status, statusMessage, isProcessing := Idle, IDLE_MESSAGE, false;
      connectedDeviceIp, isCancelled := None, false;
      broadcasts := [];
    }

    /** `broadcastQrStatus`. */
    method Broadcast()
      modifies this
      ensures State() == old(State()) && broadcasts == old(broadcasts) + [Shown(State())]
    {
      broadcasts := broadcasts + [Snapshot(status, statusMessage, isProcessing, connectedDeviceIp)];
    }

    /** `resetQrSession`. */
    method Reset(message: string)
      modifies this
      ensures State() == Fresh(message) && broadcasts == old(broadcasts) + [Shown(Fresh(message))]
    {
      serviceName, password, qrString := None, None, None;
      status, statusMessage, isProcessing := Idle, message, false;
      connectedDeviceIp, isCancelled := None, false;
      Broadcast();
    }

    /** The `/initiate-qr-session` route; the workflow runs up to its first
        await. */
    method Initiate(adbError: Option<string>, suffix: string, secret: string, now: int) returns (reply: Reply, run: Run)
      modifies this
      ensures var (r, o) := Initiated(old(State()), adbError, suffix, secret, now);
        reply == r && State() == o.q && broadcasts == old(broadcasts) + o.sent && run == o.run
    {
      if isProcessing {
        return Message(400, false, BUSY_MESSAGE), Ended;
      }
      reply, run := ResumeInitiate(adbError, suffix, secret, now);
    }

    /** The route once its adb check has answered, on the record as it is
        then. */
    method ResumeInitiate(adbError: Option<string>, suffix: string, secret: string, now: int) returns (reply: Reply, run: Run)
      modifies this
      ensures var (r, o) := InitiateResumes(old(State()), adbError, suffix, secret, now);
        reply == r && State() == o.q && broadcasts == old(broadcasts) + o.sent && run == o.run
    {
      if adbError.Some? {
        return Message(500, false, adbError.value), Ended;
      }
      Generate(suffix, secret);
      run := StartWorkflow(now);
      reply := QrCode(qrString.value);
    }

    /** The accepted start up to the workflow: reset, mark generating, and
        store the names drawn for the session. */
    method Generate(suffix: string, secret: string)
      modifies this
      ensures var cleared := Fresh(GENERATING_MESSAGE);
        var generating := cleared.(isProcessing := true, status := Generating);
        var name := NAME_PREFIX + suffix;
        var named := generating.(serviceName := Some(name), password := Some(secret),
          qrString := Some(QrPayload(name, secret)), statusMessage := SCAN_MESSAGE);
        State() == named && broadcasts == old(broadcasts) + [Shown(cleared), Shown(generating), Shown(named)]
    {
      Reset(GENERATING_MESSAGE);
      isProcessing, status := true, Generating;
      Broadcast();
      var name := NAME_PREFIX + suffix;
      serviceName, password := Some(name), Some(secret);
      qrString := Some(QrPayload(name, secret));
      statusMessage := SCAN_MESSAGE;
      Broadcast();
    }

    /** `executeQrWorkflow` up to its first await. */
    method StartWorkflow(now: int) returns (run: Run)
      modifies this
      ensures var o := WorkflowStart(old(State()), now);
        State() == o.q && broadcasts == old(broadcasts) + o.sent && run == o.run
    {
      if isCancelled {
        StopCancelled();
        return Ended;
      }
      statusMessage := PAIRING_DISCOVERY_MESSAGE;
      Broadcast();
      run := PairingBrowse(now);
    }

    /** The `/cancel-qr-session` route. */
    method Cancel() returns (reply: Reply)
      modifies this
      ensures var o := CancelRequested(old(State()));
        reply == CANCEL_REPLY && State() == o.q && broadcasts == old(broadcasts) + o.sent
    {
      if isProcessing {
        isCancelled, status := true, Cancelled;
        statusMessage, isProcessing := CANCELLED_BY_USER, false;
        Broadcast();
      } else {
        Reset(NOT_ACTIVE_MESSAGE);
      }
      reply := CANCEL_REPLY;
    }

    /** The workflow's cancelled branch. */
    method StopCancelled()
      modifies this
      ensures var o := CancelRun(old(State())); State() == o.q && broadcasts == old(broadcasts) + o.sent
    {
      status, statusMessage := Cancelled, CANCELLED_MESSAGE;
      isProcessing := false;
      Broadcast();
    }

    /** The workflow's failure branches. */
    method StopFailed(message: string)
      modifies this
      ensures var o := FailRun(old(State()), message); State() == o.q && broadcasts == old(broadcasts) + o.sent
    {
      status, statusMessage := Failed, message;
      Broadcast();
      isProcessing := false;
    }

    /** A new status message, broadcast. */
    method Announce(message: string)
      modifies this
      ensures var o := Say(old(State()), message, Ended, None); State() == o.q && broadcasts == old(broadcasts) + o.sent
    {
      statusMessage := message;
      Broadcast();
    }

    /** A silent return, or the outer `catch`. */
    method StopUnexpected()
      modifies this
      ensures var o := Unexpected(old(State())); State() == o.q && broadcasts == old(broadcasts) + o.sent
    {
      if !isCancelled {
        StopFailed(UNEXPECTED_MESSAGE);
      }
    }

    /** Resume the workflow where it waits. */
    method Resume(run: Run, e: Event) returns (next: Run, command: Option<string>)
      requires Awaits(run, e)
      modifies this
      ensures var o := Resumed(old(State()), run, e);
        State() == o.q && broadcasts == old(broadcasts) + o.sent && next == o.run && command == o.command
    {
      match run
      case PairingBrowse(start) => next, command := ResumePairingBrowse(start, e.services);
      case PairingDelay(start) => next := ResumePairingLoop(start, e.now); command := None;
      case Pairing(p, cmd) => next := ResumePair(p, cmd, e.outcome, e.at); command := None;
      case ConnectBrowse(p, start) => next, command := ResumeConnectBrowse(p, start, e.services);
      case ConnectDelay(p, start) => next := ResumeConnectLoop(p, start, e.now); command := None;
      case Connecting(c, cmd) => next := ResumeConnect(c, cmd, e.outcome); command := None;
    }

    method ResumePairingLoop(start: int, now: int) returns (next: Run)
      modifies this
      ensures var o := PairingLoop(old(State()), start, now);
        State() == o.q && broadcasts == old(broadcasts) + o.sent && next == o.run && o.command.None?
    {
      next := Ended;
      if now - start < PAIRING_TIMEOUT {
        if isCancelled {
          StopCancelled();
        } else {
          next := PairingBrowse(start);
        }
      } else if !isCancelled {
        StopFailed(PAIRING_TIMEOUT_MESSAGE);
      }
    }

    method ResumePairingBrowse(start: int, services: Result<seq<Service>>) returns (next: Run, command: Option<string>)
      modifies this
      ensures var o := PairingBrowsed(old(State()), start, services);
        State() == o.q && broadcasts == old(broadcasts) + o.sent && next == o.run && command == o.command
    {
      next, command := Ended, None;
      if services.Err? {
        StopUnexpected();
        return;
      }
      var found := FindTargetPairingService(services.value, OrNull(serviceName));
      if found.None? {
        next := PairingDelay(start);
      } else if isCancelled {
        StopCancelled();
      } else {
        var pair := PAIR_COMMAND + Address(found.value) + " " + OrNull(password);
        Announce(PAIRING_WITH + Address(found.value) + ELLIPSIS);
        next, command := Pairing(found.value, pair), Some(pair);
      }
    }

    method ResumePair(pairing: Endpoint, pair: string, outcome: Result<AdbService.ProcessOutput>, now: int) returns (next: Run)
      modifies this
      ensures var o := Paired(old(State()), pairing, pair, outcome, now);
        State() == o.q && broadcasts == old(broadcasts) + o.sent && next == o.run && o.command.None?
    {
      next := Ended;
      var result := AdbService.ExecuteCommand(pair, PAIR_DESCRIPTION, outcome);
      if result.Err? {
        if !isCancelled {
          StopFailed(PAIRING_FAILED + Cause(result.msg));
        }
      } else if result.value.stdout == "" || !Contains(ToLower(result.value.stdout), PAIRED_MARK) {
        if !isCancelled {
          StopFailed(PAIRING_UNCONFIRMED);
        }
      } else if isCancelled {
        StopCancelled();
      } else {
        Announce(CONNECT_DISCOVERY_MESSAGE);
        next := ConnectBrowse(pairing, now);
      }
    }

    method ResumeConnectLoop(pairing: Endpoint, start: int, now: int) returns (next: Run)
      modifies this
      ensures var o := ConnectLoop(old(State()), pairing, start, now);
        State() == o.q && broadcasts == old(broadcasts) + o.sent && next == o.run && o.command.None?
    {
      next := Ended;
      if now - start < CONNECT_TIMEOUT {
        if isCancelled {
          StopCancelled();
        } else {
          next := ConnectBrowse(pairing, start);
        }
      } else if !isCancelled {
        StopFailed(CONNECT_TIMEOUT_MESSAGE);
      }
    }

    method ResumeConnectBrowse(pairing: Endpoint, start: int, services: Result<seq<Service>>) returns (next: Run, command: Option<string>)
      modifies this
      ensures var o := ConnectBrowsed(old(State()), pairing, start, services);
        State() == o.q && broadcasts == old(broadcasts) + o.sent && next == o.run && command == o.command
    {
      next, command := Ended, None;
      if services.Err? {
        StopUnexpected();
        return;
      }
      var found := FindTargetConnectService(services.value, pairing.address);
      if found.None? {
        next := ConnectDelay(pairing, start);
      } else if isCancelled {
        StopCancelled();
      } else {
        var connect := CONNECT_COMMAND + Address(found.value);
        Announce(CONNECTING_TO + Address(found.value) + ELLIPSIS);
        next, command := Connecting(found.value, connect), Some(connect);
      }
    }

    method ResumeConnect(service: Endpoint, connect: string, outcome: Result<AdbService.ProcessOutput>) returns (next: Run)
      modifies this
      ensures var o := Connected(old(State()), service, connect, outcome);
        State() == o.q && broadcasts == old(broadcasts) + o.sent && next == o.run && o.command.None?
    {
      next := Ended;
      var result := AdbService.ExecuteCommand(connect, CONNECT_DESCRIPTION, outcome);
      if result.Err? {
        if !isCancelled {
          StopFailed(CONNECT_FAILED + Cause(result.msg));
        }
        return;
      }
      if isCancelled {
        StopCancelled();
        return;
      }
      var stdout := result.value.stdout;
      if stdout != "" && DeviceHelper.ConnectedOutput(ToLower(stdout)) {
        status := Success;
        statusMessage := CONNECTED_TO + Address(service) + "!";
        connectedDeviceIp := Some(Address(service));
      } else {
        status := Failed;
        statusMessage := CONNECT_UNCONFIRMED;
      }
      Broadcast();
      isProcessing := false;
    }
  }
}
