/** The life of a session's device sockets around the demultiplexer: a
    connection is accepted and processed, data is appended and processed,
    and a closed socket drops its reference, which may end the session. */
module Lifecycle {
  import opened Wrappers
  import opened Bytes
  import opened Demux

  /** The connection handler of `createTcpServer`: an accepted socket is
      processed at once when the browser client is open, and destroyed
      otherwise. */
  function Connect(v: Variant, s: Session, id: SocketId, clientOpen: bool): (r: Session)
    requires Inv(s) && id !in s.conns
    ensures Inv(r)
    ensures s.socketsConnected >= |s.expected| ==> r == s
    ensures s.socketsConnected < |s.expected| ==>
      id in r.conns && r.conns.Keys == s.conns.Keys + {id}
      && r.socketsConnected == s.socketsConnected + 1 && s.sent <= r.sent
    ensures s.socketsConnected < |s.expected| && !clientOpen ==>
      r.conns[id].destroyed && r.sent == s.sent
  {
    var a := Accept(s, id);
    if s.socketsConnected >= |s.expected| then a
    else if clientOpen then Process(v, a, id)
    else Destroy(a, id)
  }

  /** The buffer of socket `id` with `data` appended, as `DynBuffer.Append`
      leaves it. */
  function Received(s: Session, id: SocketId, data: seq<byte>): (r: Session)
    requires Inv(s) && id in s.conns
    ensures Inv(r) && Grows(s, r)
    ensures r.conns[id].buffer == s.conns[id].buffer + data
    ensures r.conns[id].phase == s.conns[id].phase && r.conns[id].kind == s.conns[id].kind
  {
    SetConn(s, id, s.conns[id].(buffer := s.conns[id].buffer + data))
  }

  /** The `data` handler (`processData` in the monolithic server): with the
      browser client gone the socket is destroyed; otherwise the chunk is
      appended and the socket processed. */
  function OnData(v: Variant, s: Session, id: SocketId, data: seq<byte>, clientOpen: bool): (r: Session)
    requires Inv(s) && id in s.conns
    ensures Inv(r) && Grows(s, r)
    ensures !clientOpen ==> r.conns[id].destroyed && r.sent == s.sent
    ensures clientOpen ==> r == Process(v, Received(s, id, data), id)
  {
    if !clientOpen then
      if s.conns[id].destroyed then s else Destroy(s, id)
    else
      var received := Received(s, id, data);
      GrowsTrans(s, received, Process(v, received, id));
      Process(v, received, id)
  }

  /** Whether the session still holds socket `x`. */
  predicate Referenced(s: Session, x: SocketId)
  {
    x in s.unidentified || s.video == Some(x) || s.audio == Some(x) || s.control == Some(x)
  }

  /** At most one of the three stream references is socket `id`. */
  predicate Single(s: Session, id: SocketId)
  {
    (s.video == Some(id) ==> s.audio != Some(id) && s.control != Some(id))
    && (s.audio == Some(id) ==> s.control != Some(id))
  }

  /** `clearSocketReference` up to its cleanup test: the first of the three
      stream references that is this socket is cleared. */
  function Clear(s: Session, id: SocketId): (r: Session)
    ensures r.conns == s.conns && r.sent == s.sent && r.unidentified == s.unidentified
    ensures r.expected == s.expected && r.socketsConnected == s.socketsConnected
    ensures r.processStarted == s.processStarted
    ensures r.video == (if s.video == Some(id) then None else s.video)
    ensures r.audio == (if s.video != Some(id) && s.audio == Some(id) then None else s.audio)
    ensures r.control ==
      (if s.video != Some(id) && s.audio != Some(id) && s.control == Some(id) then None else s.control)
  {
    if s.video == Some(id) then s.(video := None)
    else if s.audio == Some(id) then s.(audio := None)
    else if s.control == Some(id) then s.(control := None)
    else s
  }

  /** When a cleared session ends: in the session module once every
      expected socket has connected and none is left, in the monolithic
      server once none is left and the device process was started. */
  predicate EndsSession(v: Variant, s: Session)
  {
    s.video.None? && s.audio.None? && s.control.None?
    && (if v == SessionModule then s.socketsConnected >= |s.expected| else s.processStarted)
  }

  /** `cleanupSession` as far as the sockets and the browser see it: every
      socket the session still holds is destroyed, and an open client is
      told that streaming stopped. */
  function Cleanup(s: Session, clientOpen: bool): (r: Session)
    ensures r.conns.Keys == s.conns.Keys
    ensures forall x | x in s.conns ::
      r.conns[x] == s.conns[x].(destroyed := s.conns[x].destroyed || Referenced(s, x))
    ensures r.sent == s.sent + (if clientOpen then [StreamingStopped] else [])
  {
    var conns := map x | x in s.conns :: s.conns[x].(destroyed := s.conns[x].destroyed || Referenced(s, x));
    s.(conns := conns, sent := s.sent + if clientOpen then [StreamingStopped] else [])
  }

  /** The `end`, `close` and `error` handlers: the reference is cleared,
      which may end the session (`removed`); otherwise the socket leaves the
      unidentified list. */
  function OnClose(v: Variant, s: Session, id: SocketId, clientOpen: bool): (r: (Session, bool))
    requires Inv(s)
    ensures r.1 == EndsSession(v, Clear(s, id))
    ensures r.1 ==> r.0 == Cleanup(Clear(s, id), clientOpen)
    ensures !r.1 ==> Inv(r.0) && r.0.conns == s.conns && r.0.sent == s.sent
    ensures !r.1 && Single(s, id) ==> !Referenced(r.0, id)
  {
    var cleared := Clear(s, id);
    if EndsSession(v, cleared) then (Cleanup(cleared, clientOpen), true)
    else (cleared.(unidentified := Remove(cleared.unidentified, id)), false)
  }

  /** When the session ends, every other socket it held is destroyed (the
      closing one is closed already). */
  lemma CleanupClosesAll(v: Variant, s: Session, id: SocketId, clientOpen: bool)
    requires Inv(s) && OnClose(v, s, id, clientOpen).1
    ensures forall x | x in s.conns && x != id && Referenced(s, x) ::
      OnClose(v, s, id, clientOpen).0.conns[x].destroyed
  {
  }
}
