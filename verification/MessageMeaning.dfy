/** What the messages of the control channel do, told in terms of the state alone. */
module MessageMeaning {
  import opened Wire
  import opened ResponseFrame
  import opened Demux
  import opened Delivery
  import opened BodyDelivery

  /** A message is handled when it arrives while no body frame is awaited. */
  ghost predicate Handles(c: Codec, s: State, e: Event, m: Message) {
    e.Received? && s.awaiting.None? && Carried(c, s, e) == Some(m)
  }

  // ----- Installing yamux -----

  /** A hello that asks for yamux, where it can start, installs a new and empty session,
      the first one as well as a later one; any other hello changes nothing. */
  lemma HelloInstalls(c: Codec, s: State, e: Event, useYamux: bool)
    requires Inv(s) && Handles(c, s, e, GatewayHello(useYamux))
    ensures Step(c, s, e) ==
            if useYamux && e.starts
            then s.(sessions := s.sessions + [Pipe([], [], Flowing, true)], session := Some(|s.sessions|))
            else s
  {
  }

  /** The i-th event of a run is a hello that is handled and starts yamux. */
  ghost predicate InstallsAt(c: Codec, s: State, events: seq<Event>, i: nat)
    requires Inv(s) && i < |events|
  {
    Handles(c, Run(c, s, events[..i]), events[i], GatewayHello(true)) && events[i].starts
  }

  predicate NoStopFrom(events: seq<Event>, i: nat) {
    forall j | i <= j < |events| :: !events[j].StopYamux?
  }

  ghost predicate InstalledBy(c: Codec, s: State, events: seq<Event>)
    requires Inv(s)
  {
    exists i: nat | i < |events| :: InstallsAt(c, s, events, i) && NoStopFrom(events, i + 1)
  }

  /** Whether yamux owns the binary frames after a run: exactly when it did before or a
      handled hello started it, and it was not stopped since. */
  lemma {:induction false} InstalledExactly(c: Codec, s: State, events: seq<Event>)
    requires Inv(s)
    ensures Run(c, s, events).session.Some? <==>
            (s.session.Some? && NoStopFrom(events, 0)) || InstalledBy(c, s, events)
    decreases |events|
  {
    if events != [] {
      var n := |events| - 1;
      var before, e := events[..n], events[n];
      var mid := Run(c, s, before);
      InstalledExactly(c, s, before);
      assert events == before + [e];
      RunAppend(c, s, before, [e], mid);
      assert Run(c, mid, [e]) == Step(c, mid, e);
      InstalledStep(c, mid, e);
      StopAfter(before, e, 0);
      InstalledByAfter(c, s, events, before, e, mid);
    }
  }

  lemma InstalledByAfter(c: Codec, s: State, events: seq<Event>, before: seq<Event>, e: Event, mid: State)
    requires Inv(s) && events == before + [e] && mid == Run(c, s, before)
    ensures InstalledBy(c, s, events) <==>
            (InstalledBy(c, s, before) && !e.StopYamux?) || (Handles(c, mid, e, GatewayHello(true)) && e.starts)
  {
    var n := |before|;
    assert events[..n] == before && events[n] == e && NoStopFrom(events, n + 1);
    assert InstallsAt(c, s, events, n) <==> Handles(c, mid, e, GatewayHello(true)) && e.starts;
    forall i: nat | i < n
      ensures InstallsAt(c, s, events, i) <==> InstallsAt(c, s, before, i)
      ensures NoStopFrom(events, i + 1) <==> NoStopFrom(before, i + 1) && !e.StopYamux?
    {
      assert events[..i] == before[..i] && events[i] == before[i];
      StopAfter(before, e, i + 1);
    }
    if InstalledBy(c, s, before) && !e.StopYamux? {
      var i: nat :| i < n && InstallsAt(c, s, before, i) && NoStopFrom(before, i + 1);
      assert InstallsAt(c, s, events, i) && NoStopFrom(events, i + 1);
    }
    if InstalledBy(c, s, events) && !InstallsAt(c, s, events, n) {
      var i: nat :| i < |events| && InstallsAt(c, s, events, i) && NoStopFrom(events, i + 1);
      assert i < n && InstallsAt(c, s, before, i) && NoStopFrom(before, i + 1);
    }
  }

  lemma StopAfter(before: seq<Event>, e: Event, i: nat)
    requires i <= |before|
    ensures NoStopFrom(before + [e], i) <==> NoStopFrom(before, i) && !e.StopYamux?
  {
    var events := before + [e];
    assert events[|before|] == e;
    assert forall j | 0 <= j < |before| :: events[j] == before[j];
  }

  lemma InstalledStep(c: Codec, s: State, e: Event)
    requires Inv(s)
    ensures Step(c, s, e).session.Some? <==>
            !e.StopYamux? && (s.session.Some? || (Handles(c, s, e, GatewayHello(true)) && e.starts))
  {
  }

  // ----- Handing over requests -----

  /** The request goes to the handler, once, with this body; a streamed one with a new
      and empty pipe registered under its id. */
  predicate HandsOver(s: State, t: State, id: Id, body: Bytes, streaming: bool) {
    && t.sessions == s.sessions && t.session == s.session && t.awaiting == None
    && t.dispatched == s.dispatched + [Request(id, body, if streaming then Some(|s.bodies|) else None)]
    && t.bodies == s.bodies + (if streaming then [Pipe([], [], Flowing, true)] else [])
    && t.active == if streaming then s.active[id := |s.bodies|] else s.active
  }

  /** A request with its body inside: handed over with just that body, base64 decoded
      where it says so; without an id, a payload or a valid body it is dropped. */
  lemma RequestWithBody(c: Codec, s: State, e: Event, id: Id, hasPayload: bool, body: RequestBody, streaming: bool)
    requires Inv(s) && Handles(c, s, e, ProxyRequest(id, hasPayload, body, streaming)) && !body.NextFrame?
    ensures match body
            case Plain(bytes) =>
              if id == [] || !hasPayload then Step(c, s, e) == s
              else HandsOver(s, Step(c, s, e), id, bytes, streaming)
            case Base64(text) =>
              if id == [] || !hasPayload || c.unb64(text).None? then Step(c, s, e) == s
              else HandsOver(s, Step(c, s, e), id, c.unb64(text).value, streaming)
            case NextFrame => true
  {
    assert s.bodies + [] == s.bodies;
  }

  /** A request whose body is in the next frame: refused beside yamux; otherwise handed
      over with the bytes behind its id in that frame, and dropped by any other frame. */
  lemma RequestBeforeBody(c: Codec, s: State, e: Event, id: Id, streaming: bool, f: Frame, starts: bool, body: Bytes)
    requires Inv(s) && Handles(c, s, e, ProxyRequest(id, true, NextFrame, streaming)) && id != []
    ensures s.session.Some? ==> Step(c, s, e) == s
    ensures s.session.None? ==> Inv(Step(c, s, e))
    ensures s.session.None? && f == Binary(U16(|id|) + id + body) && |id| < 0x1_0000 ==>
              HandsOver(s, Step(c, Step(c, s, e), Received(f, starts)), id, body, streaming)
    ensures s.session.None? && (forall b: Bytes :: f != Binary(U16(|id|) + id + b) || |id| >= 0x1_0000) ==>
              Step(c, Step(c, s, e), Received(f, starts)) == s
  {
    StepKeepsInv(c, s, e);
    if s.session.None? {
      assert Step(c, s, e) == s.(awaiting := Some(Announced(id, streaming)));
      BodyFrameAcceptedExactly(f.data, id, body);
      if f.Binary? && ParseBodyFrame(f.data, id).Body? {
        BodyFrameAcceptedExactly(f.data, id, ParseBodyFrame(f.data, id).body);
      }
      assert s.bodies + [] == s.bodies;
    }
  }

  /** Messages about a body that is not being received, and all others, do nothing;
      neither does an undecodable chunk. */
  lemma NothingElseHappens(c: Codec, s: State, e: Event, m: Message)
    requires Inv(s) && Handles(c, s, e, m)
    requires match m
             case BodyChunk(id, Some(text), _) => id !in s.active || id == [] || c.unb64(text).None?
             case BodyChunk(id, None, Some(text)) => id !in s.active || id == [] || c.unb64(text).None?
             case BodyChunk(_, None, None) => true
             case StreamEnd(id) => id !in s.active || id == []
             case Cancel(id) => id !in s.active || id == []
             case Other => true
             case _ => false
    ensures Step(c, s, e) == s
  {
  }

  /** A broken connection ends the wait for a body frame and changes nothing else. */
  lemma BrokenConnection(c: Codec, s: State)
    requires Inv(s)
    ensures Step(c, s, ReceiveFailed) == s.(awaiting := None)
  {
  }
}
