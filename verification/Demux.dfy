/** The control channel.  One WebSocket carries JSON messages, a yamux byte stream and
    request bodies, and a single reader sorts them out.  Here every event of a
    connection has one effect, and the state is a function of the effects; the objects
    that do this are in `WebSocketClient`. */
module Demux {
  import opened Wire
  import opened ResponseFrame

  type Id = Bytes

  // ----- Pipes -----

  datatype End = Flowing | AtEof | Cancelled

  /** What the reader of a pipe is told. */
  datatype ReadStatus = Data | Wait | Eof | WriterError | ClosedPipe

  datatype ReadResult = ReadResult(data: Bytes, status: ReadStatus)

  /** A byte pipe: `got` was read, `pending` was written and not yet read. */
  datatype Pipe = Pipe(got: Bytes, pending: Bytes, end: End, readerOpen: bool)
  {
    /** All that was ever written. */
    function Fed(): Bytes {
      got + pending
    }

    predicate Writable() {
      end.Flowing? && readerOpen
    }

    function Write(data: Bytes): Pipe {
      if Writable() then this.(pending := pending + data) else this
    }

    /** The first close decides the end. */
    function CloseWriter(e: End): Pipe {
      if end.Flowing? then this.(end := e) else this
    }

    function CloseReader(): Pipe {
      this.(readerOpen := false)
    }

    function Read(n: nat): ReadResult {
      if !readerOpen then ReadResult([], ClosedPipe)
      else if pending != [] then ReadResult(pending[..if n < |pending| then n else |pending|], Data)
      else ReadResult([], if end.Flowing? then Wait else if end.AtEof? then Eof else WriterError)
    }

    function AfterRead(n: nat): Pipe {
      var data := Read(n).data;
      if readerOpen then this.(got := got + data, pending := pending[|data|..]) else this
    }
  }

  const NEW_PIPE := Pipe([], [], Flowing, true)

  lemma ReadConserves(p: Pipe, n: nat)
    ensures p.AfterRead(n).Fed() == p.Fed()
    ensures p.AfterRead(n).got == p.got + p.Read(n).data
  {
  }

  /** Written data is read first, whatever became of the writer: a read that asks for
      anything gets some of it, from the front. */
  lemma ReadGivesData(p: Pipe, n: nat)
    requires p.readerOpen && p.pending != []
    ensures p.Read(n).status == Data && p.Read(n).data <= p.pending && |p.Read(n).data| <= n
    ensures n > 0 ==> p.Read(n).data != []
    ensures n >= |p.pending| ==> p.Read(n).data == p.pending
  {
  }

  /** What the reader is told once nothing is left, and after it closed its end. */
  lemma ReadTellsEnd(p: Pipe, n: nat)
    ensures !p.readerOpen ==> p.Read(n) == ReadResult([], ClosedPipe)
    ensures p.readerOpen && p.pending == [] ==>
              && p.Read(n).data == []
              && (p.Read(n).status == Wait <==> p.end == Flowing)
              && (p.Read(n).status == Eof <==> p.end == AtEof)
              && (p.Read(n).status == WriterError <==> p.end == Cancelled)
  {
  }

  lemma WriteExtends(p: Pipe, data: Bytes)
    ensures p.Write(data).Fed() == p.Fed() + if p.Writable() then data else []
  {
    Assoc(p.got, p.pending, data);
  }

  // ----- Frames and messages -----

  datatype Frame = Text(data: Bytes) | Binary(data: Bytes)

  datatype RequestBody = NextFrame | Base64(text: string) | Plain(bytes: Bytes)

  datatype Message =
    | GatewayHello(useYamux: bool)
    | ProxyRequest(id: Id, hasPayload: bool, body: RequestBody, streaming: bool)
    | BodyChunk(id: Id, data: Option<string>, chunk: Option<string>)
    | StreamEnd(id: Id)
    | Cancel(id: Id)
    | Other

  /** JSON and base64 as partial functions. */
  datatype Codec = Codec(parse: Bytes -> Option<Message>, unb64: string -> Option<Bytes>)

  /** A request whose body is to come in the next binary frame. */
  datatype Announced = Announced(id: Id, streaming: bool)

  /** A request handed to the handler. */
  datatype Request = Request(id: Id, body: Bytes, stream: Option<nat>)

  // ----- Events and their effects -----

  /** `starts` tells whether a yamux session can be started when asked for: the hello
      is acknowledged and the connection is there. */
  datatype Event =
    | Received(frame: Frame, starts: bool)
    | ReceiveFailed
    | StopYamux
    | SessionClosed(k: nat)
    | SessionRead(k: nat, n: nat)
    | BodyRead(k: nat, n: nat)
    | BodyReaderClosed(k: nat)

  datatype Effect =
    | Feed(k: nat, data: Bytes)
    | Install
    | Uninstall
    | CloseSession(k: nat)
    | ReadSession(k: nat, n: nat)
    | Await(request: Announced)
    | Forget
    | Dispatch(id: Id, body: Bytes, streaming: bool)
    | Append(id: Id, data: Bytes)
    | EndBody(id: Id, end: End)
    | ReadBody(k: nat, n: nat)
    | CloseBodyReader(k: nat)
    | Nothing

  /** Sessions and bodies are numbered as they appear; `active` maps the ids whose
      body is still being received. */
  datatype State = State(sessions: seq<Pipe>, session: Option<nat>,
                         bodies: seq<Pipe>, active: map<Id, nat>,
                         awaiting: Option<Announced>, dispatched: seq<Request>)

  const INITIAL := State([], None, [], map[], None, [])

  /** Ids never share a body, and a body still being received has not ended. */
  ghost predicate BodiesOk(bodies: seq<Pipe>, active: map<Id, nat>) {
    && (forall id | id in active :: active[id] < |bodies| && bodies[active[id]].end.Flowing?)
    && (forall a, b | a in active && b in active && active[a] == active[b] :: a == b)
  }

  /** A session is closed at both ends at once. */
  ghost predicate SessionsOk(sessions: seq<Pipe>) {
    forall k | 0 <= k < |sessions| :: sessions[k].end == if sessions[k].readerOpen then Flowing else AtEof
  }

  /** Besides, the installed session exists, and nobody waits for a body frame while
      yamux owns the binary frames. */
  ghost predicate Inv(s: State) {
    && SessionsOk(s.sessions)
    && (s.session.Some? ==> s.session.value < |s.sessions| && s.awaiting.None?)
    && BodiesOk(s.bodies, s.active)
  }

  /** The payload of a chunk: "data", else "chunk". */
  function Payload(c: Codec, data: Option<string>, chunk: Option<string>): Option<Bytes> {
    if data.Some? then c.unb64(data.value)
    else if chunk.Some? then c.unb64(chunk.value)
    else None
  }

  function RequestEffect(c: Codec, yamux: bool, id: Id, body: RequestBody, streaming: bool): Effect {
    match body
    case NextFrame => if yamux then Nothing else Await(Announced(id, streaming))
    case Plain(bytes) => Dispatch(id, bytes, streaming)
    case Base64(text) =>
      match c.unb64(text)
      case Some(bytes) => Dispatch(id, bytes, streaming)
      case None => Nothing
  }

  function MessageEffect(c: Codec, yamux: bool, m: Message, starts: bool): Effect {
    match m
    case GatewayHello(useYamux) => if useYamux && starts then Install else Nothing
    case ProxyRequest(id, hasPayload, body, streaming) =>
      if id == [] || !hasPayload then Nothing else RequestEffect(c, yamux, id, body, streaming)
    case BodyChunk(id, data, chunk) =>
      (match if id == [] then None else Payload(c, data, chunk)
       case Some(bytes) => Append(id, bytes)
       case None => Nothing)
    case StreamEnd(id) => if id == [] then Nothing else EndBody(id, AtEof)
    case Cancel(id) => if id == [] then Nothing else EndBody(id, Cancelled)
    case Other => Nothing
  }

  /** The frame that arrives while a body frame is awaited, whatever it is. */
  function AwaitedEffect(r: Announced, f: Frame): Effect {
    if f.Text? then Forget
    else match ParseBodyFrame(f.data, r.id)
         case Body(bytes) => Dispatch(r.id, bytes, r.streaming)
         case Bad(_) => Forget
  }

  function FrameEffect(c: Codec, s: State, f: Frame, starts: bool): Effect {
    if s.awaiting.Some? then AwaitedEffect(s.awaiting.value, f)
    else if f.Binary? && s.session.Some? then Feed(s.session.value, f.data)
    else match c.parse(f.data)
         case Some(m) => MessageEffect(c, s.session.Some?, m, starts)
         case None => Nothing
  }

  function EffectOf(c: Codec, s: State, e: Event): Effect {
    match e
    case Received(f, starts) => FrameEffect(c, s, f, starts)
    case ReceiveFailed => Forget
    case StopYamux => Uninstall
    case SessionClosed(k) => CloseSession(k)
    case SessionRead(k, n) => ReadSession(k, n)
    case BodyRead(k, n) => ReadBody(k, n)
    case BodyReaderClosed(k) => CloseBodyReader(k)
  }

  /** Closing a `WSConn` closes both ends of its pipe. */
  function Shut(sessions: seq<Pipe>, k: nat): seq<Pipe> {
    if k < |sessions| then sessions[k := sessions[k].CloseWriter(AtEof).CloseReader()] else sessions
  }

  predicate HasBody(s: State, id: Id) {
    id in s.active && s.active[id] < |s.bodies|
  }

  function Apply(s: State, effect: Effect): State {
    match effect
    case Feed(k, data) =>
      if k < |s.sessions| then s.(sessions := s.sessions[k := s.sessions[k].Write(data)]) else s
    case Install => s.(sessions := s.sessions + [NEW_PIPE], session := Some(|s.sessions|))
    case Uninstall =>
      if s.session.None? then s else s.(sessions := Shut(s.sessions, s.session.value), session := None)
    case CloseSession(k) => s.(sessions := Shut(s.sessions, k))
    case ReadSession(k, n) =>
      if k < |s.sessions| then s.(sessions := s.sessions[k := s.sessions[k].AfterRead(n)]) else s
    case Await(r) => s.(awaiting := Some(r))
    case Forget => s.(awaiting := None)
    case Dispatch(id, body, streaming) =>
      if streaming
      then s.(awaiting := None, bodies := s.bodies + [NEW_PIPE], active := s.active[id := |s.bodies|],
              dispatched := s.dispatched + [Request(id, body, Some(|s.bodies|))])
      else s.(awaiting := None, dispatched := s.dispatched + [Request(id, body, None)])
    case Append(id, data) =>
      if HasBody(s, id)
      then s.(bodies := s.bodies[s.active[id] := s.bodies[s.active[id]].Write(data)]) else s
    case EndBody(id, end) =>
      if HasBody(s, id)
      then s.(bodies := s.bodies[s.active[id] := s.bodies[s.active[id]].CloseWriter(end)], active := s.active - {id})
      else s
    case ReadBody(k, n) =>
      if k < |s.bodies| then s.(bodies := s.bodies[k := s.bodies[k].AfterRead(n)]) else s
    case CloseBodyReader(k) =>
      if k < |s.bodies| then s.(bodies := s.bodies[k := s.bodies[k].CloseReader()]) else s
    case Nothing => s
  }

  function Step(c: Codec, s: State, e: Event): State
    requires Inv(s)
  {
    Apply(s, EffectOf(c, s, e))
  }

  lemma OpenBodyOk(bodies: seq<Pipe>, active: map<Id, nat>, id: Id)
    requires BodiesOk(bodies, active)
    ensures BodiesOk(bodies + [NEW_PIPE], active[id := |bodies|])
  {
  }

  lemma ChangeBodyOk(bodies: seq<Pipe>, active: map<Id, nat>, k: nat, p: Pipe)
    requires BodiesOk(bodies, active) && k < |bodies| && p.end == bodies[k].end
    ensures BodiesOk(bodies[k := p], active)
  {
  }

  lemma EndBodyOk(bodies: seq<Pipe>, active: map<Id, nat>, id: Id, p: Pipe)
    requires BodiesOk(bodies, active) && id in active
    ensures BodiesOk(bodies[active[id] := p], active - {id})
  {
  }

  lemma ApplyKeepsBodies(s: State, effect: Effect)
    requires Inv(s)
    ensures BodiesOk(Apply(s, effect).bodies, Apply(s, effect).active)
  {
    match effect {
      case Dispatch(id, _, streaming) => if streaming { OpenBodyOk(s.bodies, s.active, id); }
      case Append(id, data) =>
        if id in s.active {
          ChangeBodyOk(s.bodies, s.active, s.active[id], s.bodies[s.active[id]].Write(data));
        }
      case EndBody(id, end) =>
        if id in s.active {
          EndBodyOk(s.bodies, s.active, id, s.bodies[s.active[id]].CloseWriter(end));
        }
      case ReadBody(k, n) =>
        if k < |s.bodies| {
          ChangeBodyOk(s.bodies, s.active, k, s.bodies[k].AfterRead(n));
        }
      case CloseBodyReader(k) =>
        if k < |s.bodies| {
          ChangeBodyOk(s.bodies, s.active, k, s.bodies[k].CloseReader());
        }
      case _ =>
    }
  }

  /** A body frame is only awaited without a session, and a session is only installed
      while none is awaited. */
  lemma EffectFits(c: Codec, s: State, e: Event)
    requires Inv(s)
    ensures EffectOf(c, s, e).Await? ==> s.session.None?
    ensures EffectOf(c, s, e).Install? ==> s.awaiting.None?
  {
  }

  lemma ApplyKeepsSessions(s: State, effect: Effect)
    requires Inv(s)
    ensures SessionsOk(Apply(s, effect).sessions) && |s.sessions| <= |Apply(s, effect).sessions|
  {
  }

  lemma ApplyKeepsInv(s: State, effect: Effect)
    requires Inv(s) && (effect.Await? ==> s.session.None?) && (effect.Install? ==> s.awaiting.None?)
    ensures Inv(Apply(s, effect))
  {
    ApplyKeepsBodies(s, effect);
    ApplyKeepsSessions(s, effect);
  }

  /** Every event keeps the invariant. */
  lemma StepKeepsInv(c: Codec, s: State, e: Event)
    requires Inv(s)
    ensures Inv(Step(c, s, e))
  {
    var effect := EffectOf(c, s, e);
    EffectFits(c, s, e);
    ApplyKeepsInv(s, effect);
  }

  function Run(c: Codec, s: State, events: seq<Event>): (t: State)
    requires Inv(s)
    ensures Inv(t)
    decreases |events|
  {
    if events == [] then s
    else
      StepKeepsInv(c, s, events[0]);
      Run(c, Step(c, s, events[0]), events[1..])
  }

  /** One effect for each event. */
  function Effects(c: Codec, s: State, events: seq<Event>): (effects: seq<Effect>)
    requires Inv(s)
    ensures |effects| == |events|
    decreases |events|
  {
    if events == [] then []
    else
      StepKeepsInv(c, s, events[0]);
      [EffectOf(c, s, events[0])] + Effects(c, Step(c, s, events[0]), events[1..])
  }
}
