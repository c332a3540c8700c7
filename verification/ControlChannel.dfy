/** The objects behind the demultiplexer: the connection handed to yamux, the pipes of
    streamed request bodies and the client whose reader feeds them. */
module ControlChannel {
  import opened Wire
  import opened ResponseFrame
  import opened Demux

  /** The yamux side of the shared WebSocket. */
  class WSConn {
    ghost const number: nat
    var pipe: Pipe
    var closed: bool

    constructor (ghost number: nat)
      ensures Valid() && pipe == NEW_PIPE && !closed && this.number == number
    {
      this.number := number;
      pipe, closed := NEW_PIPE, false;
    }

    predicate Valid()
      reads this
    {
      closed ==> !pipe.readerOpen && !pipe.end.Flowing?
    }

    method FeedBinaryData(data: Bytes) returns (ok: bool)
      requires Valid()
      modifies this`pipe
      ensures Valid() && pipe == old(pipe).Write(data) && ok == old(pipe).Writable()
    {
      ok := pipe.Writable();
      pipe := pipe.Write(data);
    }

    method Read(n: nat) returns (r: ReadResult)
      requires Valid()
      modifies this`pipe
      ensures Valid() && r == old(pipe).Read(n) && pipe == old(pipe).AfterRead(n)
    {
      r := pipe.Read(n);
      pipe := pipe.AfterRead(n);
    }

    method Close()
      requires Valid()
      modifies this
      ensures Valid() && closed && pipe == old(pipe).CloseWriter(AtEof).CloseReader()
    {
      if closed {
        return;
      }
      closed := true;
      pipe := pipe.CloseWriter(AtEof).CloseReader();
    }
  }

  /** A streamed request body: the client writes, the handler reads. */
  class BodyPipe {
    ghost const number: nat
    var pipe: Pipe

    constructor (ghost number: nat)
      ensures pipe == NEW_PIPE && this.number == number
    {
      this.number := number;
      pipe := NEW_PIPE;
    }
  }

  /** What the handler is given. */
  datatype Handed = Handed(id: Id, body: Bytes, stream: BodyPipe?)

  ghost function Noted(h: Handed): Request {
    Request(h.id, h.body, if h.stream == null then None else Some(h.stream.number))
  }

  ghost function AllNoted(requests: seq<Handed>): seq<Request> {
    if requests == [] then []
    else AllNoted(requests[..|requests| - 1]) + [Noted(requests[|requests| - 1])]
  }

  lemma NotedOneMore(requests: seq<Handed>, h: Handed)
    ensures AllNoted(requests + [h]) == AllNoted(requests) + [Noted(h)]
  {
    assert (requests + [h])[..|requests|] == requests;
  }

  /** What is left to receive leads to where all of it would have led, and the
      requests handed over so far are noted. */
  ghost predicate Progress(c: Codec, start: State, now: State, all: seq<Event>, left: seq<Event>,
                           requests: seq<Handed>)
  {
    && Inv(start) && Inv(now)
    && Run(c, now, left) == Run(c, start, all)
    && now.dispatched == start.dispatched + AllNoted(requests)
  }

  lemma ProgressOneMore(c: Codec, start: State, now: State, next: State, all: seq<Event>, left: seq<Event>,
                        requests: seq<Handed>, request: Option<Handed>)
    requires Progress(c, start, now, all, left, requests) && left != [] && next == Step(c, now, left[0])
    requires next.dispatched == if request.None? then now.dispatched else now.dispatched + [Noted(request.value)]
    ensures Progress(c, start, next, all, left[1..], if request.Some? then requests + [request.value] else requests)
  {
    StepKeepsInv(c, now, left[0]);
    if request.Some? {
      NotedOneMore(requests, request.value);
    }
  }

  ghost function SessionPipes(sessions: seq<WSConn>): (pipes: seq<Pipe>)
    reads sessions
    ensures |pipes| == |sessions| && forall i | 0 <= i < |pipes| :: pipes[i] == sessions[i].pipe
  {
    seq(|sessions|, i requires 0 <= i < |sessions| reads sessions => sessions[i].pipe)
  }

  ghost function BodyPipes(bodies: seq<BodyPipe>): (pipes: seq<Pipe>)
    reads bodies
    ensures |pipes| == |bodies| && forall i | 0 <= i < |pipes| :: pipes[i] == bodies[i].pipe
  {
    seq(|bodies|, i requires 0 <= i < |bodies| reads bodies => bodies[i].pipe)
  }

  class WebSocketClient {
    const codec: Codec
    var yamux: WSConn?
    var activeRequestBodyPipes: map<Id, BodyPipe>
    /** The request whose body frame the reader is waiting for. */
    var awaiting: Option<Announced>

    /** Every session and body there ever was, and where the live ones are. */
    ghost var sessions: seq<WSConn>
    ghost var bodies: seq<BodyPipe>
    ghost var session: Option<nat>
    ghost var active: map<Id, nat>
    ghost var dispatched: seq<Request>

    constructor (codec: Codec)
      ensures Valid() && this.codec == codec && View() == INITIAL
    {
      this.codec := codec;
      yamux, activeRequestBodyPipes, awaiting := null, map[], None;
      sessions, bodies, session, active, dispatched := [], [], None, map[], [];
    }

    ghost function View(): State
      reads this, sessions, bodies
    {
      State(SessionPipes(sessions), session, BodyPipes(bodies), active, awaiting, dispatched)
    }

    /** Sessions and bodies are numbered in order; the live ones are among them. */
    ghost predicate Objects()
      reads this, sessions
    {
      && (forall i | 0 <= i < |sessions| :: sessions[i].number == i && sessions[i].Valid())
      && (forall i | 0 <= i < |bodies| :: bodies[i].number == i)
      && (if session.None? then yamux == null
          else session.value < |sessions| && yamux == sessions[session.value])
      && active.Keys == activeRequestBodyPipes.Keys
      && (forall id | id in active :: active[id] < |bodies| && bodies[active[id]] == activeRequestBodyPipes[id])
    }

    ghost predicate Valid()
      reads this, sessions, bodies
    {
      Objects() && Inv(View())
    }

    /** No session and no body is forgotten, and the added ones are new objects. */
    twostate predicate Grows()
      reads this
    {
      && old(sessions) <= sessions && (forall i | |old(sessions)| <= i < |sessions| :: fresh(sessions[i]))
      && old(bodies) <= bodies && (forall i | |old(bodies)| <= i < |bodies| :: fresh(bodies[i]))
    }

    method FeedYamux(data: Bytes)
      requires Objects() && yamux != null
      modifies sessions
      ensures Objects() && View() == Apply(old(View()), Feed(session.value, data))
    {
      var ok := yamux.FeedBinaryData(data);
      assert View().sessions == Apply(old(View()), Feed(session.value, data)).sessions;
    }

    method StartYamuxClient()
      requires Objects()
      modifies this
      ensures Objects() && Grows() && View() == Apply(old(View()), Install)
    {
      yamux := new WSConn(|sessions|);
      session, sessions := Some(|sessions|), sessions + [yamux];
      assert View().sessions == Apply(old(View()), Install).sessions;
    }

    method StopYamuxClient()
      requires Objects()
      modifies this, sessions
      ensures Objects() && View() == Apply(old(View()), Uninstall)
    {
      if yamux == null {
        return;
      }
      yamux.Close();
      yamux, session := null, None;
      assert View().sessions == Apply(old(View()), Uninstall).sessions;
    }

    /** A request goes to the handler, with a fresh pipe if its body is streamed. */
    method DispatchRequest(id: Id, body: Bytes, streaming: bool) returns (request: Handed)
      requires Objects()
      modifies this
      ensures Objects() && Grows() && View() == Apply(old(View()), Dispatch(id, body, streaming))
      ensures request.id == id && request.body == body && HandedOver(old(dispatched), Some(request))
    {
      var p := null;
      if streaming {
        p := OpenBody(id);
      }
      request := Handed(id, body, p);
      Note(request);
    }

    /** The request goes into the history, and the reader waits for no body frame. */
    method Note(h: Handed)
      requires Objects()
      modifies this`awaiting, this`dispatched
      ensures Objects() && View() == old(View()).(awaiting := None, dispatched := old(View()).dispatched + [Noted(h)])
    {
      awaiting := None;
      dispatched := dispatched + [Noted(h)];
    }

    /** A new pipe for an id; one it had before is left behind as it is. */
    method OpenBody(id: Id) returns (p: BodyPipe)
      requires Objects()
      modifies this`activeRequestBodyPipes, this`active, this`bodies
      ensures Objects() && Grows() && HasStream(p) && p.number == |old(bodies)|
      ensures View() == old(View()).(bodies := old(View()).bodies + [NEW_PIPE],
                                     active := old(View()).active[id := |old(bodies)|])
    {
      p := new BodyPipe(|bodies|);
      active := active[id := |bodies|];
      activeRequestBodyPipes := activeRequestBodyPipes[id := p];
      bodies := bodies + [p];
      assert View().bodies == old(View()).bodies + [NEW_PIPE];
    }

    ghost predicate HasStream(p: BodyPipe)
      reads this
    {
      p.number < |bodies| && bodies[p.number] == p
    }

    /** Replaces the contents of one body. */
    method SetBody(p: BodyPipe, contents: Pipe)
      requires Objects() && HasStream(p)
      modifies p
      ensures Objects() && View() == old(View()).(bodies := old(View()).bodies[p.number := contents])
    {
      p.pipe := contents;
      assert View().bodies == old(View()).bodies[p.number := contents];
    }

    method WriteChunk(id: Id, data: Option<string>, chunk: Option<string>)
      requires Objects()
      modifies bodies
      ensures Objects()
      ensures View() == Apply(old(View()), match Payload(codec, data, chunk)
                                           case Some(bytes) => Append(id, bytes)
                                           case None => Nothing)
    {
      if id !in activeRequestBodyPipes {
        return;
      }
      var text := if data.Some? then data else chunk;
      if text.None? {
        return;
      }
      var bytes := codec.unb64(text.value);
      if bytes.None? {
        return;
      }
      var p := activeRequestBodyPipes[id];
      SetBody(p, p.pipe.Write(bytes.value));
    }

    /** The end of a body, or its cancellation. */
    method CloseBody(id: Id, end: End)
      requires Objects()
      modifies this`activeRequestBodyPipes, this`active, bodies
      ensures Objects() && View() == Apply(old(View()), EndBody(id, end))
    {
      if id !in activeRequestBodyPipes {
        return;
      }
      var p := activeRequestBodyPipes[id];
      SetBody(p, p.pipe.CloseWriter(end));
      RemoveBody(id);
    }

    method RemoveBody(id: Id)
      requires Objects()
      modifies this`activeRequestBodyPipes, this`active
      ensures Objects() && View() == old(View()).(active := old(View()).active - {id})
    {
      activeRequestBodyPipes, active := activeRequestBodyPipes - {id}, active - {id};
    }

    /** The request, if one was handed over, is the newest in the history. */
    ghost predicate HandedOver(before: seq<Request>, request: Option<Handed>)
      reads this
    {
      match request
      case None => dispatched == before
      case Some(h) => dispatched == before + [Noted(h)] && (h.stream != null ==> HasStream(h.stream))
    }

    method ParseProxyRequest(id: Id, hasPayload: bool, body: RequestBody, streaming: bool)
      returns (request: Option<Handed>)
      requires Objects()
      modifies this
      ensures Objects() && HandedOver(old(dispatched), request) && Grows()
      ensures View() == Apply(old(View()), if id == [] || !hasPayload then Nothing
                                           else RequestEffect(codec, old(session).Some?, id, body, streaming))
    {
      if id == [] || !hasPayload {
        return None;
      }
      var bytes;
      match body {
        case NextFrame =>
          if yamux == null {
            awaiting := Some(Announced(id, streaming));
          }
          return None;
        case Base64(text) =>
          var decoded := codec.unb64(text);
          if decoded.None? {
            return None;
          }
          bytes := decoded.value;
        case Plain(plain) => bytes := plain;
      }
      var h := DispatchRequest(id, bytes, streaming);
      request := Some(h);
    }

    /** The frame that follows a request with a binary body. */
    method TakeBodyFrame(f: Frame) returns (request: Option<Handed>)
      requires Objects() && awaiting.Some?
      modifies this
      ensures Objects() && HandedOver(old(dispatched), request) && Grows()
      ensures View() == Apply(old(View()), AwaitedEffect(old(awaiting).value, f))
    {
      var r := awaiting.value;
      awaiting := None;
      if f.Text? {
        return None;
      }
      match ParseBodyFrame(f.data, r.id) {
        case Bad(_) => return None;
        case Body(bytes) =>
          var h := DispatchRequest(r.id, bytes, r.streaming);
          return Some(h);
      }
    }

    method HandleMessage(m: Message, starts: bool) returns (request: Option<Handed>)
      requires Objects()
      modifies this, sessions, bodies
      ensures Objects() && HandedOver(old(dispatched), request) && Grows()
      ensures View() == Apply(old(View()), MessageEffect(codec, old(session).Some?, m, starts))
    {
      request := None;
      match m {
        case GatewayHello(useYamux) =>
          if useYamux && starts {
            StartYamuxClient();
          }
        case ProxyRequest(id, hasPayload, body, streaming) =>
          request := ParseProxyRequest(id, hasPayload, body, streaming);
        case BodyChunk(id, data, chunk) =>
          if id != [] {
            WriteChunk(id, data, chunk);
          }
        case StreamEnd(id) =>
          if id != [] {
            CloseBody(id, AtEof);
          }
        case Cancel(id) =>
          if id != [] {
            CloseBody(id, Cancelled);
          }
        case Other =>
      }
    }

    /** One turn of the reader: exactly the step of the demultiplexer. */
    method Receive(f: Frame, starts: bool) returns (request: Option<Handed>)
      requires Valid()
      modifies this, sessions, bodies
      ensures Valid() && View() == Step(codec, old(View()), Received(f, starts))
      ensures HandedOver(old(dispatched), request) && Grows()
    {
      StepKeepsInv(codec, View(), Received(f, starts));
      if awaiting.Some? {
        request := TakeBodyFrame(f);
        return;
      }
      if f.Binary? && yamux != null {
        FeedYamux(f.data);
        return None;
      }
      var m := codec.parse(f.data);
      if m.None? {
        return None;
      }
      request := HandleMessage(m.value, starts);
    }

    /** The reader loop of one connection, from its start to the failure that ends it. */
    method ReadMessages(incoming: seq<Event>) returns (requests: seq<Handed>)
      requires Valid() && forall e | e in incoming :: e.Received?
      modifies this, sessions, bodies
      ensures Valid() && View() == Step(codec, Run(codec, old(View()), incoming), Event.ReceiveFailed)
      ensures dispatched == old(dispatched) + AllNoted(requests)
    {
      requests := [];
      ghost var start := View();
      var i := 0;
      while i < |incoming|
        invariant 0 <= i <= |incoming|
        invariant Valid() && Grows()
        invariant Progress(codec, start, View(), incoming, incoming[i..], requests)
      {
        requests := ReadTurn(incoming, i, requests, start);
        i := i + 1;
      }
      ReceiveFailed();
    }

    /** One turn of that loop. */
    method ReadTurn(incoming: seq<Event>, i: nat, before: seq<Handed>, ghost start: State)
      returns (requests: seq<Handed>)
      requires Valid() && i < |incoming| && forall e | e in incoming :: e.Received?
      requires Progress(codec, start, View(), incoming, incoming[i..], before)
      modifies this, sessions, bodies
      ensures Valid() && Grows()
      ensures Progress(codec, start, View(), incoming, incoming[i + 1..], requests)
    {
      ghost var now := View();
      assert incoming[i] in incoming && incoming[i..][1..] == incoming[i + 1..];
      var request := Receive(incoming[i].frame, incoming[i].starts);
      requests := if request.Some? then before + [request.value] else before;
      ProgressOneMore(codec, start, now, View(), incoming, incoming[i..], before, request);
    }

    /** The connection broke. */
    method ReceiveFailed()
      requires Valid()
      modifies this`awaiting
      ensures Valid() && View() == Step(codec, old(View()), Event.ReceiveFailed)
    {
      awaiting := None;
    }

    /** A reconnect or the end of the client. */
    method Stop()
      requires Valid()
      modifies this, sessions
      ensures Valid() && View() == Step(codec, old(View()), StopYamux)
    {
      StepKeepsInv(codec, View(), StopYamux);
      StopYamuxClient();
    }

    /** The handler reads the body of its request. */
    method ReadBody(p: BodyPipe, n: nat) returns (r: ReadResult)
      requires Valid() && HasStream(p)
      modifies p
      ensures Valid() && View() == Step(codec, old(View()), BodyRead(p.number, n)) && r == old(p.pipe).Read(n)
    {
      StepKeepsInv(codec, View(), BodyRead(p.number, n));
      r := p.pipe.Read(n);
      SetBody(p, p.pipe.AfterRead(n));
    }

    /** The handler is done with the body of its request. */
    method CloseBodyReader(p: BodyPipe)
      requires Valid() && HasStream(p)
      modifies p
      ensures Valid() && View() == Step(codec, old(View()), BodyReaderClosed(p.number))
    {
      StepKeepsInv(codec, View(), BodyReaderClosed(p.number));
      SetBody(p, p.pipe.CloseReader());
    }

    /** yamux reads. */
    method ReadSession(w: WSConn, n: nat) returns (r: ReadResult)
      requires Valid() && w.number < |sessions| && sessions[w.number] == w
      modifies w
      ensures Valid() && View() == Step(codec, old(View()), SessionRead(w.number, n)) && r == old(w.pipe).Read(n)
    {
      StepKeepsInv(codec, View(), SessionRead(w.number, n));
      r := w.Read(n);
      assert View().sessions == Step(codec, old(View()), SessionRead(w.number, n)).sessions;
    }

    /** yamux closes its connection; the client goes on feeding it. */
    method CloseSession(w: WSConn)
      requires Valid() && w.number < |sessions| && sessions[w.number] == w
      modifies w
      ensures Valid() && View() == Step(codec, old(View()), SessionClosed(w.number))
    {
      StepKeepsInv(codec, View(), SessionClosed(w.number));
      w.Close();
      assert View().sessions == Step(codec, old(View()), SessionClosed(w.number)).sessions;
    }
  }
}
