/** The two response writers of a proxied request.  The buffered one collects the
    whole response and hands its sender a single message; the streaming one sends a
    header, chunks and an end.  Both are specified as machines over the calls made. */
module ResponseWriters {
  import opened Text
  import opened Wire

  // ----- Headers -----

  type Headers = map<string, seq<string>>

  /** `cloneHeaderMap` of a non-nil map: keys without values are dropped. */
  function CloneHeaderMap(h: Headers): Headers {
    map k | k in h && h[k] != [] :: h[k]
  }

  /** Names of headers that concern one connection only; the handshake of a protocol
      switch keeps the first two. */
  predicate IsHopByHop(key: string, status: int) {
    var lower := Lower(key);
    || (status != 101 && (lower == "connection" || lower == "upgrade"))
    || lower == "transfer-encoding" || lower == "keep-alive" || lower == "proxy-authenticate"
    || lower == "proxy-authorization" || lower == "te" || lower == "trailers"
  }

  /** `sanitizeHeadersForStatus`; an empty map gives nil. */
  function Sanitized(h: Headers, status: int): Option<Headers> {
    if h == map[] then None else Some(map k | k in h && !IsHopByHop(k, status) :: h[k])
  }

  /** What a client gets to see of a header: every name but those that concern one
      connection, whatever their case; a protocol switch keeps its handshake. */
  predicate Passes(key: string, status: int) {
    && Lower(key) !in {"transfer-encoding", "keep-alive", "proxy-authenticate", "proxy-authorization", "te", "trailers"}
    && (status == 101 || Lower(key) !in {"connection", "upgrade"})
  }

  /** The headers sent for the headers given: those that have a value and pass, with
      their values; none at all when none was given with a value. */
  ghost predicate Filtered(given: Option<Headers>, status: int, sent: Option<Headers>) {
    match given
    case None => sent == None
    case Some(h) =>
      if forall k | k in h :: h[k] == [] then sent == None
      else
        && sent.Some?
        && (forall k :: k in sent.value <==> k in h && h[k] != [] && Passes(k, status))
        && forall k | k in sent.value :: sent.value[k] == h[k]
  }

  /** Cloning and sanitizing do just that. */
  lemma SentHeaders(given: Option<Headers>, status: int)
    ensures Filtered(given, status, SanitizedClone(given, status))
  {
    if given.Some? {
      var h := given.value;
      assert (forall k | k in h :: h[k] == []) <==> CloneHeaderMap(h) == map[] by {
        if CloneHeaderMap(h) == map[] {
          forall k | k in h
            ensures h[k] == []
          {
            assert k !in CloneHeaderMap(h);
          }
        }
      }
    }
  }

  /** The names are compared without regard to case. */
  lemma ConnectionHeaders()
    ensures !Passes("Connection", 200) && !Passes("UPGRADE", 404) && Passes("Connection", 101) && Passes("upgrade", 101)
    ensures !Passes("Transfer-Encoding", 101) && !Passes("TE", 200) && Passes("Content-Type", 200)
  {
    assert Lower("Connection") == "connection" && Lower("UPGRADE") == "upgrade" && Lower("upgrade") == "upgrade";
    assert Lower("Transfer-Encoding") == "transfer-encoding" && Lower("TE") == "te";
    assert Lower("Content-Type") == "content-type";
  }

  lemma CloneIsIdempotent(h: Headers)
    ensures CloneHeaderMap(CloneHeaderMap(h)) == CloneHeaderMap(h)
  {
  }

  // ----- Body encodings -----

  /** base64 and gzip, of which only their inverses are known; compressing may fail. */
  datatype Codec = Codec(b64: Bytes -> string, unb64: string -> Bytes,
                         gzip: Bytes -> Option<Bytes>, gunzip: Bytes -> Bytes)
  {
    ghost predicate Inverse() {
      && (forall d :: unb64(b64(d)) == d)
      && (forall d :: gzip(d).Some? ==> gunzip(gzip(d).value) == d)
    }
  }

  /** `shouldCompress`. */
  predicate ShouldCompress(contentType: string, size: nat) {
    && size >= 1024
    && !Contains(contentType, "gzip") && !Contains(contentType, "compress") && !Contains(contentType, "zip")
    && !Contains(contentType, "image/") && !Contains(contentType, "video/") && !Contains(contentType, "audio/")
    && (Contains(contentType, "text/") || Contains(contentType, "json") || Contains(contentType, "javascript")
        || Contains(contentType, "xml") || Contains(contentType, "html") || Contains(contentType, "yaml"))
  }

  function ContentType(h: Headers): string {
    if "Content-Type" in h && h["Content-Type"] != [] then h["Content-Type"][0] else ""
  }

  // ----- What is sent -----

  datatype Message =
    | Header(status: int, headers: Option<Headers>)
    | Chunk(data: Bytes)
    | End
    | Abort(reason: string)
    | Json(status: int, headers: Option<Headers>, body: string, encoding: string)
    | Binary(status: int, headers: Option<Headers>, bytes: Bytes, encoding: string)
    | ProxyError(reason: string)

  /** A message handed to the sender, and whether the sender reported success. */
  datatype Attempt = Attempt(message: Message, ok: bool)

  type Log = seq<Attempt>

  /** The codecs, whether yamux owns the binary frames, and the success of the k-th
      send made for this request: any function is a failure pattern. */
  datatype Env = Env(codec: Codec, yamuxActive: bool, succeeds: nat -> bool)
  {
    function Send(log: Log, m: Message): Log {
      log + [Attempt(m, succeeds(|log|))]
    }
  }

  /** The response a client can make of what it got. */
  datatype Response = Response(status: int, headers: Option<Headers>, body: Bytes)

  /** A buffered message, with its body decoded as its encoding says. */
  function Decoded(c: Codec, m: Message): Option<Response> {
    match m
    case Json(status, headers, body, encoding) =>
      if encoding == "" then (if body == "" then Some(Response(status, headers, [])) else None)
      else if encoding == "base64" then Some(Response(status, headers, c.unb64(body)))
      else if encoding == "gzip" then Some(Response(status, headers, c.gunzip(c.unb64(body))))
      else None
    case Binary(status, headers, bytes, encoding) =>
      if encoding == "binary" then Some(Response(status, headers, bytes))
      else if encoding == "binary+gzip" then Some(Response(status, headers, c.gunzip(bytes)))
      else None
    case _ => None
  }

  /** A streamed response: a header, then chunks. */
  function Reassembled(log: Log): Option<Response> {
    if log == [] then None
    else match log[|log| - 1].message
         case Header(status, headers) => if |log| == 1 then Some(Response(status, headers, [])) else None
         case Chunk(data) =>
           (match Reassembled(log[..|log| - 1])
            case Some(r) => Some(r.(body := r.body + data))
            case None => None)
         case _ => None
  }

  // ----- The machines -----

  datatype Call =
    | WriteHeader(status: int, headers: Option<Headers>)
    | WriteChunk(data: Bytes)
    | Close(error: Option<string>)

  datatype Buffered = Buffered(closed: bool, status: int, headers: Headers, buffer: Bytes, log: Log)

  datatype Streaming = Streaming(closed: bool, headerSent: bool, log: Log)

  const NEW_BUFFERED := Buffered(false, 0, map[], [], [])

  const NEW_STREAMING := Streaming(false, false, [])

  const BINARY_THRESHOLD := 10 * 1024

  function BinaryMessage(c: Codec, status: int, headers: Headers, body: Bytes): Message {
    var sanitized := Sanitized(headers, status);
    match if ShouldCompress(ContentType(headers), |body|) then c.gzip(body) else None
    case Some(small) =>
      if |small| < |body| then Binary(status, sanitized, small, "binary+gzip")
      else Binary(status, sanitized, body, "binary")
    case None => Binary(status, sanitized, body, "binary")
  }

  function JsonMessage(c: Codec, status: int, headers: Headers, body: Bytes): Message {
    var sanitized := Sanitized(headers, status);
    if body == [] then Json(status, sanitized, "", "") else
    match if ShouldCompress(ContentType(headers), |body|) then c.gzip(body) else None
    case Some(small) => Json(status, sanitized, c.b64(small), "gzip")
    case None => Json(status, sanitized, c.b64(body), "base64")
  }

  /** What a successful close of the buffered writer adds to the log: the binary
      message where it applies, and JSON if there was none or it failed. */
  function Committed(env: Env, b: Buffered): Log {
    var status := if b.status == 0 then 200 else b.status;
    var headers := CloneHeaderMap(b.headers);
    var binary := |b.buffer| >= BINARY_THRESHOLD && !env.yamuxActive;
    var log := if binary then env.Send(b.log, BinaryMessage(env.codec, status, headers, b.buffer)) else b.log;
    if binary && log[|log| - 1].ok then log
    else env.Send(log, JsonMessage(env.codec, status, headers, b.buffer))
  }

  function BufferedStep(env: Env, b: Buffered, call: Call): Buffered {
    match call
    case WriteHeader(status, headers) =>
      if b.closed then b
      else b.(status := if status > 0 then status else b.status,
              headers := if headers.Some? then CloneHeaderMap(headers.value) else b.headers)
    case WriteChunk(data) => if b.closed then b else b.(buffer := b.buffer + data)
    case Close(error) =>
      if b.closed then b
      else b.(closed := true,
              log := if error.Some? then env.Send(b.log, ProxyError(error.value)) else Committed(env, b))
  }

  function StreamingStep(env: Env, s: Streaming, call: Call): Streaming {
    if s.closed then s else
    match call
    case WriteHeader(status, headers) =>
      var st := if status == 0 then 200 else status;
      var log := env.Send(s.log, Header(st, SanitizedClone(headers, st)));
      s.(log := log, headerSent := s.headerSent || log[|log| - 1].ok)
    case WriteChunk(data) => if data == [] then s else s.(log := env.Send(s.log, Chunk(data)))
    case Close(error) =>
      s.(closed := true, log := env.Send(s.log, if error.Some? then Abort(error.value) else End))
  }

  function SanitizedClone(headers: Option<Headers>, status: int): Option<Headers> {
    if headers.None? then None else Sanitized(CloneHeaderMap(headers.value), status)
  }

  function BufferedRun(env: Env, b: Buffered, calls: seq<Call>): Buffered {
    if calls == [] then b
    else BufferedStep(env, BufferedRun(env, b, calls[..|calls| - 1]), calls[|calls| - 1])
  }

  function StreamingRun(env: Env, s: Streaming, calls: seq<Call>): Streaming {
    if calls == [] then s
    else StreamingStep(env, StreamingRun(env, s, calls[..|calls| - 1]), calls[|calls| - 1])
  }

  // ----- One terminal message per request -----

  predicate IsTerminal(m: Message) {
    m.End? || m.Abort?
  }

  /** The log of a closed streaming writer ends with its only terminal message. */
  ghost predicate OneTerminal(log: Log) {
    && log != [] && IsTerminal(log[|log| - 1].message)
    && forall k | 0 <= k < |log| - 1 :: !IsTerminal(log[k].message)
  }

  /** The log of a closed buffered writer: one error, or one response, or a binary
      response whose send failed followed by the JSON one. */
  ghost predicate OneCommit(log: Log) {
    || (|log| == 1 && (log[0].message.ProxyError? || log[0].message.Json?))
    || (|log| == 1 && log[0].message.Binary? && log[0].ok)
    || (|log| == 2 && log[0].message.Binary? && !log[0].ok && log[1].message.Json?)
  }

  /** Whatever calls are made and whatever fails: before the close no terminal was
      attempted, afterwards exactly one, and nothing after it. */
  lemma {:induction false} StreamingTerminal(env: Env, calls: seq<Call>)
    ensures var s := StreamingRun(env, NEW_STREAMING, calls);
            if s.closed then OneTerminal(s.log)
            else forall k | 0 <= k < |s.log| :: !IsTerminal(s.log[k].message)
  {
    if calls != [] {
      StreamingTerminal(env, calls[..|calls| - 1]);
    }
  }

  lemma {:induction false} BufferedCommit(env: Env, calls: seq<Call>)
    ensures var b := BufferedRun(env, NEW_BUFFERED, calls);
            if b.closed then OneCommit(b.log) else b.log == []
  {
    if calls != [] {
      BufferedCommit(env, calls[..|calls| - 1]);
    }
  }

  /** `ensureClosed` after any calls leaves a closed writer, so the guarantee of the
      closed log holds at the end of every request. */
  lemma EveryRequestEndsOnce(env: Env, calls: seq<Call>)
    ensures OneTerminal(StreamingRun(env, NEW_STREAMING, calls + [Close(None)]).log)
    ensures OneCommit(BufferedRun(env, NEW_BUFFERED, calls + [Close(None)]).log)
  {
    var all := calls + [Close(None)];
    StreamingTerminal(env, all);
    BufferedCommit(env, all);
    assert all[..|calls|] == calls;
  }

  // ----- The two writers mean the same -----

  function Body(chunks: seq<Bytes>): Bytes {
    Flatten(chunks)
  }

  function ChunkCalls(chunks: seq<Bytes>): seq<Call> {
    seq(|chunks|, i requires 0 <= i < |chunks| => WriteChunk(chunks[i]))
  }

  /** The calls of a handler that has a whole response. */
  function WholeResponse(status: int, headers: Option<Headers>, chunks: seq<Bytes>): seq<Call> {
    [WriteHeader(status, headers)] + ChunkCalls(chunks)
  }

  /** Both messages a buffered writer may send decode to the same response. */
  lemma BufferedMessagesDecode(c: Codec, status: int, headers: Headers, body: Bytes)
    requires c.Inverse()
    ensures Decoded(c, BinaryMessage(c, status, headers, body)) ==
            Some(Response(status, Sanitized(headers, status), body))
    ensures Decoded(c, JsonMessage(c, status, headers, body)) ==
            Some(Response(status, Sanitized(headers, status), body))
  {
  }

  lemma {:induction false} BufferedCollects(env: Env, status: int, headers: Option<Headers>, chunks: seq<Bytes>)
    ensures BufferedRun(env, NEW_BUFFERED, WholeResponse(status, headers, chunks)) ==
            Buffered(false, if status > 0 then status else 0,
                     if headers.Some? then CloneHeaderMap(headers.value) else map[], Body(chunks), [])
  {
    var calls := WholeResponse(status, headers, chunks);
    if chunks == [] {
      assert calls[..0] == [];
      assert calls == [WriteHeader(status, headers)];
    } else {
      var rest, last := chunks[..|chunks| - 1], chunks[|chunks| - 1];
      BufferedCollects(env, status, headers, rest);
      assert calls[..|calls| - 1] == WholeResponse(status, headers, rest);
      FlattenSnoc(rest, last);
      assert chunks == rest + [last];
    }
  }

  /** Every message the buffered writer commits, failed or not, means the collected
      response. */
  lemma BufferedDecodes(env: Env, status: int, headers: Option<Headers>, chunks: seq<Bytes>)
    requires env.codec.Inverse()
    ensures var log := BufferedRun(env, NEW_BUFFERED, WholeResponse(status, headers, chunks) + [Close(None)]).log;
            var st := if status > 0 then status else 200;
            && log != []
            && forall k | 0 <= k < |log| ::
                 Decoded(env.codec, log[k].message) == Some(Response(st, SanitizedClone(headers, st), Body(chunks)))
  {
    var calls := WholeResponse(status, headers, chunks);
    assert (calls + [Close(None)])[..|calls|] == calls;
    BufferedCollects(env, status, headers, chunks);
    var st := if status > 0 then status else 200;
    var h := if headers.Some? then CloneHeaderMap(headers.value) else map[];
    CloneIsIdempotent(if headers.Some? then headers.value else map[]);
    BufferedMessagesDecode(env.codec, st, h, Body(chunks));
  }

  lemma {:induction false} StreamingCollects(env: Env, status: int, headers: Option<Headers>, chunks: seq<Bytes>)
    ensures var s := StreamingRun(env, NEW_STREAMING, WholeResponse(status, headers, chunks));
            var st := if status == 0 then 200 else status;
            !s.closed && Reassembled(s.log) == Some(Response(st, SanitizedClone(headers, st), Body(chunks)))
  {
    var calls := WholeResponse(status, headers, chunks);
    if chunks == [] {
      assert calls[..0] == [];
      assert calls == [WriteHeader(status, headers)];
    } else {
      var rest, last := chunks[..|chunks| - 1], chunks[|chunks| - 1];
      StreamingCollects(env, status, headers, rest);
      assert calls[..|calls| - 1] == WholeResponse(status, headers, rest);
      FlattenSnoc(rest, last);
      assert chunks == rest + [last];
      var before := StreamingRun(env, NEW_STREAMING, WholeResponse(status, headers, rest)).log;
      assert Body(rest) + [] == Body(rest);
      assert (before + [Attempt(Chunk(last), env.succeeds(|before|))])[..|before|] == before;
    }
  }

  /** So each of its messages means the status, the headers that are to be sent and the
      whole body. */
  lemma BufferedMeaning(env: Env, status: int, headers: Option<Headers>, chunks: seq<Bytes>, log: Log,
                        sent: Response)
    requires env.codec.Inverse()
    requires log == BufferedRun(env, NEW_BUFFERED, WholeResponse(status, headers, chunks) + [Close(None)]).log
    requires sent.status == (if status > 0 then status else 200) && sent.body == Body(chunks)
    requires Filtered(headers, sent.status, sent.headers)
    ensures log != [] && forall k | 0 <= k < |log| :: Decoded(env.codec, log[k].message) == Some(sent)
  {
    BufferedDecodes(env, status, headers, chunks);
    SentHeaders(headers, sent.status);
    FilteredOnce(headers, sent.status, sent.headers, SanitizedClone(headers, sent.status));
  }

  /** And so do the streamed messages, taken together. */
  lemma StreamingReassembles(env: Env, status: int, headers: Option<Headers>, chunks: seq<Bytes>, log: Log,
                             sent: Response)
    requires log == StreamingRun(env, NEW_STREAMING, WholeResponse(status, headers, chunks)).log
    requires sent.status == (if status == 0 then 200 else status) && sent.body == Body(chunks)
    requires Filtered(headers, sent.status, sent.headers)
    ensures Reassembled(log) == Some(sent)
  {
    StreamingCollects(env, status, headers, chunks);
    SentHeaders(headers, sent.status);
    FilteredOnce(headers, sent.status, sent.headers, SanitizedClone(headers, sent.status));
  }

  lemma FilteredOnce(given: Option<Headers>, status: int, a: Option<Headers>, b: Option<Headers>)
    requires Filtered(given, status, a) && Filtered(given, status, b)
    ensures a == b
  {
    if given.Some? && a.Some? && b.Some? {
      assert forall k :: k in a.value <==> k in b.value;
      assert forall k | k in a.value :: a.value[k] == b.value[k];
      assert a.value == b.value;
    }
  }

  /** The main agreement: for one header, any chunks and a close, what the streaming
      messages reassemble to and what the buffered message decodes to are the same
      response, exactly when the status is not negative. */
  lemma WritersAgree(env: Env, status: int, headers: Option<Headers>, chunks: seq<Bytes>)
    requires env.codec.Inverse()
    ensures var calls := WholeResponse(status, headers, chunks);
            var streamed := StreamingRun(env, NEW_STREAMING, calls + [Close(None)]).log;
            var buffered := BufferedRun(env, NEW_BUFFERED, calls + [Close(None)]).log;
            && streamed != [] && streamed[|streamed| - 1].message == End
            && buffered != []
            && (Reassembled(streamed[..|streamed| - 1]) == Decoded(env.codec, buffered[|buffered| - 1].message)
                <==> status >= 0)
  {
    var calls := WholeResponse(status, headers, chunks);
    assert (calls + [Close(None)])[..|calls|] == calls;
    StreamingCollects(env, status, headers, chunks);
    BufferedDecodes(env, status, headers, chunks);
    var before := StreamingRun(env, NEW_STREAMING, calls).log;
    assert (before + [Attempt(End, env.succeeds(|before|))])[..|before|] == before;
  }

  // ----- Repeated and late calls -----

  /** A later header call replaces what it says: the last positive status counts, the
      last headers given, and all the data. */
  lemma {:induction false} LastHeaderCounts(env: Env, calls: seq<Call>, i: nat)
    requires i < |calls| && calls[i].WriteHeader? && forall k | 0 <= k < |calls| :: !calls[k].Close?
    ensures calls[i].status > 0 && (forall k | i < k < |calls| :: calls[k].WriteHeader? ==> calls[k].status <= 0) ==>
              BufferedRun(env, NEW_BUFFERED, calls).status == calls[i].status
    ensures calls[i].headers.Some? && (forall k | i < k < |calls| :: calls[k].WriteHeader? ==> calls[k].headers == None)
            ==> BufferedRun(env, NEW_BUFFERED, calls).headers == CloneHeaderMap(calls[i].headers.value)
  {
    var before := calls[..|calls| - 1];
    StaysOpen(env, before);
    if i < |before| {
      LastHeaderCounts(env, before, i);
    }
  }

  lemma {:induction false} StaysOpen(env: Env, calls: seq<Call>)
    requires forall k | 0 <= k < |calls| :: !calls[k].Close?
    ensures !BufferedRun(env, NEW_BUFFERED, calls).closed && !StreamingRun(env, NEW_STREAMING, calls).closed
  {
    if calls != [] {
      StaysOpen(env, calls[..|calls| - 1]);
    }
  }

  /** Nothing that comes after the close has any effect. */
  lemma {:induction false} LateCallsIgnored(env: Env, calls: seq<Call>, late: seq<Call>)
    requires calls != [] && calls[|calls| - 1].Close?
    ensures BufferedRun(env, NEW_BUFFERED, calls + late) == BufferedRun(env, NEW_BUFFERED, calls)
    ensures StreamingRun(env, NEW_STREAMING, calls + late) == StreamingRun(env, NEW_STREAMING, calls)
  {
    if late == [] {
      assert calls + late == calls;
    } else {
      var fewer := late[..|late| - 1];
      LateCallsIgnored(env, calls, fewer);
      assert (calls + late)[..|calls + late| - 1] == calls + fewer;
    }
  }

  // ----- Which message is committed -----

  /** Bodies of ten kilobytes and more go out as a binary message, unless yamux owns the
      binary frames, and as JSON if that send fails; everything else goes out as JSON. */
  lemma CommitChoice(env: Env, status: int, headers: Option<Headers>, chunks: seq<Bytes>, log: Log)
    requires log == BufferedRun(env, NEW_BUFFERED, WholeResponse(status, headers, chunks) + [Close(None)]).log
    ensures log != [] && (log[0].message.Binary? <==> |Body(chunks)| >= 10240 && !env.yamuxActive)
    ensures |log| == if log[0].message.Binary? && !env.succeeds(0) then 2 else 1
    ensures log[|log| - 1].ok == env.succeeds(|log| - 1)
  {
    var calls := WholeResponse(status, headers, chunks);
    assert (calls + [Close(None)])[..|calls|] == calls;
    BufferedCollects(env, status, headers, chunks);
  }

  /** A body is compressed, if it can be, when it has at least a kilobyte and a text-like
      type that is no archive, image, video or audio. */
  lemma WorthCompressing(contentType: string, size: nat)
    ensures ShouldCompress(contentType, size) <==> Compressible(contentType, size)
  {
  }

  /** As binary it must also have become smaller. */
  lemma EncodingsUsed(c: Codec, status: int, headers: Headers, body: Bytes, worth: bool)
    requires worth == Compressible(ContentType(headers), |body|)
    ensures BinaryMessage(c, status, headers, body).encoding ==
            if worth && c.gzip(body).Some? && |c.gzip(body).value| < |body| then "binary+gzip" else "binary"
    ensures JsonMessage(c, status, headers, body).encoding ==
            if body == [] then "" else if worth && c.gzip(body).Some? then "gzip" else "base64"
  {
    WorthCompressing(ContentType(headers), |body|);
  }

  predicate Compressible(contentType: string, size: nat) {
    && 1024 <= size
    && (forall kind | kind in {"gzip", "compress", "zip", "image/", "video/", "audio/"} :: !Contains(contentType, kind))
    && exists kind | kind in {"text/", "json", "javascript", "xml", "html", "yaml"} :: Contains(contentType, kind)
  }

  // ----- The writers as objects -----

  class BufferedWriter {
    const env: Env
    var closed: bool
    var status: int
    var headers: Headers
    var buffer: Bytes
    /** What was handed to the sender for this request. */
    var log: Log

    constructor (env: Env)
      ensures this.env == env && View() == NEW_BUFFERED
    {
      this.env := env;
      closed, status, headers, buffer, log := false, 0, map[], [], [];
    }

    ghost function View(): Buffered
      reads this
    {
      Buffered(closed, status, headers, buffer, log)
    }

    method Send(m: Message) returns (ok: bool)
      modifies this`log
      ensures log == env.Send(old(log), m) && ok == log[|log| - 1].ok
    {
      log := env.Send(log, m);
      ok := log[|log| - 1].ok;
    }

    method WriteHeader(status: int, headers: Option<Headers>) returns (ok: bool)
      modifies this
      ensures View() == BufferedStep(env, old(View()), Call.WriteHeader(status, headers)) && ok == !old(closed)
    {
      if closed {
        return false;
      }
      if status > 0 {
        this.status := status;
      }
      if headers.Some? {
        this.headers := CloneHeaderMap(headers.value);
      }
      return true;
    }

    method WriteChunk(data: Bytes) returns (ok: bool)
      modifies this
      ensures View() == BufferedStep(env, old(View()), Call.WriteChunk(data))
      ensures ok == (data == [] || !old(closed))
    {
      if |data| == 0 {
        assert buffer + data == buffer;
        return true;
      }
      if closed {
        return false;
      }
      buffer := buffer + data;
      return true;
    }

    /** Commits to an error or to a response; closing twice does nothing. */
    method CloseWithError(error: Option<string>)
      modifies this
      ensures View() == BufferedStep(env, old(View()), Close(error))
    {
      if closed {
        return;
      }
      closed := true;
      var ok;
      if error.Some? {
        ok := Send(ProxyError(error.value));
        return;
      }
      var st := if status == 0 then 200 else status;
      var h := CloneHeaderMap(headers);
      if |buffer| >= BINARY_THRESHOLD && !env.yamuxActive {
        ok := SendBinary(st, h);
        if ok {
          return;
        }
      }
      ok := SendJson(st, h);
    }

    /** The buffered body as it is, or compressed where that makes it smaller. */
    method SendBinary(st: int, h: Headers) returns (ok: bool)
      modifies this`log
      ensures log == env.Send(old(log), BinaryMessage(env.codec, st, h, buffer)) && ok == log[|log| - 1].ok
    {
      var body, encoding := buffer, "binary";
      if ShouldCompress(ContentType(h), |buffer|) {
        var compressed := env.codec.gzip(buffer);
        if compressed.Some? && |compressed.value| < |buffer| {
          body, encoding := compressed.value, "binary+gzip";
        }
      }
      ok := Send(Binary(st, Sanitized(h, st), body, encoding));
    }

    method SendJson(st: int, h: Headers) returns (ok: bool)
      modifies this`log
      ensures log == env.Send(old(log), JsonMessage(env.codec, st, h, buffer)) && ok == log[|log| - 1].ok
    {
      var body, encoding := "", "";
      if |buffer| > 0 {
        body, encoding := env.codec.b64(buffer), "base64";
        if ShouldCompress(ContentType(h), |buffer|) {
          var compressed := env.codec.gzip(buffer);
          if compressed.Some? {
            body, encoding := env.codec.b64(compressed.value), "gzip";
          }
        }
      }
      ok := Send(Json(st, Sanitized(h, st), body, encoding));
    }

    method EnsureClosed()
      modifies this
      ensures View() == BufferedStep(env, old(View()), Close(None))
    {
      if !closed {
        CloseWithError(None);
      }
    }
  }

  class StreamingWriter {
    const env: Env
    var closed: bool
    var headerSent: bool
    var log: Log

    constructor (env: Env)
      ensures this.env == env && View() == NEW_STREAMING
    {
      this.env := env;
      closed, headerSent, log := false, false, [];
    }

    ghost function View(): Streaming
      reads this
    {
      Streaming(closed, headerSent, log)
    }

    method Send(m: Message) returns (ok: bool)
      modifies this`log
      ensures log == env.Send(old(log), m) && ok == log[|log| - 1].ok
    {
      log := env.Send(log, m);
      ok := log[|log| - 1].ok;
    }

    /** Succeeds exactly when the writer is open and the header could be sent. */
    method WriteHeader(status: int, headers: Option<Headers>) returns (ok: bool)
      modifies this
      ensures View() == StreamingStep(env, old(View()), Call.WriteHeader(status, headers))
      ensures ok == (!old(closed) && env.succeeds(old(|log|)))
      ensures headerSent == (old(headerSent) || ok)
    {
      if closed {
        return false;
      }
      var st := if status == 0 then 200 else status;
      ok := Send(Header(st, SanitizedClone(headers, st)));
      if !ok {
        return;
      }
      headerSent := true;
    }

    method WriteChunk(data: Bytes) returns (ok: bool)
      modifies this
      ensures View() == StreamingStep(env, old(View()), Call.WriteChunk(data))
      ensures ok == (data == [] || (!old(closed) && env.succeeds(old(|log|))))
    {
      if |data| == 0 {
        return true;
      }
      if closed {
        return false;
      }
      ok := Send(Chunk(data));
    }

    /** Ends or aborts; closing twice does nothing. */
    method CloseWithError(error: Option<string>)
      modifies this
      ensures View() == StreamingStep(env, old(View()), Close(error))
    {
      if closed {
        return;
      }
      closed := true;
      var ok := Send(if error.Some? then Abort(error.value) else End);
    }

    method EnsureClosed()
      modifies this
      ensures View() == StreamingStep(env, old(View()), Close(None))
    {
      if !closed {
        CloseWithError(None);
      }
    }
  }
}
