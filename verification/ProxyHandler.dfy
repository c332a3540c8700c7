/** The handler of a proxied request: it copies the upstream response into whichever
    writer the request gets, and leaves through many exits. */
module ProxyHandler {
  import opened Wire
  import opened ResponseWriters

  // ----- What the handler meets -----

  datatype ReadEnd = More | Eof | Broken(reason: string)

  /** One read of the upstream body: data may come together with its end. */
  datatype Read = Read(data: Bytes, end: ReadEnd)

  /** The upstream call failed, or answered with a status, the filtered headers and
      a body; after the listed reads the body is at its end. */
  datatype Upstream = Unreachable(reason: string)
                    | Answer(status: int, headers: Option<Headers>, body: seq<Read>)

  /** `cancelled(k)` is what the k-th turn of the copy loop sees of the context. */
  datatype Request = Request(controlPlaneMissing: bool, kubernetesMissing: bool, kubernetesWebSocket: bool,
                             upstream: Upstream, cancelled: nat -> bool)

  /** Everything the upstream body yields until its end. */
  function Data(body: seq<Read>): Bytes {
    if body == [] then []
    else body[0].data + if body[0].end.More? then Data(body[1..]) else []
  }

  function EndOf(body: seq<Read>): ReadEnd {
    if body == [] then Eof
    else if body[0].end.More? then EndOf(body[1..]) else body[0].end
  }

  datatype Outcome = Completed | Delegated | Failed(reason: string)

  // ----- Either writer -----

  datatype Writer = OfBuffered(b: BufferedWriter) | OfStreaming(s: StreamingWriter)
  {
    ghost function Object(): object {
      match this
      case OfBuffered(w) => w
      case OfStreaming(w) => w
    }

    function GetEnv(): Env {
      match this
      case OfBuffered(w) => w.env
      case OfStreaming(w) => w.env
    }

    /** The writer is what the calls, made on a new one, lead to. */
    ghost predicate After(calls: seq<Call>)
      reads Object()
    {
      match this
      case OfBuffered(w) => w.View() == BufferedRun(w.env, NEW_BUFFERED, calls)
      case OfStreaming(w) => w.View() == StreamingRun(w.env, NEW_STREAMING, calls)
    }

    ghost predicate Open()
      reads Object()
    {
      match this
      case OfBuffered(w) => !w.closed
      case OfStreaming(w) => !w.closed
    }

    /** How many sends a streaming writer made, and whether all but the last `n` of
        them succeeded. */
    ghost predicate Sent(count: nat, n: nat)
      reads Object()
    {
      match this
      case OfBuffered(_) => true
      case OfStreaming(w) => |w.log| == count && forall k | 0 <= k < count - n :: w.log[k].ok
    }

    /** Fails exactly when it has to send and the send fails. */
    method WriteHeader(status: int, headers: Option<Headers>, ghost calls: seq<Call>) returns (ok: bool)
      requires After(calls) && Open() && Sent(0, 0)
      modifies Object()
      ensures After(calls + [Call.WriteHeader(status, headers)]) && Open()
      ensures ok == SendWorks(GetEnv(), OfStreaming?, 0) && Sent(1, if ok then 0 else 1)
    {
      RunOneMore(GetEnv(), calls, Call.WriteHeader(status, headers));
      match this {
        case OfBuffered(w) => ok := w.WriteHeader(status, headers);
        case OfStreaming(w) => ok := w.WriteHeader(status, headers);
      }
    }

    method WriteChunk(data: Bytes, ghost count: nat, ghost calls: seq<Call>) returns (ok: bool)
      requires After(calls) && Open() && Sent(count, 0) && data != []
      modifies Object()
      ensures After(calls + [Call.WriteChunk(data)]) && Open()
      ensures ok == SendWorks(GetEnv(), OfStreaming?, count) && Sent(count + 1, if ok then 0 else 1)
    {
      RunOneMore(GetEnv(), calls, Call.WriteChunk(data));
      match this {
        case OfBuffered(w) => ok := w.WriteChunk(data);
        case OfStreaming(w) => ok := w.WriteChunk(data);
      }
    }

    method CloseWithError(error: Option<string>, ghost count: nat, ghost n: nat, ghost calls: seq<Call>)
      requires After(calls) && Open() && Sent(count, n)
      modifies Object()
      ensures After(calls + [Close(error)]) && Sent(count + 1, n + 1)
    {
      RunOneMore(GetEnv(), calls, Close(error));
      match this {
        case OfBuffered(w) => w.CloseWithError(error);
        case OfStreaming(w) => w.CloseWithError(error);
      }
    }
  }

  lemma RunOneMore(env: Env, calls: seq<Call>, call: Call)
    ensures BufferedRun(env, NEW_BUFFERED, calls + [call]) ==
            BufferedStep(env, BufferedRun(env, NEW_BUFFERED, calls), call)
    ensures StreamingRun(env, NEW_STREAMING, calls + [call]) ==
            StreamingStep(env, StreamingRun(env, NEW_STREAMING, calls), call)
  {
    assert (calls + [call])[..|calls|] == calls;
  }

  // ----- Where the handler leaves -----

  /** A buffered write never fails; the k-th send of a streaming one may. */
  predicate SendWorks(env: Env, streaming: bool, k: nat) {
    !streaming || env.succeeds(k)
  }

  /** The i-th read of the body; at its end a read yields nothing. */
  function ReadAt(body: seq<Read>, i: nat): Read {
    if i < |body| then body[i] else Read([], Eof)
  }

  /** What the first `n` reads give to write: an empty read writes nothing. */
  function Chunks(body: seq<Read>, n: nat): seq<Bytes> {
    if n == 0 then []
    else Chunks(body, n - 1) + if ReadAt(body, n - 1).data == [] then [] else [ReadAt(body, n - 1).data]
  }

  predicate PastHeader(r: Request) {
    !r.controlPlaneMissing && !r.kubernetesMissing && !r.kubernetesWebSocket && r.upstream.Answer?
  }

  /** The send that a chunk of turn `i` would be: the header is number 0. */
  function SendNumber(r: Request, i: nat): nat
    requires r.upstream.Answer?
  {
    1 + |Chunks(r.upstream.body, i)|
  }

  /** The chunk of turn `i`, if there is one, can be sent. */
  predicate ChunkWorks(r: Request, env: Env, streaming: bool, i: nat)
    requires r.upstream.Answer?
  {
    ReadAt(r.upstream.body, i).data == [] || SendWorks(env, streaming, SendNumber(r, i))
  }

  /** The copy loop goes on after turn `i`. */
  predicate GoesOn(r: Request, env: Env, streaming: bool, i: nat)
    requires r.upstream.Answer?
  {
    !r.cancelled(i) && ChunkWorks(r, env, streaming, i) && ReadAt(r.upstream.body, i).end.More?
  }

  /** Turn `i` is the one that ends the loop. */
  ghost predicate LeavesAt(r: Request, env: Env, streaming: bool, i: nat)
    requires r.upstream.Answer?
  {
    !GoesOn(r, env, streaming, i) && forall j | 0 <= j < i :: GoesOn(r, env, streaming, j)
  }

  /** How: a cancellation is seen before the read, a failed send before its end. */
  function OutcomeAt(r: Request, env: Env, streaming: bool, i: nat): Outcome
    requires r.upstream.Answer?
  {
    if r.cancelled(i) then Failed("context done")
    else if !ChunkWorks(r, env, streaming, i) then Failed("send failed")
    else match ReadAt(r.upstream.body, i).end
         case Broken(reason) => Failed(reason)
         case _ => Completed
  }

  function ChunksUntil(r: Request, i: nat): seq<Bytes>
    requires r.upstream.Answer?
  {
    Chunks(r.upstream.body, if r.cancelled(i) then i else i + 1)
  }

  function ClosingError(outcome: Outcome): Option<string> {
    if outcome.Failed? then Some(outcome.reason) else None
  }

  /** The exit taken, and the calls made until then: the first of the early exits that
      applies; past the header the one of the turn that ends the loop, after the header
      and the chunks of the turns so far.  The close is the last call and the only one. */
  ghost predicate Takes(r: Request, env: Env, streaming: bool, outcome: Outcome, calls: seq<Call>) {
    if r.controlPlaneMissing then
      outcome == Failed("control plane client unavailable") && calls == [Close(ClosingError(outcome))]
    else if r.kubernetesMissing then
      outcome == Failed("kubernetes client not initialized") && calls == [Close(ClosingError(outcome))]
    else if r.kubernetesWebSocket then
      outcome == Delegated && calls == [Close(None)]
    else match r.upstream
      case Unreachable(reason) => outcome == Failed(reason) && calls == [Close(Some(reason))]
      case Answer(status, headers, _) =>
        if !SendWorks(env, streaming, 0)
        then outcome == Failed("send failed")
             && calls == WholeResponse(status, headers, []) + [Close(ClosingError(outcome))]
        else exists i :: LeavesAt(r, env, streaming, i) && outcome == OutcomeAt(r, env, streaming, i)
                         && calls == WholeResponse(status, headers, ChunksUntil(r, i)) + [Close(ClosingError(outcome))]
  }

  /** The loop ends at one turn only, so outcome and calls are determined. */
  lemma LeavesOnce(r: Request, env: Env, streaming: bool, i: nat, j: nat)
    requires r.upstream.Answer? && LeavesAt(r, env, streaming, i) && LeavesAt(r, env, streaming, j)
    ensures i == j
  {
  }

  lemma TakesOnce(r: Request, env: Env, streaming: bool, o: Outcome, p: Outcome, calls: seq<Call>, others: seq<Call>)
    requires Takes(r, env, streaming, o, calls) && Takes(r, env, streaming, p, others)
    ensures o == p && calls == others
  {
    if PastHeader(r) && SendWorks(env, streaming, 0) {
      forall i, j | LeavesAt(r, env, streaming, i) && LeavesAt(r, env, streaming, j)
        ensures i == j
      {
        LeavesOnce(r, env, streaming, i, j);
      }
    }
  }

  /** While the reads go on, the chunks so far are a prefix of the whole body. */
  lemma {:induction false} ChunksArePrefix(body: seq<Read>, n: nat)
    requires forall j | 0 <= j < n :: ReadAt(body, j).end.More?
    ensures n <= |body|
    ensures Flatten(Chunks(body, n)) + Data(body[n..]) == Data(body) && EndOf(body[n..]) == EndOf(body)
  {
    if n == 0 {
      assert body[0..] == body && [] + Data(body) == Data(body);
    } else {
      ChunksArePrefix(body, n - 1);
      var before, last := Chunks(body, n - 1), ReadAt(body, n - 1);
      DataFrom(body, n - 1);
      OneMoreChunk(before, last.data);
      Assoc(Flatten(before), last.data, Data(body[n..]));
    }
  }

  lemma DataFrom(body: seq<Read>, n: nat)
    requires n <= |body| && ReadAt(body, n).end.More?
    ensures n < |body| && Data(body[n..]) == body[n].data + Data(body[n + 1..])
    ensures EndOf(body[n..]) == EndOf(body[n + 1..])
  {
    assert body[n..][1..] == body[n + 1..];
  }

  lemma OneMoreChunk(chunks: seq<Bytes>, data: Bytes)
    ensures Flatten(chunks + if data == [] then [] else [data]) == Flatten(chunks) + data
  {
    if data == [] {
      assert chunks + [] == chunks && Flatten(chunks) + [] == Flatten(chunks);
    } else {
      FlattenSnoc(chunks, data);
    }
  }

  /** Whatever ends the loop, the chunks written are a prefix of the upstream body, and
      all of it if it ends in completion, which needs the body to end well. */
  lemma WrittenIsPrefix(r: Request, env: Env, streaming: bool, i: nat)
    requires r.upstream.Answer? && LeavesAt(r, env, streaming, i)
    ensures Flatten(ChunksUntil(r, i)) <= Data(r.upstream.body)
    ensures OutcomeAt(r, env, streaming, i) == Completed ==>
              Flatten(ChunksUntil(r, i)) == Data(r.upstream.body) && EndOf(r.upstream.body) == Eof
  {
    var body := r.upstream.body;
    assert forall j | 0 <= j < i :: GoesOn(r, env, streaming, j) ==> ReadAt(body, j).end.More?;
    ChunksArePrefix(body, i);
    if !r.cancelled(i) {
      OneMoreChunk(Chunks(body, i), ReadAt(body, i).data);
      ReadStarts(body, i);
      PrefixOfSum(Flatten(Chunks(body, i)), ReadAt(body, i).data, Data(body[i..]));
    }
  }

  /** A read is the start of what is left, and all of it unless there is more. */
  lemma ReadStarts(body: seq<Read>, i: nat)
    requires i <= |body|
    ensures ReadAt(body, i).data <= Data(body[i..])
    ensures !ReadAt(body, i).end.More? ==>
              Data(body[i..]) == ReadAt(body, i).data && EndOf(body[i..]) == ReadAt(body, i).end
  {
    if i < |body| {
      assert body[i..][0] == body[i];
    }
  }

  lemma PrefixOfSum(a: Bytes, b: Bytes, c: Bytes)
    requires b <= c
    ensures a + b <= a + c
  {
  }

  // ----- What the exits mean -----

  predicate PastGuards(r: Request) {
    !r.controlPlaneMissing && !r.kubernetesMissing && !r.kubernetesWebSocket
  }

  /** How many chunks the body gives to write until its end. */
  function Writes(body: seq<Read>): nat {
    if body == [] then 0
    else (if body[0].data == [] then 0 else 1) + if body[0].end.More? then Writes(body[1..]) else 0
  }

  /** What the outcome says about the request.  A missing client is a failure, and only a
      Kubernetes WebSocket request is delegated; an unreachable upstream fails with its
      reason.  After an answer: when nothing is cancelled and every send works, the end
      of the body decides; the first send that fails is a failure, if it is needed, and
      so is a cancellation that comes before the end. */
  ghost predicate OutcomeMeans(r: Request, env: Env, streaming: bool, outcome: Outcome) {
    && (r.controlPlaneMissing ==> outcome == Failed("control plane client unavailable"))
    && (!r.controlPlaneMissing && r.kubernetesMissing ==> outcome == Failed("kubernetes client not initialized"))
    && (outcome == Delegated <==> !r.controlPlaneMissing && !r.kubernetesMissing && r.kubernetesWebSocket)
    && (PastGuards(r) && r.upstream.Unreachable? ==> outcome == Failed(r.upstream.reason))
    && (PastGuards(r) && r.upstream.Answer? ==> AnswerMeans(r, env, streaming, r.upstream.body, outcome))
  }

  ghost predicate AnswerMeans(r: Request, env: Env, streaming: bool, body: seq<Read>, outcome: Outcome) {
    && ((forall i :: !r.cancelled(i)) && (streaming ==> forall k :: env.succeeds(k)) ==>
          outcome == match EndOf(body)
                     case Broken(reason) => Failed(reason)
                     case _ => Completed)
    && (streaming && (forall i :: !r.cancelled(i)) ==>
          forall k: nat | k <= Writes(body) :: !env.succeeds(k) ==> outcome == Failed("send failed"))
    && (streaming && !env.succeeds(0) ==> outcome == Failed("send failed"))
    && ((streaming ==> forall k :: env.succeeds(k)) ==>
          forall i: nat | i <= |body| ::
            r.cancelled(i) && CopiesUntil(r, body, i) ==> outcome == Failed("context done"))
  }

  /** Nothing is cancelled before turn `i`, and the reads before it do not end the body. */
  ghost predicate CopiesUntil(r: Request, body: seq<Read>, i: nat) {
    i <= |body| && forall j | 0 <= j < i :: !r.cancelled(j) && body[j].end.More?
  }

  lemma {:induction false} WritesAreChunks(body: seq<Read>, n: nat)
    requires forall j | 0 <= j < n :: ReadAt(body, j).end.More?
    ensures n <= |body| && Writes(body) == |Chunks(body, n)| + Writes(body[n..])
  {
    if n == 0 {
      assert body[0..] == body;
    } else {
      WritesAreChunks(body, n - 1);
      assert ReadAt(body, n - 1).end.More? && n - 1 < |body|;
      assert body[n - 1..][1..] == body[n..];
    }
  }

  lemma {:induction false} ChunksWereSent(r: Request, env: Env, n: nat, k: nat)
    requires r.upstream.Answer? && 1 <= k <= |Chunks(r.upstream.body, n)|
    requires forall j | 0 <= j < n :: ChunkWorks(r, env, true, j)
    ensures env.succeeds(k)
  {
    assert ChunkWorks(r, env, true, n - 1);
    if k <= |Chunks(r.upstream.body, n - 1)| {
      ChunksWereSent(r, env, n - 1, k);
    }
  }

  /** A loop that no cancellation or failed send has ended has sent all there is. */
  lemma AllWritesWorked(r: Request, env: Env, i: nat, k: nat)
    requires r.upstream.Answer? && LeavesAt(r, env, true, i) && !r.cancelled(i) && ChunkWorks(r, env, true, i)
    requires 1 <= k <= Writes(r.upstream.body)
    ensures env.succeeds(k)
  {
    var body := r.upstream.body;
    forall j | 0 <= j < i
      ensures ReadAt(body, j).end.More? && ChunkWorks(r, env, true, j)
    {
      assert GoesOn(r, env, true, j);
    }
    WritesAreChunks(body, i);
    assert i < |body| ==> body[i..][0] == body[i];
    assert |Chunks(body, i + 1)| == Writes(body);
    ChunksWereSent(r, env, i + 1, k);
  }

  lemma ExitMeans(r: Request, env: Env, streaming: bool, i: nat, outcome: Outcome, body: seq<Read>)
    requires PastHeader(r) && SendWorks(env, streaming, 0) && LeavesAt(r, env, streaming, i)
    requires outcome == OutcomeAt(r, env, streaming, i) && body == r.upstream.body
    ensures AnswerMeans(r, env, streaming, body, outcome)
  {
    forall j | 0 <= j < i
      ensures ReadAt(body, j).end.More?
    {
      assert GoesOn(r, env, streaming, j);
    }
    ChunksArePrefix(body, i);
    ReadStarts(body, i);
    if streaming {
      forall k: nat | 1 <= k <= Writes(body) && !r.cancelled(i) && ChunkWorks(r, env, true, i)
        ensures env.succeeds(k)
      {
        AllWritesWorked(r, env, i, k);
      }
    }
    forall j: nat | j <= |body| && r.cancelled(j) && CopiesUntil(r, body, j)
                    && (streaming ==> forall k :: env.succeeds(k))
      ensures j == i
    {
      assert forall m | 0 <= m < j :: ReadAt(body, m) == body[m] && GoesOn(r, env, streaming, m);
      LeavesOnce(r, env, streaming, i, j);
    }
  }

  lemma ExitsMean(r: Request, env: Env, streaming: bool, outcome: Outcome, calls: seq<Call>)
    requires Takes(r, env, streaming, outcome, calls)
    ensures OutcomeMeans(r, env, streaming, outcome)
  {
    if PastHeader(r) && SendWorks(env, streaming, 0) {
      var i :| LeavesAt(r, env, streaming, i) && outcome == OutcomeAt(r, env, streaming, i);
      ExitMeans(r, env, streaming, i, outcome, r.upstream.body);
    }
  }

  // ----- The handler -----

  /** The handler has left. */
  ghost predicate Ended(r: Request, w: Writer, outcome: Outcome, calls: seq<Call>)
    reads w.Object()
  {
    && w.After(calls) && Takes(r, w.GetEnv(), w.OfStreaming?, outcome, calls)
    && (w.OfStreaming? ==> w.Sent(|w.s.log|, if outcome.Failed? then 2 else 1))
  }

  /** All exits of the handler, in the order of the source. */
  method HandleProxyRequest(r: Request, w: Writer) returns (outcome: Outcome, ghost calls: seq<Call>)
    requires w.After([]) && w.Open() && w.Sent(0, 0)
    modifies w.Object()
    ensures Ended(r, w, outcome, calls)
  {
    if r.controlPlaneMissing {
      outcome, calls := LeaveEarly(w, Failed("control plane client unavailable"));
      return;
    }
    if r.kubernetesMissing {
      outcome, calls := LeaveEarly(w, Failed("kubernetes client not initialized"));
      return;
    }
    if r.kubernetesWebSocket {
      outcome, calls := LeaveEarly(w, Delegated);
      return;
    }
    if r.upstream.Unreachable? {
      outcome, calls := LeaveEarly(w, Failed(r.upstream.reason));
      return;
    }
    var ok := w.WriteHeader(r.upstream.status, r.upstream.headers, []);
    calls := WholeResponse(r.upstream.status, r.upstream.headers, []);
    assert [] + [WriteHeader(r.upstream.status, r.upstream.headers)] == calls;
    if !ok {
      w.CloseWithError(Some("send failed"), 1, 1, calls);
      return Failed("send failed"), calls + [Close(Some("send failed"))];
    }
    outcome, calls := CopyBody(r, w);
  }

  /** Before anything was written. */
  method LeaveEarly(w: Writer, o: Outcome) returns (outcome: Outcome, ghost calls: seq<Call>)
    requires w.After([]) && w.Open() && w.Sent(0, 0)
    modifies w.Object()
    ensures outcome == o && calls == [Close(ClosingError(o))] && w.After(calls) && w.Sent(1, 1)
  {
    w.CloseWithError(ClosingError(o), 0, 0, []);
    assert [] + [Close(ClosingError(o))] == [Close(ClosingError(o))];
    return o, [Close(ClosingError(o))];
  }

  /** The loop has reached turn `i`. */
  ghost predicate Copying(r: Request, w: Writer, i: nat)
    requires r.upstream.Answer?
    reads w.Object()
  {
    && (forall j | 0 <= j < i :: GoesOn(r, w.GetEnv(), w.OfStreaming?, j))
    && w.After(WholeResponse(r.upstream.status, r.upstream.headers, Chunks(r.upstream.body, i)))
    && w.Open() && w.Sent(SendNumber(r, i), 0)
  }

  /** The copy loop. */
  method CopyBody(r: Request, w: Writer) returns (outcome: Outcome, ghost calls: seq<Call>)
    requires PastHeader(r) && SendWorks(w.GetEnv(), w.OfStreaming?, 0) && Copying(r, w, 0)
    modifies w.Object()
    ensures Ended(r, w, outcome, calls)
  {
    var turn, left: Option<Outcome> := 0, None;
    calls := [];
    while left.None?
      invariant left.None? ==> Copying(r, w, turn) && turn <= |r.upstream.body|
      invariant left.Some? ==> Ended(r, w, left.value, calls)
      decreases left.None?, |r.upstream.body| + 1 - turn
    {
      left, calls := CopyTurn(r, w, turn);
      turn := turn + 1;
    }
    outcome := left.value;
  }

  /** One turn of the copy loop, and the exits in it. */
  method CopyTurn(r: Request, w: Writer, turn: nat) returns (left: Option<Outcome>, ghost calls: seq<Call>)
    requires PastHeader(r) && SendWorks(w.GetEnv(), w.OfStreaming?, 0) && Copying(r, w, turn)
    modifies w.Object()
    ensures left.None? ==> Copying(r, w, turn + 1) && turn < |r.upstream.body|
    ensures left.Some? ==> Ended(r, w, left.value, calls)
  {
    if r.cancelled(turn) {
      calls := Leave(r, w, turn, Failed("context done"), SendNumber(r, turn), 0);
      return Some(Failed("context done")), calls;
    }
    var read := if turn < |r.upstream.body| then r.upstream.body[turn] else Read([], Eof);
    var ok := WriteRead(r, w, turn, read.data);
    if !ok {
      calls := Leave(r, w, turn, Failed("send failed"), SendNumber(r, turn + 1), 1);
      return Some(Failed("send failed")), calls;
    }
    match read.end {
      case More =>
        return None, [];
      case Broken(reason) =>
        calls := Leave(r, w, turn, Failed(reason), SendNumber(r, turn + 1), 0);
        return Some(Failed(reason)), calls;
      case Eof =>
        calls := Leave(r, w, turn, Completed, SendNumber(r, turn + 1), 0);
        return Some(Completed), calls;
    }
  }

  /** The loop ends in this turn. */
  method Leave(r: Request, w: Writer, turn: nat, outcome: Outcome, ghost count: nat, ghost n: nat)
    returns (ghost calls: seq<Call>)
    requires PastHeader(r) && SendWorks(w.GetEnv(), w.OfStreaming?, 0)
    requires LeavesAt(r, w.GetEnv(), w.OfStreaming?, turn)
    requires outcome == OutcomeAt(r, w.GetEnv(), w.OfStreaming?, turn) && n <= if outcome.Failed? then 1 else 0
    requires w.After(WholeResponse(r.upstream.status, r.upstream.headers, ChunksUntil(r, turn)))
    requires w.Open() && w.Sent(count, n)
    modifies w.Object()
    ensures Ended(r, w, outcome, calls)
  {
    ghost var before := WholeResponse(r.upstream.status, r.upstream.headers, ChunksUntil(r, turn));
    w.CloseWithError(ClosingError(outcome), count, n, before);
    calls := before + [Close(ClosingError(outcome))];
  }

  /** Writes what turn `i` has read; a read without data writes nothing. */
  method WriteRead(r: Request, w: Writer, i: nat, data: Bytes) returns (ok: bool)
    requires r.upstream.Answer? && Copying(r, w, i) && data == ReadAt(r.upstream.body, i).data
    modifies w.Object()
    ensures ok == ChunkWorks(r, w.GetEnv(), w.OfStreaming?, i)
    ensures w.After(WholeResponse(r.upstream.status, r.upstream.headers, Chunks(r.upstream.body, i + 1)))
    ensures w.Open() && w.Sent(SendNumber(r, i + 1), if ok then 0 else 1)
  {
    ghost var chunks := Chunks(r.upstream.body, i);
    ghost var calls := WholeResponse(r.upstream.status, r.upstream.headers, chunks);
    if |data| > 0 {
      ok := w.WriteChunk(data, SendNumber(r, i), calls);
      assert ChunkCalls(chunks + [data]) == ChunkCalls(chunks) + [WriteChunk(data)];
      assert calls + [WriteChunk(data)] == WholeResponse(r.upstream.status, r.upstream.headers, chunks + [data]);
    } else {
      ok := true;
      assert chunks + [] == chunks;
    }
  }

  // ----- Dispatching a request -----

  ghost predicate NotClosed(calls: seq<Call>) {
    forall k | 0 <= k < |calls| :: !calls[k].Close?
  }

  /** Without a close call the writer stays open, and the close that follows decides
      the terminal message. */
  lemma {:induction false} OpenUntilClose(env: Env, calls: seq<Call>)
    requires NotClosed(calls)
    ensures !StreamingRun(env, NEW_STREAMING, calls).closed && !BufferedRun(env, NEW_BUFFERED, calls).closed
  {
    if calls != [] {
      OpenUntilClose(env, calls[..|calls| - 1]);
    }
  }

  /** What was written before the close: nothing, or the header and a prefix of the
      upstream body, all of it on completion. */
  ghost predicate WroteBefore(r: Request, outcome: Outcome, before: seq<Call>, chunks: seq<Bytes>) {
    && NotClosed(before)
    && (before == [] || (r.upstream.Answer? && before == WholeResponse(r.upstream.status, r.upstream.headers, chunks)
                         && Flatten(chunks) <= Data(r.upstream.body)))
    && (before == [] <==> !PastHeader(r))
    && (outcome == Completed ==> PastHeader(r) && Flatten(chunks) == Data(r.upstream.body)
                                 && EndOf(r.upstream.body) == Eof)
    && (outcome == Delegated ==> before == [])
  }

  lemma ClosedOnce(r: Request, env: Env, streaming: bool, outcome: Outcome, calls: seq<Call>)
    returns (before: seq<Call>, chunks: seq<Bytes>)
    requires Takes(r, env, streaming, outcome, calls)
    ensures calls == before + [Close(ClosingError(outcome))] && WroteBefore(r, outcome, before, chunks)
  {
    before, chunks := calls[..|calls| - 1], [];
    if PastHeader(r) && SendWorks(env, streaming, 0) {
      var i :| LeavesAt(r, env, streaming, i) && outcome == OutcomeAt(r, env, streaming, i)
               && calls == WholeResponse(r.upstream.status, r.upstream.headers, ChunksUntil(r, i))
                           + [Close(ClosingError(outcome))];
      chunks := ChunksUntil(r, i);
      WrittenIsPrefix(r, env, streaming, i);
    }
  }

  /** What the request costs on the streaming wire: one terminal message, telling the
      outcome, after a header and a prefix of the upstream body, if it got that far.
      All of that was sent but perhaps the last message before an abort; a completed
      response was sent whole. */
  ghost predicate Streamed(r: Request, outcome: Outcome, log: Log) {
    && OneTerminal(log)
    && log[|log| - 1].message == (if outcome.Failed? then Abort(outcome.reason) else End)
    && (forall k | 0 <= k < |log| - (if outcome.Failed? then 2 else 1) :: log[k].ok)
    && (!PastHeader(r) ==> |log| == 1 && outcome != Completed)
    && (PastHeader(r) ==> exists part :: Carries(r, log, part)
                                         && (outcome == Completed ==> part == Data(r.upstream.body)))
  }

  /** The messages before the last are the upstream answer with this part of its body,
      a prefix. */
  ghost predicate Carries(r: Request, log: Log, part: Bytes) {
    && log != [] && r.upstream.Answer? && part <= Data(r.upstream.body)
    && Reassembled(log[..|log| - 1]) ==
       Some(Means(r.upstream, if r.upstream.status == 0 then 200 else r.upstream.status, part))
  }

  /** The same on the buffered path: an error exactly when the handler failed, else
      messages that each decode to the upstream answer. */
  ghost predicate Collected(r: Request, env: Env, outcome: Outcome, log: Log) {
    && OneCommit(log)
    && (if outcome.Failed? then log[0].message == ProxyError(outcome.reason) else !log[0].message.ProxyError?)
    && (outcome == Delegated ==> log[0].message == Json(200, None, "", ""))
    && (outcome == Completed && env.codec.Inverse() ==>
          && r.upstream.Answer?
          && forall k | 0 <= k < |log| ::
               Decoded(env.codec, log[k].message) ==
               Some(Means(r.upstream, if r.upstream.status > 0 then r.upstream.status else 200, Data(r.upstream.body))))
  }

  /** The upstream answer as a client is to get it. */
  function Means(u: Upstream, status: int, body: Bytes): (m: Response)
    requires u.Answer?
    ensures m.status == status && m.body == body && Filtered(u.headers, status, m.headers)
  {
    SentHeaders(u.headers, status);
    Response(status, SanitizedClone(u.headers, status), body)
  }

  lemma StreamedOutcome(r: Request, env: Env, outcome: Outcome, calls: seq<Call>, log: Log)
    requires Takes(r, env, true, outcome, calls) && log == StreamingRun(env, NEW_STREAMING, calls).log
    requires forall k | 0 <= k < |log| - (if outcome.Failed? then 2 else 1) :: log[k].ok
    ensures Streamed(r, outcome, log)
  {
    var before, chunks := ClosedOnce(r, env, true, outcome, calls);
    var e := ClosingError(outcome);
    OpenUntilClose(env, before);
    StreamingTerminal(env, calls);
    RunOneMore(env, before, Close(e));
    var sent := StreamingRun(env, NEW_STREAMING, before).log;
    assert log == env.Send(sent, if e.Some? then Abort(e.value) else End);
    assert log[..|log| - 1] == sent;
    if PastHeader(r) {
      StreamingCollects(env, r.upstream.status, r.upstream.headers, chunks);
      assert Carries(r, log, Flatten(chunks));
    }
  }

  lemma CollectedOutcome(r: Request, env: Env, outcome: Outcome, calls: seq<Call>, log: Log)
    requires Takes(r, env, false, outcome, calls) && log == BufferedRun(env, NEW_BUFFERED, calls).log
    ensures Collected(r, env, outcome, log)
  {
    var before, chunks := ClosedOnce(r, env, false, outcome, calls);
    OpenUntilClose(env, before);
    BufferedCommit(env, before);
    BufferedCommit(env, calls);
    RunOneMore(env, before, Close(ClosingError(outcome)));
    if outcome == Completed && env.codec.Inverse() {
      BufferedDecodes(env, r.upstream.status, r.upstream.headers, chunks);
    }
  }

  /** A request from dispatch to its last message: whatever the upstream, the context
      and the sends do, the outcome is determined, the writer's log is one of the above,
      and the deferred `ensureClosed` adds nothing to it. */
  method Dispatch(r: Request, env: Env, streaming: bool) returns (outcome: Outcome, log: Log)
    ensures streaming ==> Streamed(r, outcome, log)
    ensures !streaming ==> Collected(r, env, outcome, log)
    ensures OutcomeMeans(r, env, streaming, outcome)
    ensures exists calls :: Takes(r, env, streaming, outcome, calls)
  {
    ghost var calls;
    if streaming {
      var w := new StreamingWriter(env);
      outcome, calls := HandleProxyRequest(r, OfStreaming(w));
      StreamedOutcome(r, env, outcome, calls, w.log);
      EndsClosed(r, env, streaming, outcome, calls);
      ExitsMean(r, env, streaming, outcome, calls);
      w.EnsureClosed();
      log := w.log;
    } else {
      var w := new BufferedWriter(env);
      outcome, calls := HandleProxyRequest(r, OfBuffered(w));
      CollectedOutcome(r, env, outcome, calls, w.log);
      EndsClosed(r, env, streaming, outcome, calls);
      ExitsMean(r, env, streaming, outcome, calls);
      w.EnsureClosed();
      log := w.log;
    }
  }

  lemma EndsClosed(r: Request, env: Env, streaming: bool, outcome: Outcome, calls: seq<Call>)
    requires Takes(r, env, streaming, outcome, calls)
    ensures StreamingRun(env, NEW_STREAMING, calls).closed && BufferedRun(env, NEW_BUFFERED, calls).closed
  {
    var before, chunks := ClosedOnce(r, env, streaming, outcome, calls);
    RunOneMore(env, before, Close(ClosingError(outcome)));
  }
}
