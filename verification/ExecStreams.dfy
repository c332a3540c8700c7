/** The registry of exec, attach and port-forward streams: each stream has a bounded
    queue of frames from the client, a relay that writes them to Kubernetes, and a
    close channel.  Stream objects are entries of a heap and the registry maps ids to
    them, because starting an id again leaves the older object behind. */
module ExecStreams {
  import opened Wire
  import opened PathSanitizer

  type Id = Bytes

  const QUEUE_CAPACITY := 100

  const TEXT := 1

  const BINARY := 2

  // ----- Translation between the client's and Kubernetes' framing -----

  datatype WsFrame = WsFrame(kind: Byte, payload: Bytes)

  /** From the client: a type byte and the data.  With the channel protocol a text
      frame becomes a binary frame on channel 0, which is stdin. */
  function ToK8s(channels: bool, data: Bytes): WsFrame
    requires data != []
  {
    if channels && data[0] == TEXT then WsFrame(BINARY, [0] + data[1..]) else WsFrame(data[0], data[1..])
  }

  /** From Kubernetes: binary frames on channels 0 to 3 become text without the
      channel byte; everything else keeps its type and bytes. */
  function FromK8s(channels: bool, f: WsFrame): Bytes {
    if channels && f.kind == BINARY && f.payload != [] && f.payload[0] <= 3 then [TEXT] + f.payload[1..]
    else [f.kind] + f.payload
  }

  /** Text typed by the client, reflected on a channel, comes back unchanged exactly
      when the channel is one of the first four. */
  lemma TextReflected(text: Bytes, channel: Byte)
    ensures ToK8s(true, [TEXT] + text) == WsFrame(BINARY, [0] + text)
    ensures FromK8s(true, WsFrame(BINARY, [channel] + text)) == [TEXT] + text <==> channel <= 3
  {
    assert ([TEXT] + text)[1..] == text && ([channel] + text)[1..] == text;
    if channel > 3 {
      assert FromK8s(true, WsFrame(BINARY, [channel] + text))[0] == BINARY;
    }
  }

  /** Everything but text that is typed and output on the first four channels passes as
      it is: the type byte and the bytes behind it. */
  lemma OthersPass(channels: bool, kind: Byte, data: Bytes)
    ensures !channels || kind != 1 ==> ToK8s(channels, [kind] + data) == WsFrame(kind, data)
    ensures !channels || kind != 2 || data == [] || data[0] > 3 ==>
              FromK8s(channels, WsFrame(kind, data)) == [kind] + data
  {
    assert ([kind] + data)[1..] == data;
  }

  /** The protocols that frame channels. */
  lemma ChannelProtocols(proto: string)
    ensures IsK8sChannelSubprotocol(proto) <==>
            proto == "channel.k8s.io" || exists version :: proto == version + ".channel.k8s.io"
  {
    var suffix := ".channel.k8s.io";
    if |suffix| <= |proto| && proto[|proto| - |suffix|..] == suffix {
      assert proto == proto[..|proto| - |suffix|] + suffix;
    }
  }

  /** Without the channel protocol every frame survives the two translations. */
  lemma PlainReflected(data: Bytes)
    requires data != []
    ensures FromK8s(false, ToK8s(false, data)) == data
  {
  }

  // ----- A stream -----

  /** A frame the controller sent for the stream, and whether it entered the queue. */
  datatype Offer = Offer(data: Bytes, kept: bool)

  /** `offered`, `taken` and `written` are history; `closes` counts how often the
      close channel was closed. */
  datatype Stream = Stream(id: Id, channels: bool, connected: bool, cancelled: bool, relaying: bool,
                           queue: seq<Bytes>, closes: nat,
                           offered: seq<Offer>, taken: seq<Bytes>, written: seq<WsFrame>, failed: bool)

  function NewStream(id: Id): Stream {
    Stream(id, false, false, false, false, [], 0, [], [], [], false)
  }

  function Kept(offered: seq<Offer>): seq<Bytes> {
    if offered == [] then []
    else Kept(offered[..|offered| - 1])
         + if offered[|offered| - 1].kept then [offered[|offered| - 1].data] else []
  }

  /** The frames a relay writes for these queue entries; empty entries are skipped. */
  function Translated(channels: bool, entries: seq<Bytes>): seq<WsFrame> {
    if entries == [] then []
    else Translated(channels, entries[..|entries| - 1])
         + if entries[|entries| - 1] == [] then [] else [ToK8s(channels, entries[|entries| - 1])]
  }

  lemma {:induction false} TranslatedAppend(channels: bool, a: seq<Bytes>, b: seq<Bytes>)
    ensures Translated(channels, a + b) == Translated(channels, a) + Translated(channels, b)
  {
    if b == [] {
      assert a + b == a;
    } else {
      var rest := b[..|b| - 1];
      TranslatedAppend(channels, a, rest);
      assert (a + b)[..|a + b| - 1] == a + rest;
    }
  }

  /** Frames leave the queue in the order they entered it, and each non-empty one is
      written once, translated; only a frame whose write failed is taken and missing. */
  ghost predicate StreamOk(s: Stream) {
    && Kept(s.offered) == s.taken + s.queue
    && |s.queue| <= QUEUE_CAPACITY
    && s.closes <= 1
    && (s.closes == 1 ==> s.cancelled)
    && (!s.connected ==> !s.relaying && s.taken == [] && s.written == [] && !s.failed)
    && (s.failed ==> s.cancelled && !s.relaying && s.taken != [] && s.taken[|s.taken| - 1] != [])
    && s.written == Translated(s.channels, if s.failed then s.taken[..|s.taken| - 1] else s.taken)
  }

  /** What Kubernetes received is the translation of the frames offered, in order,
      without the empty ones, those that did not enter the queue, the one whose write
      failed, and those still queued. */
  lemma WrittenIsOffered(s: Stream)
    requires StreamOk(s)
    ensures Translated(s.channels, Kept(s.offered)) ==
            s.written + (if s.failed then [ToK8s(s.channels, s.taken[|s.taken| - 1])] else [])
            + Translated(s.channels, s.queue)
  {
    TranslatedAppend(s.channels, s.taken, s.queue);
  }

  lemma OfferOk(s: Stream, data: Bytes, kept: bool)
    requires StreamOk(s) && (kept ==> |s.queue| < QUEUE_CAPACITY)
    ensures StreamOk(s.(offered := s.offered + [Offer(data, kept)],
                        queue := if kept then s.queue + [data] else s.queue))
  {
    assert (s.offered + [Offer(data, kept)])[..|s.offered|] == s.offered;
    assert (s.taken + s.queue) + [data] == s.taken + (s.queue + [data]);
  }

  lemma TakeOk(s: Stream, ok: bool)
    requires StreamOk(s) && s.relaying && s.queue != []
    ensures var data := s.queue[0];
            var t := s.(queue := s.queue[1..], taken := s.taken + [data]);
            StreamOk(if data == [] then t
                     else if ok then t.(written := s.written + [ToK8s(s.channels, data)])
                     else t.(failed := true, cancelled := true, relaying := false))
  {
    var data := s.queue[0];
    assert (s.taken + [data]) + s.queue[1..] == s.taken + s.queue;
    assert (s.taken + [data])[..|s.taken|] == s.taken;
  }

  lemma ConnectOk(s: Stream, channels: bool)
    requires StreamOk(s) && !s.connected
    ensures StreamOk(s.(connected := true, relaying := true, channels := channels))
  {
  }

  lemma StopOk(s: Stream)
    requires StreamOk(s)
    ensures StreamOk(s.(relaying := false))
  {
  }

  lemma CancelOk(s: Stream)
    requires StreamOk(s)
    ensures StreamOk(s.(cancelled := true))
  {
  }

  function Closed(s: Stream): Stream {
    s.(cancelled := true, closes := s.closes + 1)
  }

  lemma ClosedOk(s: Stream)
    requires StreamOk(s) && s.closes == 0
    ensures StreamOk(Closed(s))
  {
  }

  // ----- The registry -----

  datatype Start = Accepted(handle: nat) | MissingId | BadPath

  function TotalCloses(heap: seq<Stream>): nat {
    if heap == [] then 0 else TotalCloses(heap[..|heap| - 1]) + heap[|heap| - 1].closes
  }

  lemma {:induction false} TotalClosesUpdate(heap: seq<Stream>, h: nat, s: Stream)
    requires h < |heap|
    ensures TotalCloses(heap[h := s]) == TotalCloses(heap) - heap[h].closes + s.closes
  {
    var last := |heap| - 1;
    if h < last {
      TotalClosesUpdate(heap[..last], h, s);
      assert heap[h := s][..last] == heap[..last][h := s];
    } else {
      assert heap[h := s][..last] == heap[..last];
    }
  }

  ghost predicate HeapOk(heap: seq<Stream>) {
    forall h | 0 <= h < |heap| :: StreamOk(heap[h])
  }

  ghost predicate TableOk(heap: seq<Stream>, streams: map<Id, nat>) {
    forall id | id in streams ::
      streams[id] < |heap| && heap[streams[id]].id == id && heap[streams[id]].closes == 0
  }

  lemma CloseKeepsOk(heap: seq<Stream>, streams: map<Id, nat>, id: Id, now: seq<Stream>)
    requires HeapOk(heap) && TableOk(heap, streams) && id in streams
    requires now == heap[streams[id] := Closed(heap[streams[id]])]
    ensures HeapOk(now) && TableOk(now, streams - {id}) && TotalCloses(now) == TotalCloses(heap) + 1
  {
    ClosedOk(heap[streams[id]]);
    TotalClosesUpdate(heap, streams[id], Closed(heap[streams[id]]));
  }

  class WebSocketProxyManager {
    var heap: seq<Stream>
    var streams: map<Id, nat>
    /** The close messages and the errors sent to the controller. */
    var closesSent: seq<Id>
    var errorsSent: seq<Id>

    /** Registered streams are open and distinct; every close channel is closed at
        most once, and one close message was sent for each that was. */
    ghost predicate Valid()
      reads this
    {
      && HeapOk(heap) && TableOk(heap, streams) && |closesSent| == TotalCloses(heap)
    }

    constructor ()
      ensures Valid() && heap == [] && streams == map[] && closesSent == [] && errorsSent == []
    {
      heap, streams, closesSent, errorsSent := [], map[], [], [];
    }

    /** A start message.  A second start of an id takes over the entry; the older
        stream stays open and is reached through the registry no more. */
    method HandleStart(requestId: Id, streamId: Id, path: string) returns (start: Start)
      requires Valid()
      modifies this
      ensures Valid() && closesSent == old(closesSent)
      ensures start.Accepted? <==> streamId != [] && IsValidK8sApiPath(path)
      ensures start.MissingId? <==> streamId == []
      ensures if start.Accepted?
              then && start.handle == |old(heap)|
                   && heap == old(heap) + [Stream(streamId, false, false, false, false, [], 0, [], [], [], false)]
                   && streams == old(streams)[streamId := start.handle] && errorsSent == old(errorsSent)
              else && heap == old(heap) && streams == old(streams)
                   && errorsSent == old(errorsSent) + [requestId]
    {
      if streamId == [] {
        errorsSent := errorsSent + [requestId];
        return MissingId;
      }
      if !IsValidK8sApiPath(path) {
        errorsSent := errorsSent + [requestId];
        return BadPath;
      }
      var handle := |heap|;
      heap := heap + [NewStream(streamId)];
      assert heap[..handle] == old(heap);
      streams := streams[streamId := handle];
      return Accepted(handle);
    }

    /** Updates a stream object; whether it is closed does not change here. */
    method Set(h: nat, s: Stream)
      requires Valid() && h < |heap| && StreamOk(s) && s.id == heap[h].id && s.closes == heap[h].closes
      modifies this`heap
      ensures Valid() && heap == old(heap)[h := s]
    {
      TotalClosesUpdate(heap, h, s);
      heap := heap[h := s];
    }

    /** The dial to Kubernetes succeeded: the relays start. */
    method Connected(h: nat, subprotocol: string)
      requires Valid() && h < |heap| && !heap[h].connected
      modifies this`heap
      ensures Valid()
      ensures heap == old(heap)[h := old(heap)[h].(connected := true, relaying := true,
                                                   channels := IsK8sChannelSubprotocol(subprotocol))]
    {
      var channels := IsK8sChannelSubprotocol(subprotocol);
      ConnectOk(heap[h], channels);
      Set(h, heap[h].(connected := true, relaying := true, channels := channels));
    }

    /** A data message, with its payload decoded if it could be.  The frame goes to
        the registered stream and to no other; it is refused when the queue is full,
        and once the stream is cancelled the runtime may refuse it as well. */
    method HandleData(streamId: Id, data: Option<Bytes>, refuseIfCancelled: bool)
      requires Valid()
      modifies this`heap
      ensures Valid()
      ensures if streamId == [] || data.None? || streamId !in streams then heap == old(heap) else
              var h := streams[streamId];
              var s := old(heap)[h];
              var kept := |s.queue| < 100 && !(s.cancelled && refuseIfCancelled);
              heap == old(heap)[h := s.(offered := s.offered + [Offer(data.value, kept)],
                                        queue := if kept then s.queue + [data.value] else s.queue)]
    {
      if streamId == [] || data.None? {
        return;
      }
      if streamId !in streams {
        return;
      }
      var h := streams[streamId];
      var s := heap[h];
      var kept := false;
      if s.cancelled && refuseIfCancelled {
      } else if |s.queue| < QUEUE_CAPACITY {
        kept := true;
      }
      OfferOk(s, data.value, kept);
      Set(h, s.(offered := s.offered + [Offer(data.value, kept)],
                queue := if kept then s.queue + [data.value] else s.queue));
    }

    /** One turn of the client-to-Kubernetes relay that receives from the queue. */
    method RelayClientToK8s(h: nat, writeSucceeds: bool)
      requires Valid() && h < |heap| && heap[h].relaying && heap[h].queue != []
      modifies this`heap
      ensures Valid() && |heap| == |old(heap)|
      ensures forall g | 0 <= g < |heap| && g != h :: heap[g] == old(heap)[g]
      ensures var s, t := old(heap)[h], heap[h];
              && t.queue == s.queue[1..] && t.taken == s.taken + [s.queue[0]] && t.closes == s.closes
              && t.offered == s.offered
              && t.written == s.written + (if s.queue[0] != [] && writeSucceeds
                                           then [ToK8s(s.channels, s.queue[0])] else [])
              && (t.relaying <==> s.queue[0] == [] || writeSucceeds)
              && t.id == s.id && t.channels == s.channels && t.connected == s.connected
              && t.cancelled == (s.cancelled || !t.relaying)
    {
      var s := heap[h];
      var data := s.queue[0];
      TakeOk(s, writeSucceeds);
      s := s.(queue := s.queue[1..], taken := s.taken + [data]);
      if data != [] {
        var kind, payload := data[0], data[1..];
        if s.channels && kind == TEXT {
          payload := [0] + payload;
          kind := BINARY;
        }
        if writeSucceeds {
          s := s.(written := s.written + [WsFrame(kind, payload)]);
        } else {
          s := s.(failed := true, cancelled := true, relaying := false);
        }
      }
      Set(h, s);
    }

    /** One frame from Kubernetes: translated, framed and sent to the controller; when
        that fails the stream is cancelled. */
    method RelayK8sToClient(h: nat, f: WsFrame, sendSucceeds: bool) returns (sent: Bytes)
      requires Valid() && h < |heap|
      modifies this`heap
      ensures Valid()
      ensures sent == FromK8s(old(heap)[h].channels, f)
      ensures heap == if sendSucceeds then old(heap) else old(heap)[h := old(heap)[h].(cancelled := true)]
    {
      var kind, data := f.kind, f.payload;
      if heap[h].channels && kind == BINARY && |data| >= 1 {
        var channel := data[0];
        if channel == 0 || channel == 1 || channel == 2 || channel == 3 {
          kind, data := TEXT, data[1..];
        }
      }
      sent := [kind] + data;
      if !sendSucceeds {
        CancelOk(heap[h]);
        Set(h, heap[h].(cancelled := true));
      }
    }

    /** The relay notices the cancelled context or the closed channel and ends. */
    method StopRelay(h: nat)
      requires Valid() && h < |heap| && heap[h].cancelled
      modifies this`heap
      ensures Valid() && heap == old(heap)[h := old(heap)[h].(relaying := false)]
    {
      StopOk(heap[h]);
      Set(h, heap[h].(relaying := false));
    }

    /** `closeStream`: an id that is registered is removed, its stream cancelled, its
        channel closed and one close message sent; otherwise nothing happens. */
    method CloseStream(id: Id)
      requires Valid()
      modifies this`heap, this`streams, this`closesSent
      ensures Valid() && streams == old(streams) - {id}
      ensures id in old(streams) ==>
                var s := old(heap)[old(streams)[id]];
                heap == old(heap)[old(streams)[id] := s.(cancelled := true, closes := s.closes + 1)]
      ensures closesSent == if id in old(streams) then old(closesSent) + [id] else old(closesSent)
      ensures id !in old(streams) ==> heap == old(heap)
    {
      if id !in streams {
        return;
      }
      var h := streams[id];
      CloseKeepsOk(heap, streams, id, heap[h := Closed(heap[h])]);
      streams := streams - {id};
      heap := heap[h := Closed(heap[h])];
      closesSent := closesSent + [id];
    }

    method HandleClose(streamId: Id)
      requires Valid()
      modifies this`heap, this`streams, this`closesSent
      ensures Valid()
      ensures if streamId != [] && streamId in old(streams)
              then && streams == old(streams) - {streamId} && closesSent == old(closesSent) + [streamId]
                   && heap == old(heap)[old(streams)[streamId] := Closed(old(heap)[old(streams)[streamId]])]
              else heap == old(heap) && streams == old(streams) && closesSent == old(closesSent)
    {
      if streamId != [] {
        CloseStream(streamId);
      }
    }

    /** The goroutine that served stream `h` ends and closes whatever its id names by
        then.  It leaves every other stream alone exactly when the id was not taken
        over by a later start. */
    method GoroutineExits(h: nat)
      requires Valid() && h < |heap|
      modifies this`heap, this`streams, this`closesSent
      ensures Valid() && |heap| == |old(heap)|
      ensures (forall g | 0 <= g < |heap| && g != h :: heap[g] == old(heap)[g]) <==>
              (old(heap)[h].id in old(streams) ==> old(streams)[old(heap)[h].id] == h)
      ensures streams == old(streams) - {old(heap)[h].id}
    {
      ghost var id := heap[h].id;
      ghost var other := id in streams && streams[id] != h;
      CloseStream(heap[h].id);
      if other {
        var g := old(streams)[id];
        assert heap[g].closes == 1 && old(heap)[g].closes == 0;
      }
    }

    /** Closes every registered stream, each once, and no other. */
    method CloseAll()
      requires Valid()
      modifies this`heap, this`streams, this`closesSent
      ensures Valid() && streams == map[]
      ensures AllClosed(old(heap), heap, old(streams), {})
      ensures |closesSent| == |old(closesSent)| + |old(streams)|
    {
      ghost var was, before, total := heap, streams, |closesSent| + |streams|;
      var ids := streams.Keys;
      assert |ids| == |streams|;
      while ids != {}
        invariant Valid() && ids == streams.Keys
        invariant forall id | id in streams :: id in before && streams[id] == before[id]
        invariant AllClosed(was, heap, before, ids)
        invariant |closesSent| + |ids| == total
      {
        var id :| id in ids;
        ghost var now := heap;
        CloseStream(id);
        assert AllClosed(was, heap, before, ids - {id}) by {
          CloseOneMore(was, now, before, ids, id, heap);
        }
        ids := ids - {id};
      }
    }
  }

  /** The streams of `was` registered under an id no longer `left` have been closed
      once, the others are as they were. */
  ghost predicate AllClosed(was: seq<Stream>, now: seq<Stream>, streams: map<Id, nat>, left: set<Id>) {
    && |now| == |was|
    && forall h | 0 <= h < |was| ::
         now[h] == if was[h].id in streams && streams[was[h].id] == h && was[h].id !in left
                   then Closed(was[h]) else was[h]
  }

  lemma CloseOneMore(was: seq<Stream>, now: seq<Stream>, streams: map<Id, nat>, left: set<Id>, id: Id,
                     next: seq<Stream>)
    requires AllClosed(was, now, streams, left) && TableOk(was, streams) && id in left && id in streams
    requires next == now[streams[id] := Closed(now[streams[id]])]
    ensures AllClosed(was, next, streams, left - {id})
  {
  }

  /** `channel.k8s.io` or anything that ends in `.channel.k8s.io`. */
  predicate IsK8sChannelSubprotocol(proto: string) {
    var suffix := ".channel.k8s.io";
    proto == "channel.k8s.io" || (|suffix| <= |proto| && proto[|proto| - |suffix|..] == suffix)
  }
}
