/** One accepted tunnel stream: the header is read off, the target dialled, and
    everything behind the header is copied to it. */
module YamuxStream {
  import opened Wire
  import opened StreamHeader

  const COPY_BUFFER := 32 * 1024

  const BLANK := Header(0, 0, 0, [], [], [])

  /** `io.Copy`: stops at end of file or at the first write that does not fit. */
  method Copy(src: ByteStream, dst: ByteSink) returns (ok: bool)
    modifies src, dst
    ensures dst.data == old(dst.data) + Kept(old(src.Rest()), old(dst.room))
    ensures ok == (|old(src.Rest())| <= old(dst.room))
  {
    ghost var start, all, room := dst.data, src.Rest(), dst.room;
    while true
      invariant start + Kept(all, room) == dst.data + Kept(src.Rest(), dst.room)
      invariant |all| <= room <==> |src.Rest()| <= dst.room
      decreases src.Steps()
    {
      var got, eof := src.Read(COPY_BUFFER);
      if eof {
        assert Kept([], dst.room) == [] && dst.data + [] == dst.data;
        return true;
      }
      WriteNext(dst.data, got, src.Rest(), dst.room);
      var written := dst.Write(got);
      if !written {
        return false;
      }
    }
  }

  /** The target receives exactly the bytes behind the header: none of the header,
      none lost, none read ahead; and nothing at all when the header does not
      decode or the target cannot be dialled. */
  method HandleStream(stream: ByteStream, dialSucceeds: bool, target: ByteSink)
    returns (header: Option<Header>)
    modifies stream, target
    ensures var d := DecodeFrom(BLANK, old(stream.Rest()));
            && header == (if d.error.None? then Some(d.header) else None)
            && target.data == old(target.data) +
                 (if d.error.None? && dialSucceeds then Kept(d.rest, old(target.room)) else [])
  {
    var h := new TunnelStreamHeader();
    var error := h.Decode(stream);
    if error.Some? {
      return None;
    }
    header := Some(Header(h.version, h.protocol, h.port, h.name, h.namespace, h.tunnelId));
    if !dialSucceeds {
      return;
    }
    var ok := Copy(stream, target);
  }

  /** End to end: the gateway encodes a header and streams a payload, the transport
      cuts the bytes anyhow, and a target with enough room gets the payload. */
  method GatewayToTarget(h: TunnelStreamHeader, payload: Bytes, pieces: seq<Bytes>, target: ByteSink)
    returns (header: Option<Header>)
    requires h.Value().Valid() && h.Value().Fits()
    requires Flatten(pieces) == Encoded(h.Value()) + payload
    requires |payload| <= target.room
    modifies target
    ensures header == Some(h.Value())
    ensures target.data == old(target.data) + payload
  {
    var stream := new ByteStream(pieces);
    HeaderRoundTrip(BLANK, h.Value(), payload);
    header := HandleStream(stream, true, target);
  }
}
