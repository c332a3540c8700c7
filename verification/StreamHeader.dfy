/** The routing header the gateway writes at the start of every tunnel stream,
    and the stream handler that strips it and forwards the rest. */
module StreamHeader {
  import opened Wire

  datatype ReadError = Eof | UnexpectedEof

  /** `port` is the 16-bit service port. */
  datatype Header = Header(version: Byte, protocol: Byte, port: nat,
                           name: Bytes, namespace: Bytes, tunnelId: Bytes)
  {
    ghost predicate Valid() {
      port < 0x1_0000
    }

    /** Each string fits its 16-bit length prefix. */
    ghost predicate Fits() {
      |name| < 0x1_0000 && |namespace| < 0x1_0000 && |tunnelId| < 0x1_0000
    }
  }

  // ----- Encoding -----

  /** The prefix holds the length modulo 2^16; when that is zero nothing follows. */
  function EncodedString(s: Bytes): Bytes {
    U16(|s|) + if |s| % 0x1_0000 > 0 then s else []
  }

  function Encoded(h: Header): Bytes {
    EncodedBefore(h, [])
  }

  /** The encoding of `h` with `suffix` right behind it. */
  function EncodedBefore(h: Header, suffix: Bytes): Bytes {
    [h.version] + ([h.protocol] + (U16(h.port) + StringsBefore(h, suffix)))
  }

  function StringsBefore(h: Header, suffix: Bytes): Bytes {
    EncodedString(h.name) + (EncodedString(h.namespace) + (EncodedString(h.tunnelId) + suffix))
  }

  lemma StringsBeforeIsAppend(h: Header, suffix: Bytes)
    ensures StringsBefore(h, []) + suffix == StringsBefore(h, suffix)
  {
    var id, namespace := EncodedString(h.tunnelId) + [], EncodedString(h.namespace);
    Assoc(EncodedString(h.name), namespace + id, suffix);
    Assoc(namespace, id, suffix);
    Assoc(EncodedString(h.tunnelId), [], suffix);
    assert [] + suffix == suffix;
  }

  lemma EncodedBeforeIsAppend(h: Header, suffix: Bytes)
    ensures Encoded(h) + suffix == EncodedBefore(h, suffix)
  {
    var strings := StringsBefore(h, []);
    StringsBeforeIsAppend(h, suffix);
    Assoc([h.version], [h.protocol] + (U16(h.port) + strings), suffix);
    Assoc([h.protocol], U16(h.port) + strings, suffix);
    Assoc(U16(h.port), strings, suffix);
  }

  /** The bytes of a header that fits, one by one: lengths and port in network order. */
  lemma WireLayout(h: Header)
    requires h.Valid() && h.Fits()
    ensures Encoded(h) ==
            [h.version, h.protocol, h.port / 256, h.port % 256]
            + [|h.name| / 256, |h.name| % 256] + h.name
            + [|h.namespace| / 256, |h.namespace| % 256] + h.namespace
            + [|h.tunnelId| / 256, |h.tunnelId| % 256] + h.tunnelId
  {
    StringLayout(h.name);
    StringLayout(h.namespace);
    StringLayout(h.tunnelId);
    assert U16(h.port) == [h.port / 256, h.port % 256];
  }

  lemma StringLayout(s: Bytes)
    requires |s| < 0x1_0000
    ensures EncodedString(s) == [|s| / 256, |s| % 256] + s
  {
  }

  // ----- Decoding from a flat byte sequence -----

  datatype Taken = Got(data: Bytes, rest: Bytes) | Short(error: ReadError)

  /** `io.ReadFull` of `n` bytes. */
  function Take(s: Bytes, n: nat): Taken {
    if n <= |s| then Got(s[..n], s[n..])
    else Short(if s == [] then Eof else UnexpectedEof)
  }

  function TakeString(s: Bytes): Taken {
    match Take(s, 2)
    case Short(e) => Short(e)
    case Got(prefix, s1) =>
      if Read16(prefix) == 0 then Got([], s1) else Take(s1, Read16(prefix))
  }

  /** The header after decoding over `h`, the error if any, and the unread bytes:
      a failed read leaves nothing unread and the later fields untouched. */
  datatype Decoded = Decoded(header: Header, error: Option<ReadError>, rest: Bytes)

  function DecodeFrom(h: Header, s: Bytes): Decoded {
    match Take(s, 1)
    case Short(e) => Decoded(h, Some(e), [])
    case Got(version, s1) =>
    var h1 := h.(version := version[0]);
    match Take(s1, 1)
    case Short(e) => Decoded(h1, Some(e), [])
    case Got(protocol, s2) =>
    var h2 := h1.(protocol := protocol[0]);
    match Take(s2, 2)
    case Short(e) => Decoded(h2, Some(e), [])
    case Got(port, s3) =>
    StringsFrom(h2.(port := Read16(port)), s3)
  }

  function StringsFrom(h: Header, s3: Bytes): Decoded {
    match TakeString(s3)
    case Short(e) => Decoded(h.(name := []), Some(e), [])
    case Got(name, s4) =>
    var h4 := h.(name := name);
    match TakeString(s4)
    case Short(e) => Decoded(h4.(namespace := []), Some(e), [])
    case Got(namespace, s5) =>
    var h5 := h4.(namespace := namespace);
    match TakeString(s5)
    case Short(e) => Decoded(h5.(tunnelId := []), Some(e), [])
    case Got(id, s6) => Decoded(h5.(tunnelId := id), None, s6)
  }

  /** A stream that ends between two reads reports its end, one that ends inside a read
      reports that it was cut. */
  lemma CutInFixedPart(h0: Header, v: Byte, p: Byte, a: Byte)
    ensures DecodeFrom(h0, []).error == Some(Eof) && DecodeFrom(h0, [v]).error == Some(Eof)
    ensures DecodeFrom(h0, [v, p]).error == Some(Eof) && DecodeFrom(h0, [v, p, a]).error == Some(UnexpectedEof)
  {
  }

  lemma CutInStrings(h0: Header, fixed: Bytes, cut: Bytes)
    requires |fixed| == 4
    ensures cut == [] ==> DecodeFrom(h0, fixed + cut).error == Some(Eof)
    ensures |cut| == 1 ==> DecodeFrom(h0, fixed + cut).error == Some(UnexpectedEof)
    ensures |cut| == 2 && Read16(cut) > 0 ==> DecodeFrom(h0, fixed + cut).error == Some(Eof)
    ensures 2 < |cut| < 2 + Read16(cut[..2]) ==> DecodeFrom(h0, fixed + cut).error == Some(UnexpectedEof)
  {
    var s := fixed + cut;
    assert s[1..][1..][2..] == cut;
    assert |cut| == 2 ==> cut[..2] == cut;
  }

  // ----- Round trip, with the exact bound -----

  lemma TakePrefix(a: Bytes, b: Bytes)
    ensures Take(a + b, |a|) == Got(a, b)
  {
    assert (a + b)[..|a|] == a && (a + b)[|a|..] == b;
  }

  lemma StringRoundTrip(s: Bytes, suffix: Bytes)
    requires |s| < 0x1_0000
    ensures TakeString(EncodedString(s) + suffix) == Got(s, suffix)
  {
    var body := if |s| > 0 then s else [];
    assert EncodedString(s) + suffix == U16(|s|) + (body + suffix);
    TakePrefix(U16(|s|), body + suffix);
    Read16OfU16(|s|);
    TakePrefix(s, suffix);
    assert |s| == 0 ==> body + suffix == suffix;
  }

  lemma StringsRoundTrip(h0: Header, h: Header, suffix: Bytes)
    requires h.Fits()
    ensures StringsFrom(h0, StringsBefore(h, suffix)) ==
            Decoded(h0.(name := h.name, namespace := h.namespace, tunnelId := h.tunnelId), None, suffix)
  {
    var s5 := EncodedString(h.tunnelId) + suffix;
    var s4 := EncodedString(h.namespace) + s5;
    StringRoundTrip(h.name, s4);
    StringRoundTrip(h.namespace, s5);
    StringRoundTrip(h.tunnelId, suffix);
  }

  lemma FixedPartRoundTrip(h0: Header, version: Byte, protocol: Byte, port: Bytes, s3: Bytes)
    requires |port| == 2
    ensures DecodeFrom(h0, [version] + ([protocol] + (port + s3))) ==
            StringsFrom(h0.(version := version, protocol := protocol, port := Read16(port)), s3)
  {
    TakePrefix([version], [protocol] + (port + s3));
    TakePrefix([protocol], port + s3);
    TakePrefix(port, s3);
  }

  lemma DecodeEncodedBefore(h0: Header, h: Header, suffix: Bytes)
    requires h.Valid() && h.Fits()
    ensures DecodeFrom(h0, EncodedBefore(h, suffix)) == Decoded(h, None, suffix)
  {
    var h3 := h0.(version := h.version, protocol := h.protocol, port := h.port);
    assert Read16(U16(h.port)) == h.port by {
      Read16OfU16(h.port);
    }
    FixedPartRoundTrip(h0, h.version, h.protocol, U16(h.port), StringsBefore(h, suffix));
    StringsRoundTrip(h3, h, suffix);
  }

  lemma HeaderRoundTrip(h0: Header, h: Header, suffix: Bytes)
    requires h.Valid() && h.Fits()
    ensures DecodeFrom(h0, Encoded(h) + suffix) == Decoded(h, None, suffix)
  {
    EncodedBeforeIsAppend(h, suffix);
    DecodeEncodedBefore(h0, h, suffix);
  }

  lemma StringsFit(h0: Header, s: Bytes)
    ensures StringsFrom(h0, s).error.None? ==> StringsFrom(h0, s).header.Fits()
  {
  }

  lemma DecodedFits(h0: Header, s: Bytes)
    ensures DecodeFrom(h0, s).error.None? ==> DecodeFrom(h0, s).header.Fits()
  {
    if |s| >= 4 {
      var h3 := h0.(version := s[0], protocol := s[1..][0], port := Read16(s[1..][1..][..2]));
      StringsFit(h3, s[1..][1..][2..]);
    }
  }

  /** A header survives the wire, in front of any bytes, exactly when each of its
      strings is at most 65535 bytes long. */
  lemma RoundTripExactlyWhenFits(h0: Header, h: Header, suffix: Bytes)
    requires h.Valid()
    ensures DecodeFrom(h0, Encoded(h) + suffix) == Decoded(h, None, suffix) <==> h.Fits()
  {
    if h.Fits() {
      HeaderRoundTrip(h0, h, suffix);
    } else {
      DecodedFits(h0, Encoded(h) + suffix);
    }
  }

  // ----- Prefix-freedom -----

  lemma TakeMore(s: Bytes, n: nat, more: Bytes)
    requires Take(s, n).Got?
    ensures Take(s + more, n) == Got(Take(s, n).data, Take(s, n).rest + more)
  {
    assert (s + more)[..n] == s[..n] && (s + more)[n..] == s[n..] + more;
  }

  lemma TakeStringMore(s: Bytes, more: Bytes)
    requires TakeString(s).Got?
    ensures TakeString(s + more) == Got(TakeString(s).data, TakeString(s).rest + more)
  {
    TakeMore(s, 2, more);
    var s1 := Take(s, 2).rest;
    var n := Read16(Take(s, 2).data);
    if n > 0 {
      TakeMore(s1, n, more);
    }
  }

  /** The decoder never looks past the header: bytes appended to a decodable
      input only lengthen the leftover. */
  lemma DecodeMore(h: Header, s: Bytes, more: Bytes)
    requires DecodeFrom(h, s).error.None?
    ensures DecodeFrom(h, s + more) == DecodeFrom(h, s).(rest := DecodeFrom(h, s).rest + more)
  {
    TakeMore(s, 1, more);
    var s1 := Take(s, 1).rest;
    TakeMore(s1, 1, more);
    var s2 := Take(s1, 1).rest;
    TakeMore(s2, 2, more);
    var s3 := Take(s2, 2).rest;
    TakeStringMore(s3, more);
    var s4 := TakeString(s3).rest;
    TakeStringMore(s4, more);
    var s5 := TakeString(s4).rest;
    TakeStringMore(s5, more);
  }

  /** No strict prefix `p` of an encoded header decodes. */
  lemma StrictPrefixFails(h0: Header, h: Header, p: Bytes, missing: Bytes)
    requires h.Valid() && h.Fits() && Encoded(h) == p + missing && missing != []
    ensures DecodeFrom(h0, p).error.Some?
  {
    if DecodeFrom(h0, p).error.None? {
      DecodeMore(h0, p, missing);
      DecodeEncodedBefore(h0, h, []);
      assert false;
    }
  }

  /** So no encoding is a prefix of another one. */
  lemma PrefixFree(a: Header, b: Header)
    requires a.Valid() && a.Fits() && b.Valid() && b.Fits()
    requires Encoded(a) <= Encoded(b)
    ensures a == b
  {
    var tail := Encoded(b)[|Encoded(a)|..];
    assert Encoded(b) == Encoded(a) + tail;
    HeaderRoundTrip(a, a, tail);
    DecodeEncodedBefore(a, b, []);
  }

  // ----- The stateful encoder and decoder -----

  /** A stateful read returned `data` or `error` and left `rest`, as `taken` says;
      a failing read has consumed everything. */
  ghost predicate Agrees(taken: Taken, data: Bytes, error: Option<ReadError>, rest: Bytes) {
    match taken
    case Got(d, left) => error.None? && data == d && rest == left
    case Short(e) => error == Some(e) && data == [] && rest == []
  }

  /** `io.ReadFull`: whatever the cuts, it takes what `Take` takes from the flat bytes. */
  method ReadFull(r: ByteStream, n: nat) returns (data: Bytes, error: Option<ReadError>)
    requires 0 < n
    modifies r
    ensures Agrees(Take(old(r.Rest()), n), data, error, r.Rest())
  {
    data, error := [], None;
    while |data| < n
      invariant |data| <= n
      invariant data + r.Rest() == old(r.Rest())
      decreases r.Steps()
    {
      var got, eof := r.Read(n - |data|);
      if eof {
        assert old(r.Rest()) == data + [] == data;
        return [], Some(if data == [] then Eof else UnexpectedEof);
      }
      assert data + (got + r.Rest()) == (data + got) + r.Rest();
      data := data + got;
    }
    TakePrefix(data, r.Rest());
  }

  method ReadString(r: ByteStream) returns (data: Bytes, error: Option<ReadError>)
    modifies r
    ensures Agrees(TakeString(old(r.Rest())), data, error, r.Rest())
  {
    data, error := ReadFull(r, 2);
    if error.Some? {
      return;
    }
    var length := Read16(data);
    if length == 0 {
      return [], None;
    }
    data, error := ReadFull(r, length);
  }

  method WriteString(w: ByteSink, s: Bytes) returns (ok: bool)
    modifies w
    ensures ok == (|EncodedString(s)| <= old(w.room))
    ensures w.data == old(w.data) + Kept(EncodedString(s), old(w.room))
    ensures w.room == old(w.room) - |Kept(EncodedString(s), old(w.room))|
  {
    ghost var room := w.room;
    ghost var body := if |s| % 0x1_0000 > 0 then s else [];
    KeptInTwoWrites(U16(|s|), body, room);
    ok := w.Write(U16(|s|));
    if !ok {
      return;
    }
    if |s| % 0x1_0000 > 0 {
      ok := w.Write(s);
    }
    assert w.data == old(w.data) + (U16(|s|) + Kept(body, room - 2));
  }

  /** Writing `part` next, with `tail` still to come: what the sink must end up
      with does not change, whether the part fits or not. */
  lemma WriteNext(start: Bytes, part: Bytes, tail: Bytes, room: nat)
    ensures start + Kept(part + tail, room) ==
            if |part| <= room then (start + part) + Kept(tail, room - |part|)
            else start + Kept(part, room)
  {
    KeptInTwoWrites(part, tail, room);
    if |part| <= room {
      Assoc(start, part, Kept(tail, room - |part|));
    }
  }

  class TunnelStreamHeader {
    var version: Byte
    var protocol: Byte
    var port: nat
    var name: Bytes
    var namespace: Bytes
    var tunnelId: Bytes

    constructor ()
      ensures Value() == Header(0, 0, 0, [], [], [])
    {
      version, protocol, port, name, namespace, tunnelId := 0, 0, 0, [], [], [];
    }

    ghost function Value(): Header
      reads this
    {
      Header(version, protocol, port, name, namespace, tunnelId)
    }

    /** Fills the fields one by one; the fields, the error and what stays unread
        depend only on the flat bytes, never on how the reader cuts them. */
    method Decode(r: ByteStream) returns (error: Option<ReadError>)
      modifies this, r
      ensures Decoded(Value(), error, r.Rest()) == DecodeFrom(old(Value()), old(r.Rest()))
    {
      var data;
      data, error := ReadFull(r, 1);
      if error.Some? {
        return;
      }
      version := data[0];
      data, error := ReadFull(r, 1);
      if error.Some? {
        return;
      }
      protocol := data[0];
      data, error := ReadFull(r, 2);
      if error.Some? {
        return;
      }
      port := Read16(data);
      name, error := ReadString(r);
      if error.Some? {
        return;
      }
      namespace, error := ReadString(r);
      if error.Some? {
        return;
      }
      tunnelId, error := ReadString(r);
    }

    /** The sink receives the encoding, or the part that still fitted. */
    method Encode(w: ByteSink) returns (ok: bool)
      modifies w
      ensures ok == (|Encoded(Value())| <= old(w.room))
      ensures w.data == old(w.data) + Kept(Encoded(Value()), old(w.room))
    {
      ghost var t3 := EncodedString(name) + (EncodedString(namespace) + (EncodedString(tunnelId) + []));
      ghost var t2 := U16(port) + t3;
      WriteNext(w.data, [version], [protocol] + t2, w.room);
      ok := w.Write([version]);
      if !ok {
        return;
      }
      WriteNext(w.data, [protocol], t2, w.room);
      ok := w.Write([protocol]);
      if !ok {
        return;
      }
      WriteNext(w.data, U16(port), t3, w.room);
      ok := w.Write(U16(port));
      if !ok {
        return;
      }
      ok := EncodeStrings(w);
    }

    /** The three strings that end an encoding. */
    method EncodeStrings(w: ByteSink) returns (ok: bool)
      modifies w
      ensures var strings := EncodedString(name) + (EncodedString(namespace) + (EncodedString(tunnelId) + []));
              ok == (|strings| <= old(w.room)) && w.data == old(w.data) + Kept(strings, old(w.room))
    {
      ghost var t5 := EncodedString(tunnelId) + [];
      WriteNext(w.data, EncodedString(name), EncodedString(namespace) + t5, w.room);
      ok := WriteString(w, name);
      if !ok {
        return;
      }
      WriteNext(w.data, EncodedString(namespace), t5, w.room);
      ok := WriteString(w, namespace);
      if !ok {
        return;
      }
      WriteNext(w.data, EncodedString(tunnelId), [], w.room);
      ok := WriteString(w, tunnelId);
    }
  }
}
