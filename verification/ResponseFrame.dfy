/** The out-of-line binary frames of the control channel: the response frame the
    agent builds in place with a moving offset, and the request body frame it parses. */
module ResponseFrame {
  import opened Wire

  const MAX_INT := 0x7fff_ffff_ffff_ffff

  datatype Response = Response(id: Bytes, status: int, headers: Bytes, body: Bytes)
  {
    /** The widths the frame gives to the id length, the status and the header length. */
    ghost predicate Fits() {
      |id| < 0x1_0000 && 0 <= status < 0x1_0000_0000 && |headers| < 0x1_0000_0000
    }
  }

  datatype BuildError = YamuxActive | ContextDone | TooLarge

  datatype Built = Frame(bytes: Bytes) | Refused(error: BuildError)

  /** [2 bytes id length][id][4 bytes status][4 bytes header length][headers][body] */
  function Layout(r: Response): Bytes {
    U16(|r.id|) + (r.id + (U32(r.status) + (U32(|r.headers|) + (r.headers + r.body))))
  }

  /** Go's `copy(dst[offset:], src)`; says what the written part of `dst` now holds. */
  method CopyAt(dst: array<Byte>, offset: nat, src: Bytes) returns (next: nat)
    requires offset + |src| <= dst.Length
    modifies dst
    ensures next == offset + |src|
    ensures dst[..next] == old(dst[..offset]) + src
  {
    next := offset + |src|;
    for i := 0 to |src|
      invariant dst[..offset + i] == old(dst[..offset]) + src[..i]
    {
      dst[offset + i] := src[i];
      assert dst[..offset + i + 1] == dst[..offset + i] + [src[i]];
    }
  }

  /** The four bytes of a 32-bit field, high byte first. */
  method PutU32(dst: array<Byte>, offset: nat, n: int) returns (next: nat)
    requires offset + 4 <= dst.Length
    modifies dst
    ensures next == offset + 4
    ensures dst[..next] == old(dst[..offset]) + U32(n)
  {
    dst[offset] := (n / 0x100_0000) % 0x100;
    dst[offset + 1] := (n / 0x1_0000) % 0x100;
    dst[offset + 2] := (n / 0x100) % 0x100;
    dst[offset + 3] := n % 0x100;
    next := offset + 4;
  }

  /** Fills the frame field by field.  It is built only when no yamux session owns
      the binary frames, the context is live and the size is representable. */
  method BuildFrame(r: Response, yamuxActive: bool, contextDone: bool) returns (built: Built)
    ensures yamuxActive ==> built == Refused(YamuxActive)
    ensures !yamuxActive && contextDone ==> built == Refused(ContextDone)
    ensures !yamuxActive && !contextDone ==>
              built == if |Layout(r)| <= 0x7fff_ffff_ffff_ffff then Frame(Layout(r)) else Refused(TooLarge)
  {
    if yamuxActive {
      return Refused(YamuxActive);
    }
    if contextDone {
      return Refused(ContextDone);
    }
    var idLength, headersLength := |r.id|, |r.headers|;
    var overhead := 2 + 4 + 4;
    if idLength > MAX_INT - overhead - headersLength - |r.body| {
      return Refused(TooLarge);
    }
    var frame := new Byte[overhead + idLength + headersLength + |r.body|](_ => 0);
    frame[0] := (idLength / 0x100) % 0x100;
    frame[1] := idLength % 0x100;
    var offset := 2;
    assert frame[..offset] == U16(idLength);
    offset := CopyAt(frame, offset, r.id);
    offset := PutU32(frame, offset, r.status);
    offset := PutU32(frame, offset, headersLength);
    offset := CopyAt(frame, offset, r.headers);
    offset := CopyAt(frame, offset, r.body);
    assert frame[..] == frame[..offset];
    LayoutInOrder(r);
    return Frame(frame[..]);
  }

  lemma LayoutInOrder(r: Response)
    ensures Layout(r) == U16(|r.id|) + r.id + U32(r.status) + U32(|r.headers|) + r.headers + r.body
  {
  }

  // ----- Reading a response frame back -----

  /** The reader the layout calls for, over the frame from its first byte. */
  function Parse(frame: Bytes): Option<Response> {
    if |frame| < 2 then None else
    var idLength := Read16(frame[..2]);
    var f1 := frame[2..];
    if |f1| < idLength then None else ParseAfterId(f1[..idLength], f1[idLength..])
  }

  function ParseAfterId(id: Bytes, f2: Bytes): Option<Response> {
    if |f2| < 8 then None else
    var f3 := f2[4..];
    var headersLength := Read32(f3[..4]);
    var f4 := f3[4..];
    if |f4| < headersLength then None else
    Some(Response(id, Read32(f2[..4]), f4[..headersLength], f4[headersLength..]))
  }

  lemma Split<T>(a: seq<T>, b: seq<T>)
    ensures (a + b)[..|a|] == a && (a + b)[|a|..] == b
  {
  }

  lemma ParseAfterIdParts(id: Bytes, status: Bytes, length: Bytes, headers: Bytes, body: Bytes)
    requires |status| == |length| == 4 && Read32(length) == |headers|
    ensures ParseAfterId(id, status + (length + (headers + body))) ==
            Some(Response(id, Read32(status), headers, body))
  {
    Split(status, length + (headers + body));
    Split(length, headers + body);
    Split(headers, body);
  }

  lemma ParseParts(length: Bytes, id: Bytes, f2: Bytes)
    requires |length| == 2 && Read16(length) == |id|
    ensures Parse(length + (id + f2)) == ParseAfterId(id, f2)
  {
    Split(length, id + f2);
    Split(id, f2);
  }

  lemma FieldsReadBack(r: Response)
    requires r.Fits()
    ensures Read16(U16(|r.id|)) == |r.id|
    ensures Read32(U32(r.status)) == r.status && Read32(U32(|r.headers|)) == |r.headers|
  {
    Read16OfU16(|r.id|);
    Read32OfU32(r.status);
    Read32OfU32(|r.headers|);
  }

  lemma ParseLayout(r: Response)
    requires r.Fits()
    ensures Parse(Layout(r)) == Some(r)
  {
    FieldsReadBack(r);
    ParseParts(U16(|r.id|), r.id, U32(r.status) + (U32(|r.headers|) + (r.headers + r.body)));
    ParseAfterIdParts(r.id, U32(r.status), U32(|r.headers|), r.headers, r.body);
  }

  lemma ParsedFits(frame: Bytes)
    ensures Parse(frame).Some? ==> Parse(frame).value.Fits()
  {
  }

  /** The frame decodes to what was sent exactly when the id, the status and the
      header text fit their fields. */
  lemma FrameDecodesExactlyWhenFits(r: Response)
    ensures Parse(Layout(r)) == Some(r) <==> r.Fits()
  {
    if r.Fits() {
      ParseLayout(r);
    } else {
      ParsedFits(Layout(r));
    }
  }

  /** Any frame the reader accepts is the frame of what it read: two responses
      that fit never share a frame. */
  lemma ParseIsInverse(frame: Bytes, r: Response)
    requires Parse(frame) == Some(r)
    ensures frame == Layout(r)
  {
    ParsedPrefix(frame, r);
    var f1 := frame[2..];
    AfterIdIsInverse(f1[|r.id|..], r);
    U16OfRead16(frame[..2]);
    Halves(frame, 2);
    Halves(f1, |r.id|);
  }

  lemma ParsedPrefix(frame: Bytes, r: Response)
    requires Parse(frame) == Some(r)
    ensures |frame| >= 2 && Read16(frame[..2]) == |r.id| <= |frame[2..]| && frame[2..][..|r.id|] == r.id
    ensures ParseAfterId(r.id, frame[2..][|r.id|..]) == Some(r)
  {
  }

  lemma Halves(s: Bytes, k: nat)
    requires k <= |s|
    ensures s == s[..k] + s[k..]
  {
  }

  lemma AfterIdIsInverse(f2: Bytes, r: Response)
    requires ParseAfterId(r.id, f2) == Some(r)
    ensures f2 == U32(r.status) + (U32(|r.headers|) + (r.headers + r.body))
  {
    var f3 := f2[4..];
    var f4 := f3[4..];
    U32OfRead32(f2[..4]);
    U32OfRead32(f3[..4]);
    assert f4 == r.headers + r.body;
    assert f3 == f3[..4] + f4;
    assert f2 == f2[..4] + f3;
  }

  lemma U16OfRead16(b: Bytes)
    requires |b| == 2
    ensures U16(Read16(b)) == b
  {
  }

  lemma LowByte(high: int, low: Byte)
    ensures (0x100 * high + low) / 0x100 == high && (0x100 * high + low) % 0x100 == low
  {
  }

  lemma ShiftByte(n: int)
    ensures n / 0x1_0000 == (n / 0x100) / 0x100
  {
  }

  lemma U32OfRead32(b: Bytes)
    requires |b| == 4
    ensures U32(Read32(b)) == b
  {
    var high := 0x100 * b[0] as int + b[1];
    var middle := 0x100 * high + b[2];
    var n := Read32(b);
    assert n == 0x100 * middle + b[3];
    LowByte(middle, b[3]);
    LowByte(high, b[2]);
    LowByte(b[0] as int, b[1]);
    ShiftByte(n);
    ShiftTwice(n);
  }

  // ----- The request body frame -----

  datatype BodyError = TooShort | BadFormat | IdMismatch

  datatype BodyFrame = Body(body: Bytes) | Bad(error: BodyError)

  /** [2 bytes id length][id][body], accepted for the request that announced it. */
  function ParseBodyFrame(frame: Bytes, id: Bytes): BodyFrame {
    if |frame| < 2 then Bad(TooShort) else
    var idLength := Read16(frame[..2]);
    if |frame| < 2 + idLength then Bad(BadFormat) else
    if frame[2..2 + idLength] != id then Bad(IdMismatch) else
    Body(frame[2 + idLength..])
  }

  /** The parser accepts precisely the frames of the announced id, and returns
      precisely what follows the id. */
  lemma BodyFrameAcceptedExactly(frame: Bytes, id: Bytes, body: Bytes)
    ensures ParseBodyFrame(frame, id) == Body(body) <==>
            |id| < 0x1_0000 && frame == U16(|id|) + id + body
  {
    Read16OfU16(|id|);
    if |id| < 0x1_0000 && frame == U16(|id|) + id + body {
      assert frame[..2] == U16(|id|);
      assert frame[2..2 + |id|] == id && frame[2 + |id|..] == body;
    }
    if ParseBodyFrame(frame, id) == Body(body) {
      U16OfRead16(frame[..2]);
      assert frame == frame[..2] + frame[2..2 + |id|] + frame[2 + |id|..];
    }
  }

  /** Applied to the agent's own response frame, that parser recovers the id and
      leaves exactly the rest, if and only if the id fits its length field. */
  lemma PrefixParserOnResponse(r: Response)
    ensures var rest := U32(r.status) + (U32(|r.headers|) + (r.headers + r.body));
            ParseBodyFrame(Layout(r), r.id) == Body(rest) <==> |r.id| < 0x1_0000
  {
    var rest := U32(r.status) + (U32(|r.headers|) + (r.headers + r.body));
    assert U16(|r.id|) + r.id + rest == Layout(r);
    BodyFrameAcceptedExactly(Layout(r), r.id, rest);
  }
}
