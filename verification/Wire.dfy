/** Bytes on the wire: big-endian integers, byte streams cut into pieces and
    bounded sinks.  Go strings are byte sequences, so identifiers are `Bytes`. */
module Wire {

  type Byte = b: int | 0 <= b < 256

  type Bytes = seq<Byte>

  datatype Option<+T> = None | Some(value: T)

  /** `byte(n >> 8), byte(n)`: Go's conversion keeps the low eight bits, so an
      integer that does not fit loses its high part. */
  function U16(n: int): Bytes {
    [(n / 0x100) % 0x100, n % 0x100]
  }

  function U32(n: int): Bytes {
    [(n / 0x100_0000) % 0x100, (n / 0x1_0000) % 0x100, (n / 0x100) % 0x100, n % 0x100]
  }

  function Read16(b: Bytes): (n: nat)
    requires |b| == 2
    ensures n < 0x1_0000
  {
    0x100 * (b[0] as int) + b[1]
  }

  function Read32(b: Bytes): (n: nat)
    requires |b| == 4
    ensures n < 0x1_0000_0000
  {
    0x1_0000 * Read16(b[..2]) + Read16(b[2..])
  }

  /** High byte first: what a receiver makes of the two bytes in network order. */
  lemma BigEndian16(n: nat, high: Byte, low: Byte)
    requires n < 0x1_0000
    ensures U16(n) == [high, low] <==> n == 256 * (high as int) + low
    ensures Read16([high, low]) == 256 * (high as int) + low
  {
  }

  lemma BigEndian32(n: nat, a: Byte, b: Byte, c: Byte, d: Byte)
    requires n == 0x100_0000 * (a as int) + 0x1_0000 * (b as int) + 0x100 * (c as int) + d
    ensures U32(n) == [a, b, c, d] && Read32([a, b, c, d]) == n
  {
    var high, middle := 0x100 * (a as int) + b, 0x100 * (0x100 * (a as int) + b) + c;
    assert n == 0x100 * middle + d && middle == 0x100 * high + c;
    assert n / 0x100 == middle && middle / 0x100 == high && high / 0x100 == a as int;
    assert n / 0x1_0000 == high;
    ShiftTwice(n);
    assert [a, b, c, d][..2] == [a, b] && [a, b, c, d][2..] == [c, d];
  }

  lemma Read16OfU16(n: int)
    ensures Read16(U16(n)) == n % 0x1_0000
  {
  }

  lemma ShiftTwice(n: int)
    ensures n / 0x100_0000 == (n / 0x1_0000) / 0x100
  {
  }

  lemma Read32OfU32(n: int)
    ensures Read32(U32(n)) == n % 0x1_0000_0000
  {
    var high := n / 0x1_0000;
    ShiftTwice(n);
    assert U32(n)[..2] == U16(high) && U32(n)[2..] == U16(n);
    Read16OfU16(high);
    Read16OfU16(n);
  }

  function Flatten<T>(pieces: seq<seq<T>>): seq<T> {
    if pieces == [] then [] else pieces[0] + Flatten(pieces[1..])
  }

  lemma Assoc<T>(a: seq<T>, b: seq<T>, c: seq<T>)
    ensures (a + b) + c == a + (b + c)
  {
  }

  lemma {:induction false} FlattenAppend<T>(a: seq<seq<T>>, b: seq<seq<T>>)
    ensures Flatten(a + b) == Flatten(a) + Flatten(b)
  {
    if a == [] {
      assert a + b == b;
    } else {
      FlattenAppend(a[1..], b);
      assert (a + b)[0] == a[0] && (a + b)[1..] == a[1..] + b;
      Assoc(a[0], Flatten(a[1..]), Flatten(b));
    }
  }

  lemma FlattenSnoc<T>(a: seq<seq<T>>, last: seq<T>)
    ensures Flatten(a + [last]) == Flatten(a) + last
  {
    FlattenAppend(a, [last]);
    assert Flatten([last]) == last + Flatten<T>([]);
  }

  /** What a sink with `room` bytes left keeps of `data`. */
  function Kept(data: Bytes, room: nat): Bytes {
    if |data| <= room then data else data[..room]
  }

  /** An `io.Reader`: each read returns (part of) the next piece, so a caller has
      no control over how the bytes are cut.  Pieces may be empty. */
  class ByteStream {
    var pieces: seq<Bytes>

    constructor (pieces: seq<Bytes>)
      ensures this.pieces == pieces
    {
      this.pieces := pieces;
    }

    ghost function Rest(): Bytes
      reads this
    {
      Flatten(pieces)
    }

    /** Bounds the number of reads that can still return without end of file. */
    ghost function Steps(): nat
      reads this
    {
      |Rest()| + |pieces|
    }

    method Read(max: nat) returns (got: Bytes, eof: bool)
      requires 0 < max
      modifies this
      ensures old(Rest()) == got + Rest()
      ensures |got| <= max
      ensures eof <==> old(pieces) == []
      ensures if eof then Steps() == old(Steps()) && got == [] else Steps() < old(Steps())
    {
      if pieces == [] {
        return [], true;
      }
      var piece := pieces[0];
      if |piece| <= max {
        pieces := pieces[1..];
        return piece, false;
      }
      ghost var before := pieces;
      pieces := [piece[max..]] + pieces[1..];
      assert pieces[1..] == before[1..];
      assert piece == piece[..max] + piece[max..];
      return piece[..max], false;
    }
  }

  /** An `io.Writer` that accepts `room` more bytes and then fails; a failing
      write keeps the part that still fitted. */
  class ByteSink {
    var data: Bytes
    var room: nat

    constructor (room: nat)
      ensures data == [] && this.room == room
    {
      data := [];
      this.room := room;
    }

    method Write(bytes: Bytes) returns (ok: bool)
      modifies this
      ensures ok == (|bytes| <= old(room))
      ensures data == old(data) + Kept(bytes, old(room))
      ensures room == old(room) - |Kept(bytes, old(room))|
    {
      ok := |bytes| <= room;
      var kept := if ok then bytes else bytes[..room];
      data := data + kept;
      room := room - |kept|;
    }
  }

  /** Writing `a` and then, if it fitted, `b` keeps what one write of `a + b` keeps. */
  lemma KeptInTwoWrites(a: Bytes, b: Bytes, room: nat)
    ensures |a| <= room ==> Kept(a + b, room) == a + Kept(b, room - |a|)
    ensures room < |a| ==> Kept(a + b, room) == Kept(a, room)
  {
    if |a| <= room < |a + b| {
      assert (a + b)[..room] == a + b[..room - |a|];
    } else if room < |a| {
      assert (a + b)[..room] == a[..room];
    }
  }
}
