/**
 * The helper package: a bounded random integer and the pool's instance token
 * (a random 20-byte buffer written out as 40 lower-case hex characters).
 * The random sources are parameters: `draw` stands for what rand.Intn returned and
 * `RandomRead` for the outcome of rand.Read on a fresh buffer.
 */
module Helper {
  import opened Wrappers

  newtype Byte = x: int | 0 <= x < 256

  /** Length of the random buffer behind a UUID (helper/data.go). */
  const UuidLen: nat := 20

  const MaxInt64: int := 0x7fff_ffff_ffff_ffff

  // ---------------------------------------------------------------------------
  // RandomInt
  // ---------------------------------------------------------------------------

  /**
   * RandomInt(min, max) with the value of rand.Intn(max - min + 1) passed in as `draw`.
   * rand.Intn demands a positive argument that fits in an int and returns a value
   * below it; the requires clause passes both demands on to the caller.
   */
  function RandomInt(min: int, max: int, draw: int): (r: int)
    requires min < max ==> max - min + 1 <= MaxInt64 && 0 <= draw < max - min + 1
    ensures min >= max ==> r == -1
    ensures min < max ==> min <= r <= max
    // distinct draws give distinct results: the draw is the offset above min
    ensures min < max ==> r - min == draw
  {
    if min >= max then -1 else draw + min
  }

  /** Every value of [min, max], both bounds included, is produced by some draw. */
  lemma RandomIntCovers(min: int, max: int, v: int)
    requires min < max && max - min + 1 <= MaxInt64
    requires min <= v <= max
    ensures RandomInt(min, max, v - min) == v
  {
  }

  /** With equal bounds the result is -1, not the single value the two bounds include. */
  lemma RandomIntEqualBounds(v: int, draw: int)
    ensures RandomInt(v, v, draw) == -1
  {
  }

  // ---------------------------------------------------------------------------
  // Lower-case hex, as fmt's %x writes a byte slice
  // ---------------------------------------------------------------------------

  predicate IsLowerHex(c: char) {
    ('0' <= c <= '9') || ('a' <= c <= 'f')
  }

  function HexDigit(n: int): (c: char)
    requires 0 <= n < 16
    ensures IsLowerHex(c)
  {
    if n < 10 then ('0' as int + n) as char else ('a' as int + n - 10) as char
  }

  function DigitValue(c: char): (n: int)
    requires IsLowerHex(c)
    ensures 0 <= n < 16
    ensures HexDigit(n) == c
  {
    if c <= '9' then c as int - '0' as int else c as int - 'a' as int + 10
  }

  /** %x of one byte: the high nibble, then the low nibble. */
  function HexByte(b: Byte): (s: string)
    ensures |s| == 2 && IsLowerHex(s[0]) && IsLowerHex(s[1])
    ensures (DigitValue(s[0]) * 16 + DigitValue(s[1])) as Byte == b
  {
    [HexDigit(b as int / 16), HexDigit(b as int % 16)]
  }

  /** %x of a byte slice: two lower-case hex characters per byte, in order. */
  function Hex(bs: seq<Byte>): (s: string)
    ensures |s| == 2 * |bs|
    ensures forall i :: 0 <= i < |s| ==> IsLowerHex(s[i])
  {
    if bs == [] then [] else HexByte(bs[0]) + Hex(bs[1..])
  }

  /** Reads lower-case hex back into bytes; None when the text is not such hex. */
  function Unhex(s: string): (r: Option<seq<Byte>>)
    ensures r.Some? ==> 2 * |r.value| == |s|
  {
    if |s| == 0 then Some([])
    else if |s| == 1 || !IsLowerHex(s[0]) || !IsLowerHex(s[1]) then None
    else
      match Unhex(s[2..])
      case None => None
      case Some(rest) => Some([(DigitValue(s[0]) * 16 + DigitValue(s[1])) as Byte] + rest)
  }

  /** Hex of a concatenation is the concatenation of the hex of the parts. */
  lemma {:induction false} HexAppend(a: seq<Byte>, b: seq<Byte>)
    ensures Hex(a + b) == Hex(a) + Hex(b)
  {
    if a != [] {
      calc {
        Hex(a + b);
      == { assert (a + b)[0] == a[0] && (a + b)[1..] == a[1..] + b; }
        HexByte(a[0]) + Hex(a[1..] + b);
      == { HexAppend(a[1..], b); }
        HexByte(a[0]) + (Hex(a[1..]) + Hex(b));
      }
    } else {
      assert a + b == b;
    }
  }

  /** Decoding the hex of a buffer gives the buffer back. */
  lemma {:induction false} UnhexHex(bs: seq<Byte>)
    ensures Unhex(Hex(bs)) == Some(bs)
  {
    if bs != [] {
      var s := Hex(bs);
      assert s[2..] == Hex(bs[1..]);
      UnhexHex(bs[1..]);
      assert [bs[0]] + bs[1..] == bs;
    }
  }

  /** Conversely, text that decodes is exactly the hex of what it decodes to. */
  lemma {:induction false} HexUnhex(s: string)
    requires Unhex(s).Some?
    ensures Hex(Unhex(s).value) == s
  {
    if |s| > 0 {
      var rest := Unhex(s[2..]).value;
      HexUnhex(s[2..]);
      var b := (DigitValue(s[0]) * 16 + DigitValue(s[1])) as Byte;
      assert Unhex(s).value == [b] + rest;
      assert ([b] + rest)[1..] == rest;
      assert HexByte(b) == s[..2];
      assert s == s[..2] + s[2..];
    }
  }

  /** The five slices NewUUID formats one after another cover the whole buffer in order. */
  lemma SlicedHex(buf: seq<Byte>)
    requires |buf| >= 12
    ensures Hex(buf[0..6]) + Hex(buf[6..8]) + Hex(buf[8..10]) + Hex(buf[10..12]) + Hex(buf[12..]) == Hex(buf)
  {
    var p0, p1, p2, p3, p4 := buf[0..6], buf[6..8], buf[8..10], buf[10..12], buf[12..];
    assert buf[0..8] == p0 + p1;
    assert buf[0..10] == buf[0..8] + p2;
    assert buf[0..12] == buf[0..10] + p3;
    assert buf == buf[0..12] + p4;
    HexAppend(p0, p1);
    HexAppend(buf[0..8], p2);
    HexAppend(buf[0..10], p3);
    HexAppend(buf[0..12], p4);
  }

  // ---------------------------------------------------------------------------
  // NewUUID
  // ---------------------------------------------------------------------------

  /** What rand.Read did with the fresh UuidLen-byte buffer. */
  datatype RandomRead = ReadOk(buffer: seq<Byte>) | ReadFailed(reason: string)

  datatype UuidError =
    | RandomReadError(reason: string)  // "ERROR: Reading random string: ..."
    | EmptyBuffer                      // "ERROR: Nil or empty uuidBuffer."

  /**
   * NewUUID: the hex of the buffer written slice by slice, or the read error.
   * The empty-buffer error is kept as written; the ensures show it never happens,
   * because the buffer always has UuidLen > 0 bytes.
   */
  function NewUuid(read: RandomRead): (r: Result<string, UuidError>)
    requires read.ReadOk? ==> |read.buffer| == UuidLen
    ensures r.Failure? <==> read.ReadFailed?
    ensures read.ReadFailed? ==> r.error == RandomReadError(read.reason)
    ensures r.Success? ==> |r.value| == 2 * UuidLen
    ensures r.Success? ==> forall i :: 0 <= i < |r.value| ==> IsLowerHex(r.value[i])
    ensures r.Success? ==> Unhex(r.value) == Some(read.buffer)
  {
    match read
    case ReadFailed(reason) => Failure(RandomReadError(reason))
    case ReadOk(buf) =>
      if |buf| < 1 then Failure(EmptyBuffer)
      else
        SlicedHex(buf);
        UnhexHex(buf);
        Success(Hex(buf[0..6]) + Hex(buf[6..8]) + Hex(buf[8..10]) + Hex(buf[10..12]) + Hex(buf[12..]))
  }
}
