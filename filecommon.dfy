/**
 * The bounds-checked big-endian readers shared by both FOX5 readers, and
 * `getBasename`.
 *
 * A reader takes the byte buffer and a position (the C++ `*dataPtr` as an
 * offset from the start of the buffer, so `dataEnd` is `|d|`). It either
 * fails, as the C++ throws, or yields the value and the advanced position.
 * `Cursor` is the caller's pointer variable that the readers advance in place.
 */
module FileCommon {
  import opened Wrappers
  import opened Common

  /** A value read from the buffer and the position just past it. */
  datatype Parsed<+T> = Parsed(value: T, pos: nat)

  /** The value of a read, without the position. */
  function ValueOf<T>(r: Result<Parsed<T>, Error>): Result<T, Error>
  {
    match r
    case Ok(p) => Ok(p.value)
    case Err(e) => Err(e)
  }

  /** Where the pointer is after a read that started at `p`: unchanged when the read failed. */
  function PosAfter<T>(r: Result<Parsed<T>, Error>, p: nat): nat
  {
    if r.Ok? then r.value.pos else p
  }

  function ReadUint8(d: bytes, p: nat): (r: Result<Parsed<uint8>, Error>)
    ensures r.Ok? <==> p + 1 <= |d|
    ensures r.Err? ==> r.error == EndOfData(1)
    ensures r.Ok? ==> r.value.pos == p + 1 && r.value.value == d[p]
  {
    if p + 1 > |d| then Err(EndOfData(1)) else Ok(Parsed(d[p], p + 1))
  }

  /** `readInt8`: the same byte as `ReadUint8`, reinterpreted as signed. */
  function ReadInt8(d: bytes, p: nat): (r: Result<Parsed<int8>, Error>)
    ensures r.Ok? <==> p + 1 <= |d|
    ensures r.Err? ==> r.error == EndOfData(1)
    ensures r.Ok? ==> r.value.pos == p + 1 && (r.value.value - d[p]) % 0x100 == 0
  {
    if p + 1 > |d| then Err(EndOfData(1)) else Ok(Parsed(ToInt8(d[p]), p + 1))
  }

  function ReadUint16(d: bytes, p: nat): (r: Result<Parsed<uint16>, Error>)
    ensures r.Ok? <==> p + 2 <= |d|
    ensures r.Err? ==> r.error == EndOfData(2)
    ensures r.Ok? ==> r.value.pos == p + 2 && d[p..p + 2] == Encode16(r.value.value)
  {
    if p + 2 > |d| then Err(EndOfData(2))
    else
      Encode16OfBe16(d[p], d[p + 1]);
      Ok(Parsed(Be16(d[p], d[p + 1]), p + 2))
  }

  /** `readInt16`: the two's-complement reading of the two bytes `ReadUint16` would consume. */
  function ReadInt16(d: bytes, p: nat): (r: Result<Parsed<int16>, Error>)
    ensures r.Ok? <==> p + 2 <= |d|
    ensures r.Err? ==> r.error == EndOfData(2)
    ensures r.Ok? ==> r.value.pos == p + 2 && d[p..p + 2] == Encode16(FromInt16(r.value.value))
  {
    var u :- ReadUint16(d, p);
    Ok(Parsed(ToInt16(u.value), u.pos))
  }

  function ReadUint32(d: bytes, p: nat): (r: Result<Parsed<uint32>, Error>)
    ensures r.Ok? <==> p + 4 <= |d|
    ensures r.Err? ==> r.error == EndOfData(4)
    ensures r.Ok? ==> r.value.pos == p + 4 && d[p..p + 4] == Encode32(r.value.value)
  {
    if p + 4 > |d| then Err(EndOfData(4))
    else
      Encode32OfBe32(d[p], d[p + 1], d[p + 2], d[p + 3]);
      Ok(Parsed(Be32(d[p], d[p + 1], d[p + 2], d[p + 3]), p + 4))
  }

  /** `readInt32`: the two's-complement reading of the four bytes `ReadUint32` would consume. */
  function ReadInt32(d: bytes, p: nat): (r: Result<Parsed<int32>, Error>)
    ensures r.Ok? <==> p + 4 <= |d|
    ensures r.Err? ==> r.error == EndOfData(4)
    ensures r.Ok? ==> r.value.pos == p + 4 && d[p..p + 4] == Encode32(FromInt32(r.value.value))
  {
    var u :- ReadUint32(d, p);
    Ok(Parsed(ToInt32(u.value), u.pos))
  }

  /** `readUInt8Array`: exactly the next `n` bytes. */
  function ReadBytes(d: bytes, p: nat, n: nat): (r: Result<Parsed<bytes>, Error>)
    ensures r.Ok? <==> p + n <= |d|
    ensures r.Err? ==> r.error == EndOfData(n)
    ensures r.Ok? ==> r.value.pos == p + n && |r.value.value| == n
    ensures r.Ok? ==> d == d[..p] + r.value.value + d[p + n..]
  {
    if p + n > |d| then Err(EndOfData(n))
    else
      assert d == d[..p] + d[p..p + n] + d[p + n..];
      Ok(Parsed(d[p..p + n], p + n))
  }

  /** `readString`: the next `n` bytes as characters. */
  function ReadString(d: bytes, p: nat, n: nat): (r: Result<Parsed<string>, Error>)
    ensures r.Ok? <==> p + n <= |d|
    ensures r.Err? ==> r.error == EndOfData(n)
    ensures r.Ok? ==> r.value.pos == p + n && |r.value.value| == n
    ensures r.Ok? ==> forall i :: 0 <= i < n ==> r.value.value[i] as int == d[p + i]
  {
    var b :- ReadBytes(d, p, n);
    Ok(Parsed(AsChars(b.value), b.pos))
  }

  /** Reading zero bytes succeeds wherever the pointer has not passed the end. */
  lemma ReadZeroBytes(d: bytes, p: nat)
    requires p <= |d|
    ensures ReadBytes(d, p, 0) == Ok(Parsed([], p))
    ensures ReadString(d, p, 0) == Ok(Parsed([], p))
  {
  }

  /** Decoding what `Encode16` wrote gives the value back, wherever it sits in the buffer. */
  lemma ReadUint16OfEncode(pre: bytes, v: uint16, rest: bytes)
    ensures ReadUint16(pre + Encode16(v) + rest, |pre|) == Ok(Parsed(v, |pre| + 2))
  {
    var d := pre + Encode16(v) + rest;
    assert d[|pre|] == Encode16(v)[0] && d[|pre| + 1] == Encode16(v)[1];
  }

  /** Decoding what `Encode32` wrote gives the value back, wherever it sits in the buffer. */
  lemma ReadUint32OfEncode(pre: bytes, v: uint32, rest: bytes)
    ensures ReadUint32(pre + Encode32(v) + rest, |pre|) == Ok(Parsed(v, |pre| + 4))
  {
    var d := pre + Encode32(v) + rest;
    var e := Encode32(v);
    assert d[|pre|] == e[0] && d[|pre| + 1] == e[1] && d[|pre| + 2] == e[2] && d[|pre| + 3] == e[3];
  }

  /** A signed value written in two's complement is read back by `readInt16`. */
  lemma ReadInt16OfEncode(pre: bytes, i: int16, rest: bytes)
    ensures ReadInt16(pre + Encode16(FromInt16(i)) + rest, |pre|) == Ok(Parsed(i, |pre| + 2))
  {
    ReadUint16OfEncode(pre, FromInt16(i), rest);
  }

  /** A signed value written in two's complement is read back by `readInt32`. */
  lemma ReadInt32OfEncode(pre: bytes, i: int32, rest: bytes)
    ensures ReadInt32(pre + Encode32(FromInt32(i)) + rest, |pre|) == Ok(Parsed(i, |pre| + 4))
  {
    ReadUint32OfEncode(pre, FromInt32(i), rest);
  }

  /** The signed and unsigned readers consume the same bytes, agree below the sign bit and differ by 2^n at or above it. */
  lemma SignedAgreesWithUnsigned(d: bytes, p: nat)
    ensures ReadInt16(d, p).Ok? == ReadUint16(d, p).Ok?
    ensures ReadInt16(d, p).Ok? ==> ReadInt16(d, p).value.pos == ReadUint16(d, p).value.pos
    ensures ReadInt16(d, p).Ok? && ReadUint16(d, p).value.value < 0x8000 ==>
              ReadInt16(d, p).value.value == ReadUint16(d, p).value.value
    ensures ReadInt16(d, p).Ok? && ReadUint16(d, p).value.value >= 0x8000 ==>
              ReadInt16(d, p).value.value == ReadUint16(d, p).value.value - TWO_16
    ensures ReadInt32(d, p).Ok? == ReadUint32(d, p).Ok?
    ensures ReadInt32(d, p).Ok? ==> ReadInt32(d, p).value.pos == ReadUint32(d, p).value.pos
    ensures ReadInt32(d, p).Ok? && ReadUint32(d, p).value.value < 0x8000_0000 ==>
              ReadInt32(d, p).value.value == ReadUint32(d, p).value.value
    ensures ReadInt32(d, p).Ok? && ReadUint32(d, p).value.value >= 0x8000_0000 ==>
              ReadInt32(d, p).value.value == ReadUint32(d, p).value.value - TWO_32
  {
  }

  /** The caller's `uint8_t*` into a buffer; each read advances it by the width it consumed. */
  class Cursor {
    const data: bytes
    var pos: nat

    constructor (data: bytes, pos: nat)
      ensures this.data == data && this.pos == pos
    {
      this.data := data;
      this.pos := pos;
    }

    method NextUint8() returns (r: Result<uint8, Error>)
      modifies this
      ensures r == ValueOf(ReadUint8(data, old(pos)))
      ensures pos == PosAfter(ReadUint8(data, old(pos)), old(pos))
    {
      if pos + 1 > |data| {
        return Err(EndOfData(1));
      }
      r := Ok(data[pos]);
      pos := pos + 1;
    }

    method NextUint16() returns (r: Result<uint16, Error>)
      modifies this
      ensures r == ValueOf(ReadUint16(data, old(pos)))
      ensures pos == PosAfter(ReadUint16(data, old(pos)), old(pos))
    {
      if pos + 2 > |data| {
        return Err(EndOfData(2));
      }
      r := Ok(Be16(data[pos], data[pos + 1]));
      pos := pos + 2;
    }

    method NextInt16() returns (r: Result<int16, Error>)
      modifies this
      ensures r == ValueOf(ReadInt16(data, old(pos)))
      ensures pos == PosAfter(ReadInt16(data, old(pos)), old(pos))
    {
      if pos + 2 > |data| {
        return Err(EndOfData(2));
      }
      r := Ok(ToInt16(Be16(data[pos], data[pos + 1])));
      pos := pos + 2;
    }

    method NextUint32() returns (r: Result<uint32, Error>)
      modifies this
      ensures r == ValueOf(ReadUint32(data, old(pos)))
      ensures pos == PosAfter(ReadUint32(data, old(pos)), old(pos))
    {
      if pos + 4 > |data| {
        return Err(EndOfData(4));
      }
      r := Ok(Be32(data[pos], data[pos + 1], data[pos + 2], data[pos + 3]));
      pos := pos + 4;
    }

    method NextInt32() returns (r: Result<int32, Error>)
      modifies this
      ensures r == ValueOf(ReadInt32(data, old(pos)))
      ensures pos == PosAfter(ReadInt32(data, old(pos)), old(pos))
    {
      if pos + 4 > |data| {
        return Err(EndOfData(4));
      }
      r := Ok(ToInt32(Be32(data[pos], data[pos + 1], data[pos + 2], data[pos + 3])));
      pos := pos + 4;
    }

    method NextBytes(n: nat) returns (r: Result<bytes, Error>)
      modifies this
      ensures r == ValueOf(ReadBytes(data, old(pos), n))
      ensures pos == PosAfter(ReadBytes(data, old(pos), n), old(pos))
    {
      if pos + n > |data| {
        return Err(EndOfData(n));
      }
      r := Ok(data[pos..pos + n]);
      pos := pos + n;
    }

    method NextString(n: nat) returns (r: Result<string, Error>)
      modifies this
      ensures r == ValueOf(ReadString(data, old(pos), n))
      ensures pos == PosAfter(ReadString(data, old(pos), n), old(pos))
    {
      if pos + n > |data| {
        return Err(EndOfData(n));
      }
      r := Ok(AsChars(data[pos..pos + n]));
      pos := pos + n;
    }
  }

  predicate IsSeparator(c: char)
  {
    c == '/' || c == '\\'
  }

  /** `find_last_of("/\\")`: the index of the last separator, if any. */
  function FindLastSeparator(path: string): (r: Option<nat>)
    ensures r.Some? ==> r.value < |path| && IsSeparator(path[r.value])
    ensures r.Some? ==> forall j :: r.value < j < |path| ==> !IsSeparator(path[j])
    ensures r.None? ==> forall j :: 0 <= j < |path| ==> !IsSeparator(path[j])
  {
    if |path| == 0 then None
    else if IsSeparator(path[|path| - 1]) then Some(|path| - 1)
    else FindLastSeparator(path[..|path| - 1])
  }

  /** The last path component: the text after the last `/` or `\`, or the whole path. */
  function GetBasename(path: string): (r: string)
    ensures forall j :: 0 <= j < |r| ==> !IsSeparator(r[j])
    ensures |r| <= |path| && path[|path| - |r|..] == r
    ensures (forall j :: 0 <= j < |path| ==> !IsSeparator(path[j])) ==> r == path
    ensures |r| < |path| ==> IsSeparator(path[|path| - |r| - 1])
  {
    match FindLastSeparator(path)
    case None => path
    case Some(i) => path[i + 1..]
  }

  /** `std::tolower` in the "C" locale. */
  function Lower(c: char): char
  {
    if 'A' <= c <= 'Z' then (c as int + 32) as char else c
  }

  predicate IsUpper(c: char)
  {
    'A' <= c <= 'Z'
  }

  /** `std::transform` with `tolower` over a string. */
  function Lowercase(s: string): (r: string)
    ensures |r| == |s|
    ensures forall k :: 0 <= k < |s| ==> !IsUpper(r[k])
    ensures forall k :: 0 <= k < |s| ==> (r[k] == s[k] <==> !IsUpper(s[k]))
    ensures forall k :: 0 <= k < |s| && IsUpper(s[k]) ==> r[k] as int == s[k] as int + 32
  {
    seq(|s|, k requires 0 <= k < |s| => Lower(s[k]))
  }

  /** Lower-casing twice changes nothing more. */
  lemma LowercaseIdempotent(s: string)
    ensures Lowercase(Lowercase(s)) == Lowercase(s)
  {
  }

  /** `std::transform(..., tolower)`, rewriting a string in place. */
  method LowerInPlace(s: string) returns (t: string)
    ensures t == Lowercase(s)
  {
    t := s;
    var i := 0;
    while i < |t|
      invariant i <= |t| == |s|
      invariant forall k :: 0 <= k < i ==> t[k] == Lower(s[k])
      invariant forall k :: i <= k < |t| ==> t[k] == s[k]
    {
      t := t[i := Lower(t[i])];
      i := i + 1;
    }
  }
}
