/**
 * Fixed-width integers of the C++ source, their big-endian byte encodings,
 * two's-complement reinterpretation, and the error cases of the FOX5 reader.
 */
module Common {

  type uint8 = x: int | 0 <= x < 0x100
  type uint16 = x: int | 0 <= x < 0x1_0000
  type uint32 = x: int | 0 <= x < 0x1_0000_0000
  type int8 = x: int | -0x80 <= x < 0x80
  type int16 = x: int | -0x8000 <= x < 0x8000
  type int32 = x: int | -0x8000_0000 <= x < 0x8000_0000
  type bytes = seq<uint8>

  const TWO_16: int := 0x1_0000
  const TWO_32: int := 0x1_0000_0000

  /** Unsigned 32-bit arithmetic: the value a `uint32_t` holds after an assignment of `x`. */
  function Wrap32(x: int): (r: uint32)
    ensures 0 <= x < TWO_32 ==> r == x
    ensures (r - x) % TWO_32 == 0
  {
    x % TWO_32
  }

  /** Big-endian value of two bytes, most significant first. */
  function Be16(b0: uint8, b1: uint8): uint16
  {
    b0 * 0x100 + b1
  }

  /** Big-endian value of four bytes, most significant first. */
  function Be32(b0: uint8, b1: uint8, b2: uint8, b3: uint8): uint32
  {
    b0 * 0x100_0000 + b1 * 0x1_0000 + b2 * 0x100 + b3
  }

  /** The two bytes whose big-endian reading is `v`. */
  function Encode16(v: uint16): (r: bytes)
    ensures |r| == 2 && Be16(r[0], r[1]) == v
  {
    [v / 0x100, v % 0x100]
  }

  /** The four bytes whose big-endian reading is `v`. */
  function Encode32(v: uint32): (r: bytes)
    ensures |r| == 4 && Be32(r[0], r[1], r[2], r[3]) == v
  {
    var hi := v / 0x1_0000;
    var lo := v % 0x1_0000;
    Encode16(hi) + Encode16(lo)
  }

  /** Reading two bytes and encoding the value again gives the same two bytes. */
  lemma Encode16OfBe16(b0: uint8, b1: uint8)
    ensures Encode16(Be16(b0, b1)) == [b0, b1]
  {
  }

  /** Reading four bytes and encoding the value again gives the same four bytes. */
  lemma Encode32OfBe32(b0: uint8, b1: uint8, b2: uint8, b3: uint8)
    ensures Encode32(Be32(b0, b1, b2, b3)) == [b0, b1, b2, b3]
  {
    var v := Be32(b0, b1, b2, b3);
    assert v == Be16(b0, b1) * 0x1_0000 + Be16(b2, b3);
    assert v / 0x1_0000 == Be16(b0, b1);
    assert v % 0x1_0000 == Be16(b2, b3);
    Encode16OfBe16(b0, b1);
    Encode16OfBe16(b2, b3);
  }

  /** Two's-complement reinterpretation of an unsigned 8-bit pattern. */
  function ToInt8(u: uint8): (r: int8)
    ensures (r - u) % 0x100 == 0
  {
    if u < 0x80 then u else u - 0x100
  }

  /** Two's-complement reinterpretation of an unsigned 16-bit pattern. */
  function ToInt16(u: uint16): (r: int16)
    ensures (r - u) % TWO_16 == 0
  {
    if u < 0x8000 then u else u - TWO_16
  }

  /** Two's-complement reinterpretation of an unsigned 32-bit pattern. */
  function ToInt32(u: uint32): (r: int32)
    ensures (r - u) % TWO_32 == 0
  {
    if u < 0x8000_0000 then u else u - TWO_32
  }

  /** The 16-bit pattern that holds the signed value `i`. */
  function FromInt16(i: int16): (r: uint16)
    ensures ToInt16(r) == i
  {
    if i < 0 then i + TWO_16 else i
  }

  /** The 32-bit pattern that holds the signed value `i`. */
  function FromInt32(i: int32): (r: uint32)
    ensures ToInt32(r) == i
  {
    if i < 0 then i + TWO_32 else i
  }

  /** The reinterpretation loses nothing: each bit pattern is recovered from its signed value. */
  lemma ToInt16Injective(u: uint16, w: uint16)
    requires ToInt16(u) == ToInt16(w)
    ensures u == w
  {
  }

  /** Bytes viewed as `char`s, as `std::string` does with the raw data it is built from. */
  function AsChars(bs: bytes): (s: string)
    ensures |s| == |bs|
    ensures forall i :: 0 <= i < |bs| ==> s[i] as int == bs[i]
  {
    seq(|bs|, i requires 0 <= i < |bs| => bs[i] as char)
  }

  /** A zero-filled buffer, as `std::vector<uint8_t>(n, 0)` makes. */
  function Zeros(n: nat): (r: bytes)
    ensures |r| == n && forall k :: 0 <= k < n ==> r[k] == 0
  {
    seq(n, _ => 0)
  }

  /** The entity whose `parseData` raised a nesting error. */
  datatype Entity = FileLevel | ObjectLevel | ShapeLevel | FrameLevel

  /** The exceptions of the FOX5 reader, one constructor per distinct throw site. */
  datatype Error =
    | EndOfData(width: nat)                  // a reader needs `width` more bytes than remain
    | UnknownCommand(code: uint8)            // an opcode byte outside the command table
    | UnexpectedLevel(entity: Entity, level: uint8)  // LIST_START with the wrong level
    | ChannelCannotContainLists              // LIST_START inside a channel
    | BadVariantAccess                       // getValue<T>() on a value of another type
    | MissingValue                           // getValue<T>() past the last value (undefined in C++)
    | TooSmall                               // a file shorter than its 20-byte footer
    | NotAFox5File                           // the magic is not "FOX5.1.1"
    | SeedReadFailed                         // the 16-byte seed does not fit in the file
    | CipherUnavailable                      // encrypted data and no cipher built in
    | DecompressionFailed                    // the LZMA decoder reported an error
    | UnknownCompression(kind: uint8)        // compression other than NOT and LZMA
    | RootNotListStart                       // first command is not LIST_START
    | RootLevelNotZero(level: uint8)         // first LIST_START level is not 0
    | RootCountNotOne(count: uint32)         // first LIST_START count is not 1
    | ImageIndexOutOfBounds                  // getImage with id >= number of images
    | BufferOverrun                          // a read that would write past its buffer
}
