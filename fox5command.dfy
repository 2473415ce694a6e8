/**
 * `FOX5Command`: one opcode byte followed by an opcode-dependent sequence of
 * typed values, and the sequential `getValue<T>()` the entity parsers use to
 * consume them.
 *
 * The per-opcode value sequence of the C++ `switch` is written as a table
 * (`LayoutOf`); `DecodeCommand` is its pure reading, and `Command.ParseData`
 * runs it step by step, appending to `values` as the C++ appends to `mValues`.
 */
module Fox5Command {
  import opened Wrappers
  import opened Common
  import opened FileCommon

  /** The two copies of the reader differ in the socket entry of FRAME_ATTACH_SOCKETS. */
  datatype Copy = Fox5Copy | FurcCopy

  datatype Opcode =
    | Nop | ListStart | ListEnd
    | FileGenerator | FileImageList
    | ObjectAuthorRevision | ObjectAuthors | ObjectAuthorsHash | ObjectLicense | ObjectKeywords
    | ObjectName | ObjectDescription | ObjectFlags | ObjectUri | ObjectMoreFlags
    | ObjectIdentifier | ObjectEditType | ObjectFilter
    | ShapePurpose | ShapeState | ShapeDirection | ShapeRatio | ShapeKitterspeak
    | FrameOffset | FrameFurreOffset | FrameAttachPlugs | FrameAttachSockets
    | ChannelPurpose | ChannelImageId | ChannelOffset

  /** The byte of each opcode in the stream. */
  function Code(op: Opcode): uint8
  {
    match op
    case Nop => 0x00
    case ListStart => 0x4C
    case ListEnd => 0x3C
    case FileGenerator => 0x67
    case FileImageList => 0x53
    case ObjectAuthorRevision => 0x72
    case ObjectAuthors => 0x61
    case ObjectAuthorsHash => 0x68
    case ObjectLicense => 0x6C
    case ObjectKeywords => 0x6B
    case ObjectName => 0x6E
    case ObjectDescription => 0x64
    case ObjectFlags => 0x21
    case ObjectUri => 0x50
    case ObjectMoreFlags => 0x3F
    case ObjectIdentifier => 0x69
    case ObjectEditType => 0x74
    case ObjectFilter => 0x46
    case ShapePurpose => 0x70
    case ShapeState => 0x73
    case ShapeDirection => 0x44
    case ShapeRatio => 0x52
    case ShapeKitterspeak => 0x4B
    case FrameOffset => 0x6F
    case FrameFurreOffset => 0x66
    case FrameAttachPlugs => 0x54
    case FrameAttachSockets => 0x55
    case ChannelPurpose => 0x43
    case ChannelImageId => 0x63
    case ChannelOffset => 0x4F
  }

  /** The opcode a byte names, or `None` for a byte the `switch` sends to its `default`. */
  function OpcodeOf(b: uint8): Option<Opcode>
  {
    match b
    case 0x00 => Some(Nop)
    case 0x4C => Some(ListStart)
    case 0x3C => Some(ListEnd)
    case 0x67 => Some(FileGenerator)
    case 0x53 => Some(FileImageList)
    case 0x72 => Some(ObjectAuthorRevision)
    case 0x61 => Some(ObjectAuthors)
    case 0x68 => Some(ObjectAuthorsHash)
    case 0x6C => Some(ObjectLicense)
    case 0x6B => Some(ObjectKeywords)
    case 0x6E => Some(ObjectName)
    case 0x64 => Some(ObjectDescription)
    case 0x21 => Some(ObjectFlags)
    case 0x50 => Some(ObjectUri)
    case 0x3F => Some(ObjectMoreFlags)
    case 0x69 => Some(ObjectIdentifier)
    case 0x74 => Some(ObjectEditType)
    case 0x46 => Some(ObjectFilter)
    case 0x70 => Some(ShapePurpose)
    case 0x73 => Some(ShapeState)
    case 0x44 => Some(ShapeDirection)
    case 0x52 => Some(ShapeRatio)
    case 0x4B => Some(ShapeKitterspeak)
    case 0x6F => Some(FrameOffset)
    case 0x66 => Some(FrameFurreOffset)
    case 0x54 => Some(FrameAttachPlugs)
    case 0x55 => Some(FrameAttachSockets)
    case 0x43 => Some(ChannelPurpose)
    case 0x63 => Some(ChannelImageId)
    case 0x4F => Some(ChannelOffset)
    case _ => None
  }

  /** Each opcode's byte names that opcode again. */
  lemma OpcodeOfCode(op: Opcode)
    ensures OpcodeOf(Code(op)) == Some(op)
  {
  }

  /** A byte that names an opcode is that opcode's byte; every other byte names none. */
  lemma CodeOfOpcode(b: uint8)
    ensures OpcodeOf(b).Some? ==> Code(OpcodeOf(b).value) == b
    ensures OpcodeOf(b).None? <==> forall op :: Code(op) != b
  {
    if OpcodeOf(b).Some? {
      var op := OpcodeOf(b).value;
      assert Code(op) == b;
    } else {
      forall op
        ensures Code(op) != b
      {
        OpcodeOfCode(op);
      }
    }
  }

  /** No two opcodes share a byte. */
  lemma CodeInjective(op1: Opcode, op2: Opcode)
    requires Code(op1) == Code(op2)
    ensures op1 == op2
  {
    OpcodeOfCode(op1);
    OpcodeOfCode(op2);
  }

  /** The alternatives of the C++ value variant; `Type` is its tag. */
  datatype Value =
    | U8(u8: uint8) | I8(i8: int8) | U16(u16: uint16) | I16(i16: int16)
    | U32(u32: uint32) | I32(i32: int32) | Str(str: string) | Blob(blob: bytes)

  datatype Type = UInt8 | Int8 | UInt16 | Int16 | UInt32 | Int32 | String | Bytes

  function TypeOf(v: Value): Type
  {
    match v
    case U8(_) => UInt8
    case I8(_) => Int8
    case U16(_) => UInt16
    case I16(_) => Int16
    case U32(_) => UInt32
    case I32(_) => Int32
    case Str(_) => String
    case Blob(_) => Bytes
  }

  function TypesOf(vs: seq<Value>): (ts: seq<Type>)
    ensures |ts| == |vs|
  {
    seq(|vs|, i requires 0 <= i < |vs| => TypeOf(vs[i]))
  }

  lemma TypesOfAppend(a: seq<Value>, b: seq<Value>)
    ensures TypesOf(a + b) == TypesOf(a) + TypesOf(b)
  {
    assert forall i :: 0 <= i < |a| + |b| ==> TypesOf(a + b)[i] == (TypesOf(a) + TypesOf(b))[i];
  }

  /**
   * One read of the C++ `switch`: the reader it calls and the value it stores.
   * `Word16As8` is a `readUint16` stored as `uint8_t`; the sized forms read a
   * `uint16_t` length first and store only the string or array.
   */
  datatype Field = Byte | Word16As8 | Word16 | SignedWord16 | Word32 | SignedWord32 | SizedString | SizedBytes

  /**
   * The values an opcode carries: a fixed list of reads, or a count (16-bit, or
   * 32-bit when `wide`) stored as the first value, then `count` entries, then the
   * reads of `trailer`. `reserve` is the per-entry factor of `reserveValues`.
   */
  datatype Layout =
    | Fixed(fields: seq<Field>)
    | Counted(wide: bool, entry: seq<Field>, reserve: nat, trailer: seq<Field>)

  /** The cases of both `FOX5Command::parseData` switches. */
  function LayoutOf(copy: Copy, op: Opcode): Layout
  {
    match op
    case Nop => Fixed([])
    case ListStart => Fixed([Byte, Word32])
    case ListEnd => Fixed([])
    case FileGenerator => Fixed([Byte])
    case FileImageList => Counted(true, [Word32, Word16, Word16, Byte], 4, [])
    case ObjectAuthorRevision => Fixed([Word16])
    case ObjectAuthors => Counted(false, [SizedString], 1, [])
    // no `break`: the case runs on into OBJECT_LICENSE and reads its byte too
    case ObjectAuthorsHash => Counted(false, [SizedBytes], 1, [Byte])
    case ObjectLicense => Fixed([Byte])
    case ObjectKeywords => Counted(false, [SizedString], 1, [])
    case ObjectName => Fixed([SizedString])
    case ObjectDescription => Fixed([SizedString])
    case ObjectFlags => Fixed([Byte])
    case ObjectUri => Fixed([SizedString])
    case ObjectMoreFlags => Fixed([Word32])
    case ObjectIdentifier => Fixed([SignedWord32])
    case ObjectEditType => Fixed([Byte])
    case ObjectFilter => Fixed([Byte, Byte])
    case ShapePurpose => Fixed([Byte])
    case ShapeState => Fixed([Byte])
    case ShapeDirection => Fixed([Byte])
    case ShapeRatio => Fixed([Byte, Byte])
    case ShapeKitterspeak => Counted(false, [Word16, SignedWord16, SignedWord16], 3, [])
    case FrameOffset => Fixed([SignedWord16, SignedWord16])
    case FrameFurreOffset => Fixed([SignedWord16, SignedWord16])
    case FrameAttachPlugs => Fixed([Word16, SignedWord16, SignedWord16, SignedWord16])
    case FrameAttachSockets =>
      if copy == Fox5Copy then Counted(false, [Word16As8, SignedWord16, SignedWord16, SignedWord16], 3, [])
      else Counted(false, [Byte, SignedWord16, SignedWord16, SignedWord16], 4, [])
    case ChannelPurpose => Fixed([Word16])
    case ChannelImageId => Fixed([Word16])
    case ChannelOffset => Fixed([SignedWord16, SignedWord16])
  }

  function FieldType(f: Field): Type
  {
    match f
    case Byte => UInt8
    case Word16As8 => UInt8
    case Word16 => UInt16
    case SignedWord16 => Int16
    case Word32 => UInt32
    case SignedWord32 => Int32
    case SizedString => String
    case SizedBytes => Bytes
  }

  function FieldTypes(fs: seq<Field>): (ts: seq<Type>)
    ensures |ts| == |fs|
  {
    seq(|fs|, i requires 0 <= i < |fs| => FieldType(fs[i]))
  }

  /** The bytes a field occupies, when that does not depend on the data. */
  function FixedWidth(f: Field): Option<nat>
  {
    match f
    case Byte => Some(1)
    case Word16As8 => Some(2)
    case Word16 => Some(2)
    case SignedWord16 => Some(2)
    case Word32 => Some(4)
    case SignedWord32 => Some(4)
    case SizedString => None
    case SizedBytes => None
  }

  predicate AllFixed(fs: seq<Field>)
  {
    forall i :: 0 <= i < |fs| ==> FixedWidth(fs[i]).Some?
  }

  function Width(fs: seq<Field>): nat
    requires AllFixed(fs)
  {
    if fs == [] then 0 else FixedWidth(fs[0]).value + Width(fs[1..])
  }

  /** One read: the value stored and the position after it. */
  function DecodeField(d: bytes, p: nat, f: Field): (r: Result<Parsed<Value>, Error>)
    ensures r.Ok? ==> p < r.value.pos <= |d| && TypeOf(r.value.value) == FieldType(f)
    ensures FixedWidth(f).Some? ==> (r.Ok? <==> p + FixedWidth(f).value <= |d|)
    ensures FixedWidth(f).Some? && r.Ok? ==> r.value.pos == p + FixedWidth(f).value
  {
    match f
    case SizedString =>
      var n :- ReadUint16(d, p);
      var s :- ReadString(d, n.pos, n.value);
      Ok(Parsed(Str(s.value), s.pos))
    case SizedBytes =>
      var n :- ReadUint16(d, p);
      var s :- ReadBytes(d, n.pos, n.value);
      Ok(Parsed(Blob(s.value), s.pos))
    case _ => DecodeNumber(d, p, f)
  }

  /** The reads of a number: exactly `FixedWidth(f)` bytes, when there are that many. */
  function DecodeNumber(d: bytes, p: nat, f: Field): (r: Result<Parsed<Value>, Error>)
    requires FixedWidth(f).Some?
    ensures r.Ok? ==> TypeOf(r.value.value) == FieldType(f)
    ensures r.Ok? <==> p + FixedWidth(f).value <= |d|
    ensures r.Ok? ==> r.value.pos == p + FixedWidth(f).value
  {
    match f
    case Byte =>
      var b :- ReadUint8(d, p); Ok(Parsed(U8(b.value), b.pos))
    case Word16As8 =>
      var w :- ReadUint16(d, p); Ok(Parsed(U8(w.value % 0x100), w.pos))
    case Word16 =>
      var w :- ReadUint16(d, p); Ok(Parsed(U16(w.value), w.pos))
    case SignedWord16 =>
      var w :- ReadInt16(d, p); Ok(Parsed(I16(w.value), w.pos))
    case Word32 =>
      var w :- ReadUint32(d, p); Ok(Parsed(U32(w.value), w.pos))
    case SignedWord32 =>
      var w :- ReadInt32(d, p); Ok(Parsed(I32(w.value), w.pos))
  }


  /** The reads of `fs` in order, each value appended to `acc`. */
  function DecodeFields(d: bytes, p: nat, fs: seq<Field>, acc: seq<Value>): (r: Result<Parsed<seq<Value>>, Error>)
    ensures r.Ok? ==> p <= r.value.pos && (p <= |d| ==> r.value.pos <= |d|)
    ensures r.Ok? ==> |r.value.value| == |acc| + |fs|
    decreases |fs|
  {
    if fs == [] then Ok(Parsed(acc, p))
    else
      var v :- DecodeField(d, p, fs[0]);
      DecodeFields(d, v.pos, fs[1..], acc + [v.value])
  }

  /** The reads keep the values already there and add one value of each field's type. */
  lemma {:induction false} DecodeFieldsTypes(d: bytes, p: nat, fs: seq<Field>, acc: seq<Value>)
    ensures var r := DecodeFields(d, p, fs, acc);
      r.Ok? ==> r.value.value[..|acc|] == acc && TypesOf(r.value.value) == TypesOf(acc) + FieldTypes(fs)
    decreases |fs|
  {
    if fs == [] {
      assert FieldTypes(fs) == [];
    } else {
      var v := DecodeField(d, p, fs[0]);
      if v.Ok? {
        var acc' := acc + [v.value.value];
        DecodeFieldsTypes(d, v.value.pos, fs[1..], acc');
        var r := DecodeFields(d, v.value.pos, fs[1..], acc');
        if r.Ok? {
          FieldsTypesStep(acc, v.value.value, fs, r.value.value);
        }
      }
    }
  }

  /** One step of `DecodeFieldsTypes`: a value of the first field's type, then the rest. */
  lemma FieldsTypesStep(acc: seq<Value>, v: Value, fs: seq<Field>, vs: seq<Value>)
    requires |fs| > 0 && TypeOf(v) == FieldType(fs[0])
    requires |acc| < |vs| && vs[..|acc + [v]|] == acc + [v] && TypesOf(vs) == TypesOf(acc + [v]) + FieldTypes(fs[1..])
    ensures vs[..|acc|] == acc && TypesOf(vs) == TypesOf(acc) + FieldTypes(fs)
  {
    TypesOfAppend(acc, [v]);
    assert FieldTypes(fs) == [FieldType(fs[0])] + FieldTypes(fs[1..]);
    assert vs[..|acc|] == (vs[..|acc + [v]|])[..|acc|];
  }

  /** `n` copies of a type pattern, one per entry of a counted group. */
  function Repeat(ts: seq<Type>, n: nat): seq<Type>
  {
    if n == 0 then [] else ts + Repeat(ts, n - 1)
  }

  lemma {:induction false} RepeatLength(ts: seq<Type>, n: nat)
    ensures |Repeat(ts, n)| == n * |ts|
  {
    if n > 0 {
      RepeatLength(ts, n - 1);
    }
  }

  /** `n` entries of a counted group, each appended to `acc`. */
  function DecodeEntries(d: bytes, p: nat, entry: seq<Field>, n: nat, acc: seq<Value>): (r: Result<Parsed<seq<Value>>, Error>)
    ensures r.Ok? ==> p <= r.value.pos && (p <= |d| ==> r.value.pos <= |d|)
    ensures r.Ok? ==> |acc| <= |r.value.value|
    decreases n
  {
    if n == 0 then Ok(Parsed(acc, p))
    else
      var e :- DecodeFields(d, p, entry, acc);
      DecodeEntries(d, e.pos, entry, n - 1, e.value)
  }

  /** The entries keep the values already there and add the entry's types `n` times over. */
  lemma {:induction false} DecodeEntriesTypes(d: bytes, p: nat, entry: seq<Field>, n: nat, acc: seq<Value>)
    ensures var r := DecodeEntries(d, p, entry, n, acc);
      r.Ok? ==> r.value.value[..|acc|] == acc && TypesOf(r.value.value) == TypesOf(acc) + Repeat(FieldTypes(entry), n)
    decreases n
  {
    if n > 0 {
      var e := DecodeFields(d, p, entry, acc);
      if e.Ok? {
        DecodeFieldsTypes(d, p, entry, acc);
        DecodeEntriesTypes(d, e.value.pos, entry, n - 1, e.value.value);
        var r := DecodeEntries(d, e.value.pos, entry, n - 1, e.value.value);
        if r.Ok? {
          assert r.value.value[..|acc|] == (r.value.value[..|e.value.value|])[..|acc|];
        }
      }
    }
  }

  /** The count a counted group stores as its first value. */
  function CountOf(v: Value): nat
  {
    match v
    case U16(n) => n
    case U32(n) => n
    case _ => 0
  }

  function CountField(wide: bool): Field
  {
    if wide then Word32 else Word16
  }

  /** The value types `layout` produces, given the count stored first by a counted group. */
  predicate Fits(layout: Layout, vs: seq<Value>)
  {
    match layout
    case Fixed(fs) => TypesOf(vs) == FieldTypes(fs)
    case Counted(wide, entry, _, trailer) =>
      |vs| >= 1 && TypeOf(vs[0]) == FieldType(CountField(wide)) &&
      TypesOf(vs) == [FieldType(CountField(wide))] + Repeat(FieldTypes(entry), CountOf(vs[0])) + FieldTypes(trailer)
  }

  lemma CountedFits(wide: bool, entry: seq<Field>, reserve: nat, trailer: seq<Field>, c: Value, es: seq<Value>, vs: seq<Value>)
    requires TypeOf(c) == FieldType(CountField(wide))
    requires TypesOf(es) == TypesOf([c]) + Repeat(FieldTypes(entry), CountOf(c))
    requires 1 <= |es| && es[..1] == [c]
    requires TypesOf(vs) == TypesOf(es) + FieldTypes(trailer)
    requires |es| <= |vs| && vs[..|es|] == es
    ensures Fits(Counted(wide, entry, reserve, trailer), vs)
  {
    assert TypesOf([c]) == [TypeOf(c)];
    assert es[0] == c by {
      assert es[..1][0] == es[0];
    }
    assert vs[0] == es[0] by {
      assert vs[..|es|][0] == vs[0];
    }
  }

  /** Field `j` of a fixed layout that `vs` fits is stored at index `j`. */
  lemma FixedAt(fs: seq<Field>, vs: seq<Value>, j: nat)
    requires Fits(Fixed(fs), vs) && j < |fs|
    ensures j < |vs| && TypeOf(vs[j]) == FieldType(fs[j])
  {
    assert TypesOf(vs)[j] == FieldTypes(fs)[j];
  }

  /** Position `i · |ts| + j` of `n` repetitions of `ts` holds `ts[j]`, for every `i < n`. */
  lemma {:induction false} RepeatAt(ts: seq<Type>, n: nat, i: nat, j: nat)
    requires i < n && j < |ts|
    ensures i * |ts| + j < |Repeat(ts, n)| && Repeat(ts, n)[i * |ts| + j] == ts[j]
  {
    if i > 0 {
      RepeatAt(ts, n - 1, i - 1, j);
      MulStep(i, |ts|);
    }
  }

  /** Field `j` of entry `i` of a counted layout that `vs` fits is stored at 1 + i·|entry| + j. */
  lemma CountedAt(layout: Layout, vs: seq<Value>, i: nat, j: nat)
    requires layout.Counted? && Fits(layout, vs)
    requires i < CountOf(vs[0]) && j < |layout.entry|
    ensures 1 + i * |layout.entry| + j < |vs| && TypeOf(vs[1 + i * |layout.entry| + j]) == FieldType(layout.entry[j])
  {
    var k := i * |layout.entry| + j;
    RepeatAt(FieldTypes(layout.entry), CountOf(vs[0]), i, j);
    assert TypesOf(vs)[1 + k] == Repeat(FieldTypes(layout.entry), CountOf(vs[0]))[k];
  }

  /** The values of one opcode's case, starting with an empty value list. */
  function DecodeLayout(d: bytes, p: nat, layout: Layout): (r: Result<Parsed<seq<Value>>, Error>)
    ensures r.Ok? ==> p <= r.value.pos && (p <= |d| ==> r.value.pos <= |d|)
  {
    match layout
    case Fixed(fs) => DecodeFields(d, p, fs, [])
    case Counted(wide, entry, reserve, trailer) =>
      var c :- DecodeField(d, p, CountField(wide));
      var es :- DecodeEntries(d, c.pos, entry, CountOf(c.value), [c.value]);
      DecodeFields(d, es.pos, trailer, es.value)
  }

  /** Whatever a layout decodes fits it. */
  lemma DecodeLayoutFits(d: bytes, p: nat, layout: Layout)
    ensures DecodeLayout(d, p, layout).Ok? ==> Fits(layout, DecodeLayout(d, p, layout).value.value)
  {
    match layout
    case Fixed(fs) =>
      DecodeFieldsTypes(d, p, fs, []);
    case Counted(wide, entry, reserve, trailer) =>
      var c := DecodeField(d, p, CountField(wide));
      if c.Ok? {
        var es := DecodeEntries(d, c.value.pos, entry, CountOf(c.value.value), [c.value.value]);
        DecodeEntriesTypes(d, c.value.pos, entry, CountOf(c.value.value), [c.value.value]);
        if es.Ok? {
          DecodeFieldsTypes(d, es.value.pos, trailer, es.value.value);
          var r := DecodeFields(d, es.value.pos, trailer, es.value.value);
          if r.Ok? {
            CountedFits(wide, entry, reserve, trailer, c.value.value, es.value.value, r.value.value);
          }
        }
      }
  }

  /** A decoded command: its opcode, its values, and the position after it. */
  datatype Decoded = Decoded(op: Opcode, values: seq<Value>, pos: nat)

  /** `FOX5Command::parseData` on a fresh command. */
  function DecodeCommand(copy: Copy, d: bytes, p: nat): (r: Result<Decoded, Error>)
    ensures p >= |d| ==> r == Err(EndOfData(1))
    ensures p < |d| && OpcodeOf(d[p]).None? ==> r == Err(UnknownCommand(d[p]))
    ensures r.Ok? ==> p < r.value.pos <= |d|
    ensures r.Ok? ==> Code(r.value.op) == d[p]
  {
    var b :- ReadUint8(d, p);
    CodeOfOpcode(b.value);
    match OpcodeOf(b.value)
    case None => Err(UnknownCommand(b.value))
    case Some(op) =>
      var vs :- DecodeLayout(d, b.pos, LayoutOf(copy, op));
      Ok(Decoded(op, vs.value, vs.pos))
  }

  /** Every command the decoder accepts has the values its opcode's layout prescribes. */
  lemma DecodedFits(copy: Copy, d: bytes, p: nat)
    requires DecodeCommand(copy, d, p).Ok?
    ensures Fits(LayoutOf(copy, DecodeCommand(copy, d, p).value.op), DecodeCommand(copy, d, p).value.values)
  {
    var b := ReadUint8(d, p).value;
    var op := OpcodeOf(b.value).value;
    DecodeLayoutFits(d, b.pos, LayoutOf(copy, op));
  }

  // ---------------------------------------------------------------------------
  // What the table says about particular opcodes

  /** `LIST_START` decodes to exactly `[UInt8 level, UInt32 count]`, six bytes in all. */
  lemma ListStartValues(copy: Copy, d: bytes, p: nat)
    requires p < |d| && d[p] == Code(ListStart)
    ensures DecodeCommand(copy, d, p).Ok? <==> p + 6 <= |d|
    ensures p + 6 <= |d| ==>
              DecodeCommand(copy, d, p) ==
              Ok(Decoded(ListStart, [U8(d[p + 1]), U32(Be32(d[p + 2], d[p + 3], d[p + 4], d[p + 5]))], p + 6))
  {
    OpcodeOfCode(ListStart);
    var b := ReadUint8(d, p).value;
    assert b.pos == p + 1;
    if p + 6 <= |d| {
      var l := DecodeField(d, p + 1, Byte).value;
      var c := DecodeField(d, p + 2, Word32).value;
      assert l == Parsed(U8(d[p + 1]), p + 2);
      assert c == Parsed(U32(Be32(d[p + 2], d[p + 3], d[p + 4], d[p + 5])), p + 6);
      var fs := [Byte, Word32];
      assert fs[1..][1..] == [] && fs[1..] == [Word32] && fs[0] == Byte;
      assert [] + [l.value] == [l.value] && [l.value] + [c.value] == [l.value, c.value];
      assert DecodeFields(d, p + 6, [], [l.value, c.value]) == Ok(Parsed([l.value, c.value], p + 6));
      assert DecodeFields(d, p + 2, [Word32], [l.value]) == Ok(Parsed([l.value, c.value], p + 6));
      assert DecodeFields(d, p + 1, fs, []) == Ok(Parsed([l.value, c.value], p + 6));
    } else {
      FixedFieldsWidth(d, p + 1, [Byte, Word32], []);
      assert Width([Byte, Word32]) == 5;
    }
  }

  /** A byte outside the opcode table is rejected, naming the byte. */
  lemma UnknownByteRejected(copy: Copy, d: bytes, p: nat)
    requires p < |d| && forall op :: Code(op) != d[p]
    ensures DecodeCommand(copy, d, p) == Err(UnknownCommand(d[p]))
  {
    CodeOfOpcode(d[p]);
  }

  /** `LIST_END` carries no values: it decodes to itself alone, one byte. */
  lemma ListEndValues(copy: Copy, d: bytes, p: nat)
    requires p < |d| && d[p] == Code(ListEnd)
    ensures DecodeCommand(copy, d, p) == Ok(Decoded(ListEnd, [], p + 1))
  {
    OpcodeOfCode(ListEnd);
  }

  /** `FILE_GENERATOR` carries one byte: two bytes in all. */
  lemma GeneratorValues(copy: Copy, d: bytes, p: nat)
    requires p + 2 <= |d| && d[p] == Code(FileGenerator)
    ensures DecodeCommand(copy, d, p) == Ok(Decoded(FileGenerator, [U8(d[p + 1])], p + 2))
  {
    OpcodeOfCode(FileGenerator);
    var l := DecodeField(d, p + 1, Byte).value;
    assert l == Parsed(U8(d[p + 1]), p + 2);
    assert [Byte][1..] == [];
    assert [] + [l.value] == [l.value];
    assert DecodeFields(d, p + 2, [], [l.value]) == Ok(Parsed([l.value], p + 2));
  }

  /**
   * `FILE_IMAGE_LIST` decodes to 1 + 4·count values: the count, then
   * (UInt32, UInt16, UInt16, UInt8) per image. `DecodeCommand` guarantees
   * `Fits` for the opcode it decodes.
   */
  lemma ImageListValues(copy: Copy, vs: seq<Value>)
    requires Fits(LayoutOf(copy, FileImageList), vs)
    ensures vs[0].U32? && |vs| == 1 + 4 * vs[0].u32
    ensures TypesOf(vs) == [UInt32] + Repeat([UInt32, UInt16, UInt16, UInt8], vs[0].u32)
  {
    assert FieldTypes([Word32, Word16, Word16, Byte]) == [UInt32, UInt16, UInt16, UInt8];
    assert FieldTypes([]) == [];
    assert TypesOf(vs)[0] == UInt32;
    RepeatLength([UInt32, UInt16, UInt16, UInt8], vs[0].u32);
  }

  /**
   * `OBJECT_AUTHORS_HASH` has no `break`: after the count and its `count`
   * byte arrays it also reads the one byte of `OBJECT_LICENSE`, stored last.
   */
  lemma AuthorsHashFallsThrough(copy: Copy, vs: seq<Value>)
    requires Fits(LayoutOf(copy, ObjectAuthorsHash), vs)
    ensures vs[0].U16? && |vs| == vs[0].u16 + 2
    ensures forall i :: 1 <= i < |vs| - 1 ==> vs[i].Blob?
    ensures vs[|vs| - 1].U8?
  {
    var n := vs[0].u16;
    assert FieldTypes([SizedBytes]) == [Bytes];
    assert FieldTypes([Byte]) == [UInt8];
    RepeatAll(Bytes, n);
    RepeatLength([Bytes], n);
    assert TypesOf(vs)[|vs| - 1] == UInt8;
    forall i | 1 <= i < |vs| - 1
      ensures vs[i].Blob?
    {
      assert TypesOf(vs)[i] == Repeat([Bytes], n)[i - 1];
    }
  }

  lemma {:induction false} RepeatAll(t: Type, n: nat)
    ensures |Repeat([t], n)| == n && forall i :: 0 <= i < n ==> Repeat([t], n)[i] == t
  {
    if n > 0 {
      RepeatAll(t, n - 1);
      assert Repeat([t], n) == [t] + Repeat([t], n - 1);
    }
  }

  /** Reads of data-independent width consume exactly their total width, and fail only when it does not fit. */
  lemma {:induction false} FixedFieldsWidth(d: bytes, p: nat, fs: seq<Field>, acc: seq<Value>)
    requires AllFixed(fs) && p <= |d|
    ensures DecodeFields(d, p, fs, acc).Ok? <==> p + Width(fs) <= |d|
    ensures DecodeFields(d, p, fs, acc).Ok? ==> DecodeFields(d, p, fs, acc).value.pos == p + Width(fs)
    decreases |fs|
  {
    if fs != [] {
      var w := FixedWidth(fs[0]).value;
      assert AllFixed(fs[1..]) by {
        forall i | 0 <= i < |fs[1..]| ensures FixedWidth(fs[1..][i]).Some? { assert fs[1..][i] == fs[i + 1]; }
      }
      var v := DecodeField(d, p, fs[0]);
      if v.Ok? {
        FixedFieldsWidth(d, v.value.pos, fs[1..], acc + [v.value.value]);
        if fs[1..] == [] {
          assert Width(fs) == w;
        }
      }
    }
  }

  /** `n` entries of fixed width `w` consume exactly `n·w` bytes. */
  lemma {:induction false} FixedEntriesWidth(d: bytes, p: nat, entry: seq<Field>, n: nat, acc: seq<Value>)
    requires AllFixed(entry) && p <= |d|
    ensures DecodeEntries(d, p, entry, n, acc).Ok? <==> p + n * Width(entry) <= |d|
    ensures DecodeEntries(d, p, entry, n, acc).Ok? ==> DecodeEntries(d, p, entry, n, acc).value.pos == p + n * Width(entry)
    decreases n
  {
    if n > 0 {
      FixedFieldsWidth(d, p, entry, acc);
      MulStep(n, Width(entry));
      var e := DecodeFields(d, p, entry, acc);
      if e.Ok? {
        FixedEntriesWidth(d, e.value.pos, entry, n - 1, e.value.value);
      }
    }
  }

  lemma ProductNat(a: nat, b: nat)
    ensures a * b >= 0
  {
  }

  lemma MulStep(n: nat, w: nat)
    requires n > 0
    ensures n * w == w + (n - 1) * w && (n - 1) * w >= 0
  {
  }

  /**
   * The two copies disagree on `FRAME_ATTACH_SOCKETS`: each entry is 8 bytes in
   * one (a `readUint16` truncated to `uint8_t`, then 3 × `int16`) and 7 bytes in
   * the other (`readUint8`, then 3 × `int16`). A command with `count` entries
   * takes the opcode byte, the 2-byte count and the entries.
   */
  lemma SocketEntryWidth(copy: Copy, d: bytes, p: nat)
    requires p + 3 <= |d| && d[p] == Code(FrameAttachSockets)
    ensures var count := Be16(d[p + 1], d[p + 2]);
      var w := if copy == Fox5Copy then 8 else 7;
      (DecodeCommand(copy, d, p).Ok? <==> p + 3 + count * w <= |d|) &&
      (DecodeCommand(copy, d, p).Ok? ==> DecodeCommand(copy, d, p).value.pos == p + 3 + count * w)
  {
    var layout := LayoutOf(copy, FrameAttachSockets);
    SocketLayout(copy);
    DecodeCommandAt(copy, d, p, FrameAttachSockets);
    CountedWidth(d, p + 1, layout.entry, layout.reserve);
  }

  /** A socket entry: four fixed-width reads, 8 bytes in one copy and 7 in the other, after a 16-bit count. */
  lemma SocketLayout(copy: Copy)
    ensures var layout := LayoutOf(copy, FrameAttachSockets);
      layout.Counted? && !layout.wide && layout.trailer == [] &&
      AllFixed(layout.entry) && Width(layout.entry) == (if copy == Fox5Copy then 8 else 7)
  {
    var entry := LayoutOf(copy, FrameAttachSockets).entry;
    assert entry[1..][1..][1..][1..] == [];
  }

  /** A command whose opcode byte is `op`'s code: the values of `op`'s layout, read after that byte. */
  lemma DecodeCommandAt(copy: Copy, d: bytes, p: nat, op: Opcode)
    requires p < |d| && d[p] == Code(op)
    ensures var vs := DecodeLayout(d, p + 1, LayoutOf(copy, op));
      DecodeCommand(copy, d, p) == if vs.Ok? then Ok(Decoded(op, vs.value.value, vs.value.pos)) else Err(vs.error)
  {
    OpcodeOfCode(op);
  }

  /** A 16-bit count of entries of fixed width `Width(entry)`, with nothing after them. */
  lemma CountedWidth(d: bytes, q: nat, entry: seq<Field>, reserve: nat)
    requires AllFixed(entry) && q + 2 <= |d|
    ensures var n := Be16(d[q], d[q + 1]);
      var r := DecodeLayout(d, q, Counted(false, entry, reserve, []));
      (r.Ok? <==> q + 2 + n * Width(entry) <= |d|) && (r.Ok? ==> r.value.pos == q + 2 + n * Width(entry))
  {
    var c := DecodeField(d, q, Word16).value;
    assert c.value == U16(Be16(d[q], d[q + 1]));
    FixedEntriesWidth(d, q + 2, entry, CountOf(c.value), [c.value]);
    var es := DecodeEntries(d, q + 2, entry, CountOf(c.value), [c.value]);
    if es.Ok? {
      assert DecodeFields(d, es.value.pos, [], es.value.value) == Ok(es.value);
    }
  }

  // ---------------------------------------------------------------------------
  // getValue<T>()

  /** `getValue<T>()` at index `i`: missing past the end (undefined in C++), a `bad_variant_access` on another type. */
  function Take(vs: seq<Value>, i: nat, t: Type): (r: Result<Value, Error>)
    ensures r.Ok? <==> i < |vs| && TypeOf(vs[i]) == t
    ensures r.Ok? ==> r.value == vs[i]
    ensures i >= |vs| ==> r == Err(MissingValue)
    ensures i < |vs| && TypeOf(vs[i]) != t ==> r == Err(BadVariantAccess)
  {
    if i >= |vs| then Err(MissingValue)
    else if TypeOf(vs[i]) != t then Err(BadVariantAccess)
    else Ok(vs[i])
  }

  /** Appending a value leaves every earlier value where it was, and the new one is next in line. */
  lemma TakeAfterAppend(vs: seq<Value>, v: Value, i: nat, t: Type)
    ensures i < |vs| ==> Take(vs + [v], i, t) == Take(vs, i, t)
    ensures Take(vs + [v], |vs|, TypeOf(v)) == Ok(v)
    ensures t != TypeOf(v) ==> Take(vs + [v], |vs|, t) == Err(BadVariantAccess)
  {
  }

  function TakeU8(vs: seq<Value>, i: nat): (r: Result<uint8, Error>)
    ensures r == (var v :- Take(vs, i, UInt8); Ok(v.u8))
  {
    if i >= |vs| then Err(MissingValue) else if vs[i].U8? then Ok(vs[i].u8) else Err(BadVariantAccess)
  }

  function TakeU16(vs: seq<Value>, i: nat): (r: Result<uint16, Error>)
    ensures r == (var v :- Take(vs, i, UInt16); Ok(v.u16))
  {
    if i >= |vs| then Err(MissingValue) else if vs[i].U16? then Ok(vs[i].u16) else Err(BadVariantAccess)
  }

  function TakeI16(vs: seq<Value>, i: nat): (r: Result<int16, Error>)
    ensures r == (var v :- Take(vs, i, Int16); Ok(v.i16))
  {
    if i >= |vs| then Err(MissingValue) else if vs[i].I16? then Ok(vs[i].i16) else Err(BadVariantAccess)
  }

  function TakeU32(vs: seq<Value>, i: nat): (r: Result<uint32, Error>)
    ensures r == (var v :- Take(vs, i, UInt32); Ok(v.u32))
  {
    if i >= |vs| then Err(MissingValue) else if vs[i].U32? then Ok(vs[i].u32) else Err(BadVariantAccess)
  }

  function TakeI32(vs: seq<Value>, i: nat): (r: Result<int32, Error>)
    ensures r == (var v :- Take(vs, i, Int32); Ok(v.i32))
  {
    if i >= |vs| then Err(MissingValue) else if vs[i].I32? then Ok(vs[i].i32) else Err(BadVariantAccess)
  }

  function TakeStr(vs: seq<Value>, i: nat): (r: Result<string, Error>)
    ensures r == (var v :- Take(vs, i, String); Ok(v.str))
  {
    if i >= |vs| then Err(MissingValue) else if vs[i].Str? then Ok(vs[i].str) else Err(BadVariantAccess)
  }

  // ---------------------------------------------------------------------------
  // The command object

  function Max(a: nat, b: nat): nat
  {
    if a < b then b else a
  }

  /** A step's outcome as the pure readers give it: the values and position on success. */
  function Lift(r: Result<(), Error>, vs: seq<Value>, pos: nat): Result<Parsed<seq<Value>>, Error>
  {
    if r.Ok? then Ok(Parsed(vs, pos)) else Err(r.error)
  }

  /** One read of the `switch`, through the cursor. */
  method NextField(cur: Cursor, f: Field) returns (r: Result<Value, Error>)
    modifies cur
    ensures DecodeField(cur.data, old(cur.pos), f) == (if r.Ok? then Ok(Parsed(r.value, cur.pos)) else Err(r.error))
  {
    match f
    case Byte =>
      var b :- cur.NextUint8(); r := Ok(U8(b));
    case Word16As8 =>
      var w :- cur.NextUint16(); r := Ok(U8(w % 0x100));
    case Word16 =>
      var w :- cur.NextUint16(); r := Ok(U16(w));
    case SignedWord16 =>
      var w :- cur.NextInt16(); r := Ok(I16(w));
    case Word32 =>
      var w :- cur.NextUint32(); r := Ok(U32(w));
    case SignedWord32 =>
      var w :- cur.NextInt32(); r := Ok(I32(w));
    case SizedString =>
      var n :- cur.NextUint16();
      var s :- cur.NextString(n);
      r := Ok(Str(s));
    case SizedBytes =>
      var n :- cur.NextUint16();
      var s :- cur.NextBytes(n);
      r := Ok(Blob(s));
  }

  class Command {
    var op: Opcode
    var values: seq<Value>
    var capacity: nat
    var index: nat

    constructor ()
      ensures op == Nop && values == [] && capacity == 0 && index == 0
    {
      op := Nop;
      values := [];
      capacity := 0;
      index := 0;
    }

    /** `addValue`: one value appended; earlier values and their order are kept. */
    method AddValue(v: Value)
      modifies this
      ensures values == old(values) + [v]
      ensures capacity == Max(old(capacity), |values|)
      ensures op == old(op) && index == old(index)
    {
      values := values + [v];
      capacity := Max(capacity, |values|);
    }

    /** `reserveValues`: room for `n` more values; the contents do not change. */
    method ReserveValues(n: nat)
      modifies this
      ensures values == old(values) && op == old(op) && index == old(index)
      ensures capacity == Max(old(capacity), |values| + n)
    {
      capacity := Max(capacity, |values| + n);
    }

    /** `getValue<T>()`: the value at `mIndex`, which advances on every call, failing ones included. */
    method GetValue(t: Type) returns (r: Result<Value, Error>)
      modifies this
      ensures r == Take(values, old(index), t) && index == old(index) + 1
      ensures values == old(values) && op == old(op) && capacity == old(capacity)
    {
      r := Take(values, index, t);
      index := index + 1;
    }

    method GetU8() returns (r: Result<uint8, Error>)
      modifies this
      ensures r == TakeU8(values, old(index)) && index == old(index) + 1
      ensures values == old(values) && op == old(op) && capacity == old(capacity)
    {
      var v := GetValue(UInt8);
      r := if v.Ok? then Ok(v.value.u8) else Err(v.error);
    }

    method GetU16() returns (r: Result<uint16, Error>)
      modifies this
      ensures r == TakeU16(values, old(index)) && index == old(index) + 1
      ensures values == old(values) && op == old(op) && capacity == old(capacity)
    {
      var v := GetValue(UInt16);
      r := if v.Ok? then Ok(v.value.u16) else Err(v.error);
    }

    method GetI16() returns (r: Result<int16, Error>)
      modifies this
      ensures r == TakeI16(values, old(index)) && index == old(index) + 1
      ensures values == old(values) && op == old(op) && capacity == old(capacity)
    {
      var v := GetValue(Int16);
      r := if v.Ok? then Ok(v.value.i16) else Err(v.error);
    }

    method GetU32() returns (r: Result<uint32, Error>)
      modifies this
      ensures r == TakeU32(values, old(index)) && index == old(index) + 1
      ensures values == old(values) && op == old(op) && capacity == old(capacity)
    {
      var v := GetValue(UInt32);
      r := if v.Ok? then Ok(v.value.u32) else Err(v.error);
    }

    method GetI32() returns (r: Result<int32, Error>)
      modifies this
      ensures r == TakeI32(values, old(index)) && index == old(index) + 1
      ensures values == old(values) && op == old(op) && capacity == old(capacity)
    {
      var v := GetValue(Int32);
      r := if v.Ok? then Ok(v.value.i32) else Err(v.error);
    }

    method GetString() returns (r: Result<string, Error>)
      modifies this
      ensures r == TakeStr(values, old(index)) && index == old(index) + 1
      ensures values == old(values) && op == old(op) && capacity == old(capacity)
    {
      var v := GetValue(String);
      r := if v.Ok? then Ok(v.value.str) else Err(v.error);
    }

    /** The reads of `fs`, each value appended. */
    method ReadFields(cur: Cursor, fs: seq<Field>) returns (r: Result<(), Error>)
      modifies this, cur
      ensures DecodeFields(cur.data, old(cur.pos), fs, old(values)) == Lift(r, values, cur.pos)
      ensures op == old(op) && index == old(index)
    {
      var i := 0;
      while i < |fs|
        invariant 0 <= i <= |fs|
        invariant DecodeFields(cur.data, old(cur.pos), fs, old(values)) == DecodeFields(cur.data, cur.pos, fs[i..], values)
        invariant op == old(op) && index == old(index)
      {
        var v := NextField(cur, fs[i]);
        if v.Err? {
          return Err(v.error);
        }
        assert fs[i..][1..] == fs[i + 1..];
        AddValue(v.value);
        i := i + 1;
      }
      return Ok(());
    }

    /** `n` entries of a counted group. */
    method ReadEntries(cur: Cursor, entry: seq<Field>, n: nat) returns (r: Result<(), Error>)
      modifies this, cur
      ensures DecodeEntries(cur.data, old(cur.pos), entry, n, old(values)) == Lift(r, values, cur.pos)
      ensures op == old(op) && index == old(index)
    {
      var i := 0;
      while i < n
        invariant 0 <= i <= n
        invariant DecodeEntries(cur.data, old(cur.pos), entry, n, old(values)) == DecodeEntries(cur.data, cur.pos, entry, n - i, values)
        invariant op == old(op) && index == old(index)
      {
        r := ReadFields(cur, entry);
        if r.Err? {
          return;
        }
        i := i + 1;
      }
      return Ok(());
    }

    /** The reads of one opcode's case, into an empty value list. */
    method ReadLayout(cur: Cursor, layout: Layout) returns (r: Result<(), Error>)
      requires values == []
      modifies this, cur
      ensures DecodeLayout(cur.data, old(cur.pos), layout) == Lift(r, values, cur.pos)
      ensures op == old(op) && index == old(index)
    {
      match layout
      case Fixed(fs) =>
        if |fs| > 1 {
          ReserveValues(|fs|);
        }
        r := ReadFields(cur, fs);
      case Counted(wide, entry, reserve, trailer) =>
        r := ReadCounted(cur, wide, entry, reserve, trailer);
    }

    /** A counted case: the count, room for its entries, the entries, then the fields after them. */
    method ReadCounted(cur: Cursor, wide: bool, entry: seq<Field>, reserve: nat, trailer: seq<Field>) returns (r: Result<(), Error>)
      requires values == []
      modifies this, cur
      ensures DecodeLayout(cur.data, old(cur.pos), Counted(wide, entry, reserve, trailer)) == Lift(r, values, cur.pos)
      ensures op == old(op) && index == old(index)
    {
      var c := NextField(cur, CountField(wide));
      if c.Err? {
        return Err(c.error);
      }
      var n := CountOf(c.value);
      ProductNat(n, reserve);
      ReserveValues(1 + n * reserve);
      AddValue(c.value);
      assert values == [c.value];
      r := ReadEntries(cur, entry, n);
      if r.Err? {
        return;
      }
      r := ReadFields(cur, trailer);
    }

    /** `FOX5Command::parseData`: the opcode byte, then the reads its case makes. */
    method ParseData(copy: Copy, cur: Cursor) returns (r: Result<(), Error>)
      requires values == []
      modifies this, cur
      ensures DecodeCommand(copy, cur.data, old(cur.pos)) ==
        (if r.Ok? then Ok(Decoded(op, values, cur.pos)) else Err(r.error))
      ensures index == old(index)
    {
      var b := cur.NextUint8();
      if b.Err? {
        return Err(b.error);
      }
      var o := OpcodeOf(b.value);
      if o.None? {
        return Err(UnknownCommand(b.value));
      }
      op := o.value;
      r := ReadLayout(cur, LayoutOf(copy, op));
    }
  }
}
