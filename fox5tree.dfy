/**
 * The entity tree of a FOX5 command block: File > Object > Shape > Frame >
 * Channel, each read by a `parseData` loop over the shared cursor.
 *
 * Each loop reads one command, then acts on its opcode: `LIST_END` ends the
 * entity, `LIST_START` (with the level the entity expects) reads exactly
 * `count` children from the same cursor, a table opcode the entity handles
 * sets fields from the command's values in order, and every other opcode is
 * decoded and dropped. The loop also ends when the cursor reaches the end.
 *
 * The pure functions (`ChannelLoop` ... `FileLoop`) say what a loop computes;
 * the methods (`ParseChannel` ... ) run it imperatively, a `Command` per
 * iteration, and are proved to compute the same thing.
 */
module Fox5Tree {
  import opened Wrappers
  import opened Common
  import opened FileCommon
  import opened Fox5Command

  /**
   * The two `int16` arguments of a Kitterspeak entry are function arguments in
   * the C++, so the order of their two `getValue` calls is unspecified.
   */
  datatype ArgOrder = LeftToRight | RightToLeft

  datatype Config = Config(copy: Copy, order: ArgOrder)

  /** A sprite channel. Fields the source leaves uninitialised are `None` until a command sets them. */
  datatype Channel = Channel(purpose: Option<uint16>, imageId: Option<uint16>, offset: (int16, int16))

  datatype Frame = Frame(frameOffset: (int16, int16), furreOffset: (int16, int16), sprites: seq<Channel>)

  datatype Kitterspeak = Kitterspeak(command: uint16, arg1: int16, arg2: int16)

  datatype Shape = Shape(
    purpose: Option<uint8>, state: Option<uint8>, direction: Option<uint8>,
    ratio: (uint8, uint8), kitterspeak: seq<Kitterspeak>, frames: seq<Frame>)

  datatype Object = Object(
    authorRevision: Option<uint32>, authors: seq<string>, license: Option<uint8>,
    keywords: seq<string>, name: string, description: string, flags: Option<uint8>,
    uri: string, moreFlags: Option<uint32>, objectId: Option<int32>, editType: Option<uint8>,
    filterTarget: Option<uint8>, filterMode: Option<uint8>, shapes: seq<Shape>)

  /** An image descriptor: where the image sits in the image region, and how to size its buffer. */
  datatype Image = Image(offset: uint32, compressedSize: uint32, width: uint16, height: uint16, format: uint8)

  /** The fields of the file that its `parseData` sets. */
  datatype Contents = Contents(generator: Option<uint8>, images: seq<Image>, objects: seq<Object>)

  /** Freshly constructed entities: offsets and ratio are zero-initialised, the rest unset or empty. */
  const NewChannel := Channel(None, None, (0, 0))
  const NewFrame := Frame((0, 0), (0, 0), [])
  const NewShape := Shape(None, None, None, (0, 0), [], [])
  const NewObject := Object(None, [], None, [], [], [], None, [], None, None, None, None, None, [])

  /** `std::vector::resize`: truncate, or pad with empty strings. */
  function Resize(xs: seq<string>, n: nat): (r: seq<string>)
    ensures |r| == n
    ensures forall i :: 0 <= i < n && i < |xs| ==> r[i] == xs[i]
    ensures forall i :: |xs| <= i < n ==> r[i] == []
  {
    if |xs| >= n then xs[..n] else xs + seq(n - |xs|, _ => [])
  }

  // ---------------------------------------------------------------------------
  // The `switch` bodies: what a handled opcode does to its entity

  function ApplyChannel(c: Channel, op: Opcode, vs: seq<Value>): Result<Channel, Error>
  {
    match op
    case ChannelPurpose =>
      var v :- TakeU16(vs, 0); Ok(c.(purpose := Some(v)))
    case ChannelImageId =>
      var v :- TakeU16(vs, 0); Ok(c.(imageId := Some(v)))
    case ChannelOffset =>
      var x :- TakeI16(vs, 0); var y :- TakeI16(vs, 1); Ok(c.(offset := (x, y)))
    case _ => Ok(c)
  }

  function ApplyFrame(f: Frame, op: Opcode, vs: seq<Value>): Result<Frame, Error>
  {
    match op
    case FrameOffset =>
      var x :- TakeI16(vs, 0); var y :- TakeI16(vs, 1); Ok(f.(frameOffset := (x, y)))
    case FrameFurreOffset =>
      var x :- TakeI16(vs, 0); var y :- TakeI16(vs, 1); Ok(f.(furreOffset := (x, y)))
    case _ => Ok(f)
  }

  /**
   * Entry `i` of a Kitterspeak command: the (UInt16, Int16, Int16) group at
   * 1 + 3·i, after the count. The two `int16` values go to `arg1` and `arg2`
   * in the order the `getValue` calls are evaluated.
   */
  function KitterspeakAt(order: ArgOrder, vs: seq<Value>, i: nat): (r: Result<Kitterspeak, Error>)
    ensures r.Ok? <==> 3 * i + 3 < |vs| && vs[1 + 3 * i].U16? && vs[2 + 3 * i].I16? && vs[3 + 3 * i].I16?
    ensures r.Ok? ==> vs[1 + 3 * i] == U16(r.value.command)
    ensures r.Ok? && order == LeftToRight ==> vs[2 + 3 * i] == I16(r.value.arg1) && vs[3 + 3 * i] == I16(r.value.arg2)
    ensures r.Ok? && order == RightToLeft ==> vs[2 + 3 * i] == I16(r.value.arg2) && vs[3 + 3 * i] == I16(r.value.arg1)
  {
    var command :- TakeU16(vs, 1 + 3 * i);
    var first :- TakeI16(vs, 2 + 3 * i);
    var second :- TakeI16(vs, 3 + 3 * i);
    Ok(if order == LeftToRight then Kitterspeak(command, first, second) else Kitterspeak(command, second, first))
  }

  /** Entries `i ..< n` of a Kitterspeak command, after those in `acc`. */
  function KitterspeakEntries(order: ArgOrder, vs: seq<Value>, n: nat, i: nat, acc: seq<Kitterspeak>): (r: Result<seq<Kitterspeak>, Error>)
    requires i <= n
    ensures r.Ok? ==> |r.value| == |acc| + (n - i)
    decreases n - i
  {
    if i == n then Ok(acc)
    else
      var k :- KitterspeakAt(order, vs, i);
      KitterspeakEntries(order, vs, n, i + 1, acc + [k])
  }

  function ApplyShape(order: ArgOrder, s: Shape, op: Opcode, vs: seq<Value>): Result<Shape, Error>
  {
    match op
    case ShapePurpose =>
      var v :- TakeU8(vs, 0); Ok(s.(purpose := Some(v)))
    case ShapeState =>
      var v :- TakeU8(vs, 0); Ok(s.(state := Some(v)))
    case ShapeDirection =>
      var v :- TakeU8(vs, 0); Ok(s.(direction := Some(v)))
    case ShapeRatio =>
      var x :- TakeU8(vs, 0); var y :- TakeU8(vs, 1); Ok(s.(ratio := (x, y)))
    case ShapeKitterspeak =>
      var count :- TakeU16(vs, 0);
      var ks :- KitterspeakEntries(order, vs, count, 0, []);
      Ok(s.(kitterspeak := ks))
    case _ => Ok(s)
  }

  /** The strings `i ..< n` of an authors or keywords command, after the count. */
  function StringEntries(vs: seq<Value>, n: nat, i: nat, acc: seq<string>): (r: Result<seq<string>, Error>)
    requires i <= n
    ensures r.Ok? ==> |r.value| == |acc| + (n - i)
    decreases n - i
  {
    if i == n then Ok(acc)
    else
      var s :- TakeStr(vs, 1 + i);
      StringEntries(vs, n, i + 1, acc + [s])
  }

  /**
   * `OBJECT_AUTHORS` and `OBJECT_KEYWORDS` on the list `xs`: `resize(count)`,
   * and then `count` times `push_back` of the strings after the count.
   */
  function CountedStrings(xs: seq<string>, vs: seq<Value>): Result<seq<string>, Error>
  {
    var count :- TakeU16(vs, 0);
    var strs :- StringEntries(vs, count, 0, []);
    Ok(Resize(xs, count) + strs)
  }

  function ApplyObject(o: Object, op: Opcode, vs: seq<Value>): Result<Object, Error>
  {
    match op
    case ObjectAuthorRevision =>
      var v :- TakeU16(vs, 0); Ok(o.(authorRevision := Some(v)))
    case ObjectAuthors =>
      var a :- CountedStrings(o.authors, vs); Ok(o.(authors := a))
    case ObjectLicense =>
      var v :- TakeU8(vs, 0); Ok(o.(license := Some(v)))
    case ObjectKeywords =>
      var k :- CountedStrings(o.keywords, vs); Ok(o.(keywords := k))
    case ObjectName =>
      var v :- TakeStr(vs, 0); Ok(o.(name := v))
    case ObjectDescription =>
      var v :- TakeStr(vs, 0); Ok(o.(description := v))
    case ObjectFlags =>
      var v :- TakeU8(vs, 0); Ok(o.(flags := Some(v)))
    case ObjectUri =>
      var v :- TakeStr(vs, 0); Ok(o.(uri := v))
    case ObjectMoreFlags =>
      var v :- TakeU32(vs, 0); Ok(o.(moreFlags := Some(v)))
    case ObjectIdentifier =>
      var v :- TakeI32(vs, 0); Ok(o.(objectId := Some(v)))
    case ObjectEditType =>
      var v :- TakeU8(vs, 0); Ok(o.(editType := Some(v)))
    case ObjectFilter =>
      var t :- TakeU8(vs, 0); var m :- TakeU8(vs, 1); Ok(o.(filterTarget := Some(t), filterMode := Some(m)))
    case _ => Ok(o)
  }

  /**
   * Image `i` of a `FILE_IMAGE_LIST`: the (UInt32 size, UInt16 width, UInt16
   * height, UInt8 format) group at 1 + 4·i, after the count, placed at `offset`.
   */
  function ImageAt(vs: seq<Value>, i: nat, offset: uint32): (r: Result<Image, Error>)
    ensures r.Ok? <==> 4 * i + 4 < |vs| && vs[1 + 4 * i].U32? && vs[2 + 4 * i].U16? && vs[3 + 4 * i].U16? && vs[4 + 4 * i].U8?
    ensures r.Ok? ==> r.value.offset == offset && vs[1 + 4 * i] == U32(r.value.compressedSize)
    ensures r.Ok? ==> vs[2 + 4 * i] == U16(r.value.width) && vs[3 + 4 * i] == U16(r.value.height) && vs[4 + 4 * i] == U8(r.value.format)
  {
    var size :- TakeU32(vs, 1 + 4 * i);
    var width :- TakeU16(vs, 2 + 4 * i);
    var height :- TakeU16(vs, 3 + 4 * i);
    var format :- TakeU8(vs, 4 + 4 * i);
    Ok(Image(offset, size, width, height, format))
  }

  /**
   * Images `i ..< n` of a `FILE_IMAGE_LIST`, after those in `acc`; `offset` is
   * the running `uint32_t` sum of the sizes before image `i`.
   */
  function ImageEntries(vs: seq<Value>, n: nat, i: nat, offset: uint32, acc: seq<Image>): (r: Result<seq<Image>, Error>)
    requires i <= n
    ensures r.Ok? ==> |r.value| == |acc| + (n - i)
    decreases n - i
  {
    if i == n then Ok(acc)
    else
      var image :- ImageAt(vs, i, offset);
      ImageEntries(vs, n, i + 1, Wrap32(offset + image.compressedSize), acc + [image])
  }

  function ApplyFile(f: Contents, op: Opcode, vs: seq<Value>): Result<Contents, Error>
  {
    match op
    case FileImageList =>
      var count :- TakeU32(vs, 0);
      var images :- ImageEntries(vs, count, 0, 0, []);
      Ok(f.(images := images))
    case FileGenerator =>
      var v :- TakeU8(vs, 0); Ok(f.(generator := Some(v)))
    case _ => Ok(f)
  }

  // ---------------------------------------------------------------------------
  // The `parseData` loops and the child lists

  /** What one turn of an entity's loop decided: go on with the entity, or stop at `LIST_END`. */
  datatype Turn<T> = Next(entity: T) | Stop(entity: T)

  /** One turn of `FOX5Channel::parseData` at `p`: one command, and what the `switch` does with it. */
  function ChannelStep(cfg: Config, d: bytes, p: nat, c: Channel): (r: Result<Parsed<Turn<Channel>>, Error>)
    ensures r.Ok? ==> p < r.value.pos
  {
    var cmd :- DecodeCommand(cfg.copy, d, p);
    if cmd.op == ListStart then Err(ChannelCannotContainLists)
    else if cmd.op == ListEnd then Ok(Parsed(Stop(c), cmd.pos))
    else
      var next :- ApplyChannel(c, cmd.op, cmd.values);
      Ok(Parsed(Next(next), cmd.pos))
  }

  /** `FOX5Channel::parseData` from `p`: turn after turn, until `LIST_END` or the end of the data. */
  function ChannelLoop(cfg: Config, d: bytes, p: nat, c: Channel): (r: Result<Parsed<Channel>, Error>)
    ensures r.Ok? ==> p <= r.value.pos
    decreases |d| - p
  {
    if p >= |d| then Ok(Parsed(c, p))
    else
      var t :- ChannelStep(cfg, d, p, c);
      if t.value.Stop? then Ok(Parsed(t.value.entity, t.pos))
      else ChannelLoop(cfg, d, t.pos, t.value.entity)
  }

  /** `n` more channels, each constructed fresh from the shared cursor, after those in `acc`. */
  function Channels(cfg: Config, d: bytes, p: nat, n: nat, acc: seq<Channel>): (r: Result<Parsed<seq<Channel>>, Error>)
    ensures r.Ok? ==> p <= r.value.pos
    ensures r.Ok? ==> |r.value.value| == |acc| + n
    decreases n
  {
    if n == 0 then Ok(Parsed(acc, p))
    else
      var x :- ChannelLoop(cfg, d, p, NewChannel);
      Channels(cfg, d, x.pos, n - 1, acc + [x.value])
  }

  /** One turn of `FOX5Frame::parseData` at `p`: one command, and what the `switch` does with it. */
  function FrameStep(cfg: Config, d: bytes, p: nat, f: Frame): (r: Result<Parsed<Turn<Frame>>, Error>)
    ensures r.Ok? ==> p < r.value.pos
  {
    var cmd :- DecodeCommand(cfg.copy, d, p);
    if cmd.op == ListStart then
      var level :- TakeU8(cmd.values, 0);
      if level != 4 then Err(UnexpectedLevel(FrameLevel, level))
      else
        var count :- TakeU32(cmd.values, 1);
        var kids :- Channels(cfg, d, cmd.pos, count, []);
        Ok(Parsed(Next(f.(sprites := kids.value)), kids.pos))
    else if cmd.op == ListEnd then Ok(Parsed(Stop(f), cmd.pos))
    else
      var next :- ApplyFrame(f, cmd.op, cmd.values);
      Ok(Parsed(Next(next), cmd.pos))
  }

  /** `FOX5Frame::parseData` from `p`: turn after turn, until `LIST_END` or the end of the data. */
  function FrameLoop(cfg: Config, d: bytes, p: nat, f: Frame): (r: Result<Parsed<Frame>, Error>)
    ensures r.Ok? ==> p <= r.value.pos
    decreases |d| - p
  {
    if p >= |d| then Ok(Parsed(f, p))
    else
      var t :- FrameStep(cfg, d, p, f);
      if t.value.Stop? then Ok(Parsed(t.value.entity, t.pos))
      else FrameLoop(cfg, d, t.pos, t.value.entity)
  }

  /** `n` more frames, each constructed fresh from the shared cursor, after those in `acc`. */
  function Frames(cfg: Config, d: bytes, p: nat, n: nat, acc: seq<Frame>): (r: Result<Parsed<seq<Frame>>, Error>)
    ensures r.Ok? ==> p <= r.value.pos
    ensures r.Ok? ==> |r.value.value| == |acc| + n
    decreases n
  {
    if n == 0 then Ok(Parsed(acc, p))
    else
      var x :- FrameLoop(cfg, d, p, NewFrame);
      Frames(cfg, d, x.pos, n - 1, acc + [x.value])
  }

  /** One turn of `FOX5Shape::parseData` at `p`: one command, and what the `switch` does with it. */
  function ShapeStep(cfg: Config, d: bytes, p: nat, s: Shape): (r: Result<Parsed<Turn<Shape>>, Error>)
    ensures r.Ok? ==> p < r.value.pos
  {
    var cmd :- DecodeCommand(cfg.copy, d, p);
    if cmd.op == ListStart then
      var level :- TakeU8(cmd.values, 0);
      if level != 3 then Err(UnexpectedLevel(ShapeLevel, level))
      else
        var count :- TakeU32(cmd.values, 1);
        var kids :- Frames(cfg, d, cmd.pos, count, []);
        Ok(Parsed(Next(s.(frames := kids.value)), kids.pos))
    else if cmd.op == ListEnd then Ok(Parsed(Stop(s), cmd.pos))
    else
      var next :- ApplyShape(cfg.order, s, cmd.op, cmd.values);
      Ok(Parsed(Next(next), cmd.pos))
  }

  /** `FOX5Shape::parseData` from `p`: turn after turn, until `LIST_END` or the end of the data. */
  function ShapeLoop(cfg: Config, d: bytes, p: nat, s: Shape): (r: Result<Parsed<Shape>, Error>)
    ensures r.Ok? ==> p <= r.value.pos
    decreases |d| - p
  {
    if p >= |d| then Ok(Parsed(s, p))
    else
      var t :- ShapeStep(cfg, d, p, s);
      if t.value.Stop? then Ok(Parsed(t.value.entity, t.pos))
      else ShapeLoop(cfg, d, t.pos, t.value.entity)
  }

  /** `n` more shapes, each constructed fresh from the shared cursor, after those in `acc`. */
  function Shapes(cfg: Config, d: bytes, p: nat, n: nat, acc: seq<Shape>): (r: Result<Parsed<seq<Shape>>, Error>)
    ensures r.Ok? ==> p <= r.value.pos
    ensures r.Ok? ==> |r.value.value| == |acc| + n
    decreases n
  {
    if n == 0 then Ok(Parsed(acc, p))
    else
      var x :- ShapeLoop(cfg, d, p, NewShape);
      Shapes(cfg, d, x.pos, n - 1, acc + [x.value])
  }

  /** One turn of `FOX5Object::parseData` at `p`: one command, and what the `switch` does with it. */
  function ObjectStep(cfg: Config, d: bytes, p: nat, o: Object): (r: Result<Parsed<Turn<Object>>, Error>)
    ensures r.Ok? ==> p < r.value.pos
  {
    var cmd :- DecodeCommand(cfg.copy, d, p);
    if cmd.op == ListStart then
      var level :- TakeU8(cmd.values, 0);
      if level != 2 then Err(UnexpectedLevel(ObjectLevel, level))
      else
        var count :- TakeU32(cmd.values, 1);
        var kids :- Shapes(cfg, d, cmd.pos, count, []);
        Ok(Parsed(Next(o.(shapes := kids.value)), kids.pos))
    else if cmd.op == ListEnd then Ok(Parsed(Stop(o), cmd.pos))
    else
      var next :- ApplyObject(o, cmd.op, cmd.values);
      Ok(Parsed(Next(next), cmd.pos))
  }

  /** `FOX5Object::parseData` from `p`: turn after turn, until `LIST_END` or the end of the data. */
  function ObjectLoop(cfg: Config, d: bytes, p: nat, o: Object): (r: Result<Parsed<Object>, Error>)
    ensures r.Ok? ==> p <= r.value.pos
    decreases |d| - p
  {
    if p >= |d| then Ok(Parsed(o, p))
    else
      var t :- ObjectStep(cfg, d, p, o);
      if t.value.Stop? then Ok(Parsed(t.value.entity, t.pos))
      else ObjectLoop(cfg, d, t.pos, t.value.entity)
  }

  /** `n` more objects, each constructed fresh from the shared cursor, after those in `acc`. */
  function Objects(cfg: Config, d: bytes, p: nat, n: nat, acc: seq<Object>): (r: Result<Parsed<seq<Object>>, Error>)
    ensures r.Ok? ==> p <= r.value.pos
    ensures r.Ok? ==> |r.value.value| == |acc| + n
    decreases n
  {
    if n == 0 then Ok(Parsed(acc, p))
    else
      var x :- ObjectLoop(cfg, d, p, NewObject);
      Objects(cfg, d, x.pos, n - 1, acc + [x.value])
  }

  /** One turn of `FOX5File::parseData` at `p`: one command, and what the `switch` does with it. */
  function FileStep(cfg: Config, d: bytes, p: nat, f: Contents): (r: Result<Parsed<Turn<Contents>>, Error>)
    ensures r.Ok? ==> p < r.value.pos
  {
    var cmd :- DecodeCommand(cfg.copy, d, p);
    if cmd.op == ListStart then
      var level :- TakeU8(cmd.values, 0);
      if level != 1 then Err(UnexpectedLevel(FileLevel, level))
      else
        var count :- TakeU32(cmd.values, 1);
        var kids :- Objects(cfg, d, cmd.pos, count, []);
        Ok(Parsed(Next(f.(objects := kids.value)), kids.pos))
    else if cmd.op == ListEnd then Ok(Parsed(Stop(f), cmd.pos))
    else
      var next :- ApplyFile(f, cmd.op, cmd.values);
      Ok(Parsed(Next(next), cmd.pos))
  }

  /** `FOX5File::parseData` from `p`: turn after turn, until `LIST_END` or the end of the data. */
  function FileLoop(cfg: Config, d: bytes, p: nat, f: Contents): (r: Result<Parsed<Contents>, Error>)
    ensures r.Ok? ==> p <= r.value.pos
    decreases |d| - p
  {
    if p >= |d| then Ok(Parsed(f, p))
    else
      var t :- FileStep(cfg, d, p, f);
      if t.value.Stop? then Ok(Parsed(t.value.entity, t.pos))
      else FileLoop(cfg, d, t.pos, t.value.entity)
  }

  // ---------------------------------------------------------------------------
  // The `switch` bodies, on a decoded `Command`

  /** One result of a `parseData` step: the entity and where the cursor stands, or the error. */
  function LiftEntity<T>(r: Result<T, Error>, pos: nat): Result<Parsed<T>, Error>
  {
    if r.Ok? then Ok(Parsed(r.value, pos)) else Err(r.error)
  }

  method ApplyChannelCommand(c: Channel, cmd: Command) returns (r: Result<Channel, Error>)
    requires cmd.index == 0
    modifies cmd
    ensures r == ApplyChannel(c, cmd.op, cmd.values)
    ensures cmd.op == old(cmd.op) && cmd.values == old(cmd.values)
  {
    match cmd.op
    case ChannelPurpose =>
      var v :- cmd.GetU16();
      r := Ok(c.(purpose := Some(v)));
    case ChannelImageId =>
      var v :- cmd.GetU16();
      r := Ok(c.(imageId := Some(v)));
    case ChannelOffset =>
      var x :- cmd.GetI16();
      var y :- cmd.GetI16();
      r := Ok(c.(offset := (x, y)));
    case _ =>
      r := Ok(c);
  }

  method ApplyFrameCommand(f: Frame, cmd: Command) returns (r: Result<Frame, Error>)
    requires cmd.index == 0
    modifies cmd
    ensures r == ApplyFrame(f, cmd.op, cmd.values)
    ensures cmd.op == old(cmd.op) && cmd.values == old(cmd.values)
  {
    match cmd.op
    case FrameOffset =>
      var x :- cmd.GetI16();
      var y :- cmd.GetI16();
      r := Ok(f.(frameOffset := (x, y)));
    case FrameFurreOffset =>
      var x :- cmd.GetI16();
      var y :- cmd.GetI16();
      r := Ok(f.(furreOffset := (x, y)));
    case _ =>
      r := Ok(f);
  }

  /** One Kitterspeak entry: the command, then the two arguments `getValue` by `getValue`. */
  method ReadKitterspeakEntry(order: ArgOrder, cmd: Command, ghost i: nat) returns (r: Result<Kitterspeak, Error>)
    requires cmd.index == 1 + 3 * i
    modifies cmd
    ensures r == KitterspeakAt(order, cmd.values, i)
    ensures r.Ok? ==> cmd.index == 1 + 3 * (i + 1)
    ensures cmd.op == old(cmd.op) && cmd.values == old(cmd.values)
  {
    var command :- cmd.GetU16();
    var first :- cmd.GetI16();
    var second :- cmd.GetI16();
    // evaluated right to left, the last argument's `getValue` takes the earlier value
    r := Ok(if order == LeftToRight then Kitterspeak(command, first, second) else Kitterspeak(command, second, first));
  }

  /** The `for` loop of `SHAPE_KITTERSPEAK`, after the count has been taken. */
  method ReadKitterspeak(order: ArgOrder, cmd: Command, count: uint16) returns (r: Result<seq<Kitterspeak>, Error>)
    requires cmd.index == 1
    modifies cmd
    ensures r == KitterspeakEntries(order, cmd.values, count, 0, [])
    ensures cmd.op == old(cmd.op) && cmd.values == old(cmd.values)
  {
    var ks: seq<Kitterspeak> := [];
    var i := 0;
    while i < count
      invariant i <= count && cmd.index == 1 + 3 * i
      invariant cmd.op == old(cmd.op) && cmd.values == old(cmd.values)
      invariant KitterspeakEntries(order, cmd.values, count, 0, []) == KitterspeakEntries(order, cmd.values, count, i, ks)
    {
      var k :- ReadKitterspeakEntry(order, cmd, i);
      ks := ks + [k];
      i := i + 1;
    }
    r := Ok(ks);
  }

  method ApplyShapeCommand(order: ArgOrder, s: Shape, cmd: Command) returns (r: Result<Shape, Error>)
    requires cmd.index == 0
    modifies cmd
    ensures r == ApplyShape(order, s, cmd.op, cmd.values)
    ensures cmd.op == old(cmd.op) && cmd.values == old(cmd.values)
  {
    match cmd.op
    case ShapePurpose =>
      var v :- cmd.GetU8();
      r := Ok(s.(purpose := Some(v)));
    case ShapeState =>
      var v :- cmd.GetU8();
      r := Ok(s.(state := Some(v)));
    case ShapeDirection =>
      var v :- cmd.GetU8();
      r := Ok(s.(direction := Some(v)));
    case ShapeRatio =>
      var x :- cmd.GetU8();
      var y :- cmd.GetU8();
      r := Ok(s.(ratio := (x, y)));
    case ShapeKitterspeak =>
      var count :- cmd.GetU16();
      var ks :- ReadKitterspeak(order, cmd, count);
      r := Ok(s.(kitterspeak := ks));
    case _ =>
      r := Ok(s);
  }

  /** The `for` loop of `OBJECT_AUTHORS` and `OBJECT_KEYWORDS`: `count` strings, after the count. */
  method ReadStrings(cmd: Command, count: uint16) returns (r: Result<seq<string>, Error>)
    requires cmd.index == 1
    modifies cmd
    ensures r == StringEntries(cmd.values, count, 0, [])
    ensures cmd.op == old(cmd.op) && cmd.values == old(cmd.values)
  {
    var strs: seq<string> := [];
    var i := 0;
    while i < count
      invariant i <= count && cmd.index == 1 + i
      invariant cmd.op == old(cmd.op) && cmd.values == old(cmd.values)
      invariant StringEntries(cmd.values, count, 0, []) == StringEntries(cmd.values, count, i, strs)
    {
      var v :- cmd.GetString();
      strs := strs + [v];
      i := i + 1;
    }
    r := Ok(strs);
  }

  /** `OBJECT_AUTHORS` and `OBJECT_KEYWORDS` on the list `xs`: the count, the strings, the resized list. */
  method ReadCountedStrings(xs: seq<string>, cmd: Command) returns (r: Result<seq<string>, Error>)
    requires cmd.index == 0
    modifies cmd
    ensures r == CountedStrings(xs, cmd.values)
    ensures cmd.op == old(cmd.op) && cmd.values == old(cmd.values)
  {
    var count :- cmd.GetU16();
    var strs :- ReadStrings(cmd, count);
    r := Ok(Resize(xs, count) + strs);
  }

  /** The object `switch`: the lists, the strings and the filter pair; the single numbers go on to `ApplyObjectNumber`. */
  method ApplyObjectCommand(o: Object, cmd: Command) returns (r: Result<Object, Error>)
    requires cmd.index == 0
    modifies cmd
    ensures r == ApplyObject(o, cmd.op, cmd.values)
    ensures cmd.op == old(cmd.op) && cmd.values == old(cmd.values)
  {
    match cmd.op
    case ObjectAuthors =>
      var a :- ReadCountedStrings(o.authors, cmd);
      r := Ok(o.(authors := a));
    case ObjectKeywords =>
      var k :- ReadCountedStrings(o.keywords, cmd);
      r := Ok(o.(keywords := k));
    case ObjectName =>
      var v :- cmd.GetString();
      r := Ok(o.(name := v));
    case ObjectDescription =>
      var v :- cmd.GetString();
      r := Ok(o.(description := v));
    case ObjectUri =>
      var v :- cmd.GetString();
      r := Ok(o.(uri := v));
    case ObjectFilter =>
      var t :- cmd.GetU8();
      var m :- cmd.GetU8();
      r := Ok(o.(filterTarget := Some(t), filterMode := Some(m)));
    case _ =>
      r := ApplyObjectNumber(o, cmd);
  }

  /** The object cases that store one number, and the opcodes an object ignores. */
  method ApplyObjectNumber(o: Object, cmd: Command) returns (r: Result<Object, Error>)
    requires cmd.index == 0
    requires cmd.op !in {ObjectAuthors, ObjectKeywords, ObjectName, ObjectDescription, ObjectUri, ObjectFilter}
    modifies cmd
    ensures r == ApplyObject(o, cmd.op, cmd.values)
    ensures cmd.op == old(cmd.op) && cmd.values == old(cmd.values)
  {
    match cmd.op
    case ObjectAuthorRevision =>
      var v :- cmd.GetU16();
      r := Ok(o.(authorRevision := Some(v)));
    case ObjectLicense =>
      var v :- cmd.GetU8();
      r := Ok(o.(license := Some(v)));
    case ObjectFlags =>
      var v :- cmd.GetU8();
      r := Ok(o.(flags := Some(v)));
    case ObjectMoreFlags =>
      var v :- cmd.GetU32();
      r := Ok(o.(moreFlags := Some(v)));
    case ObjectIdentifier =>
      var v :- cmd.GetI32();
      r := Ok(o.(objectId := Some(v)));
    case ObjectEditType =>
      var v :- cmd.GetU8();
      r := Ok(o.(editType := Some(v)));
    case _ =>
      r := Ok(o);
  }

  /** One image descriptor: its four values in order, placed at `offset`. */
  method ReadImage(cmd: Command, ghost i: nat, offset: uint32) returns (r: Result<Image, Error>)
    requires cmd.index == 1 + 4 * i
    modifies cmd
    ensures r == ImageAt(cmd.values, i, offset)
    ensures r.Ok? ==> cmd.index == 1 + 4 * (i + 1)
    ensures cmd.op == old(cmd.op) && cmd.values == old(cmd.values)
  {
    var size :- cmd.GetU32();
    var width :- cmd.GetU16();
    var height :- cmd.GetU16();
    var format :- cmd.GetU8();
    r := Ok(Image(offset, size, width, height, format));
  }

  /** The `for` loop of `FILE_IMAGE_LIST`, after the count: offsets accumulate in a `uint32_t`. */
  method ReadImages(cmd: Command, count: uint32) returns (r: Result<seq<Image>, Error>)
    requires cmd.index == 1
    modifies cmd
    ensures r == ImageEntries(cmd.values, count, 0, 0, [])
    ensures cmd.op == old(cmd.op) && cmd.values == old(cmd.values)
  {
    var images: seq<Image> := [];
    var offset: uint32 := 0;
    var i := 0;
    while i < count
      invariant i <= count && cmd.index == 1 + 4 * i
      invariant cmd.op == old(cmd.op) && cmd.values == old(cmd.values)
      invariant ImageEntries(cmd.values, count, 0, 0, []) == ImageEntries(cmd.values, count, i, offset, images)
    {
      var image :- ReadImage(cmd, i, offset);
      images := images + [image];
      offset := Wrap32(offset + image.compressedSize);
      i := i + 1;
    }
    r := Ok(images);
  }

  // ---------------------------------------------------------------------------
  // The `parseData` loops, run on the shared cursor

  /** One turn of `FOX5Channel::parseData`: a fresh command from the cursor, and the `switch` on it. */
  method ChannelTurn(cfg: Config, cur: Cursor, c: Channel) returns (r: Result<Turn<Channel>, Error>)
    modifies cur
    ensures ChannelStep(cfg, cur.data, old(cur.pos), c) == LiftEntity(r, cur.pos)
  {
    var cmd := new Command();
    var parsed := cmd.ParseData(cfg.copy, cur);
    if parsed.Err? {
      return Err(parsed.error);
    }
    if cmd.op == ListStart {
      return Err(ChannelCannotContainLists);
    } else if cmd.op == ListEnd {
      return Ok(Stop(c));
    } else {
      var next :- ApplyChannelCommand(c, cmd);
      return Ok(Next(next));
    }
  }

  /** `FOX5Channel`'s constructor: a fresh channel, then its `parseData`. */
  method ParseChannel(cfg: Config, cur: Cursor) returns (r: Result<Channel, Error>)
    modifies cur
    ensures ChannelLoop(cfg, cur.data, old(cur.pos), NewChannel) == LiftEntity(r, cur.pos)
  {
    ghost var d := cur.data;
    ghost var whole := ChannelLoop(cfg, d, cur.pos, NewChannel);
    var c := NewChannel;
    while cur.pos < |cur.data|
      invariant whole == ChannelLoop(cfg, d, cur.pos, c)
      decreases |d| - cur.pos
    {
      var t := ChannelTurn(cfg, cur, c);
      if t.Err? {
        return Err(t.error);
      }
      if t.value.Stop? {
        return Ok(t.value.entity);
      }
      c := t.value.entity;
    }
    return Ok(c);
  }

  /** One turn of the child loop: the next channel is parsed from where the previous one ended. */
  lemma ChannelsNext(cfg: Config, d: bytes, p: nat, left: nat, kids: seq<Channel>, x: Result<Channel, Error>, q: nat)
    requires left > 0 && ChannelLoop(cfg, d, p, NewChannel) == LiftEntity(x, q)
    ensures Channels(cfg, d, p, left, kids) ==
      (if x.Ok? then Channels(cfg, d, q, left - 1, kids + [x.value]) else Err(x.error))
  {
  }

  /** The state of the channel-list loop: `whole` is what the remaining `left` channels after `kids` give. */
  ghost predicate ChannelsLeft(whole: Result<Parsed<seq<Channel>>, Error>, cfg: Config, d: bytes, p: nat, left: nat, kids: seq<Channel>)
  {
    whole == Channels(cfg, d, p, left, kids)
  }

  /** The `for` loop that constructs `n` channels in turn from the shared cursor. */
  method ParseChannels(cfg: Config, cur: Cursor, n: nat) returns (r: Result<seq<Channel>, Error>)
    modifies cur
    ensures Channels(cfg, cur.data, old(cur.pos), n, []) == LiftEntity(r, cur.pos)
  {
    ghost var d := cur.data;
    ghost var whole := Channels(cfg, d, cur.pos, n, []);
    var kids: seq<Channel> := [];
    var left := n;
    while left > 0
      invariant ChannelsLeft(whole, cfg, cur.data, cur.pos, left, kids)
    {
      var next := ParseNextChannel(cfg, cur, left, kids, whole);
      if next.Err? {
        return Err(next.error);
      }
      kids := next.value;
      left := left - 1;
    }
    return Ok(kids);
  }

  /** One turn of the `for` loop over a channel list. */
  method ParseNextChannel(cfg: Config, cur: Cursor, left: nat, kids: seq<Channel>, ghost whole: Result<Parsed<seq<Channel>>, Error>)
    returns (r: Result<seq<Channel>, Error>)
    requires left > 0 && ChannelsLeft(whole, cfg, cur.data, cur.pos, left, kids)
    modifies cur
    ensures r.Ok? ==> ChannelsLeft(whole, cfg, cur.data, cur.pos, left - 1, r.value)
    ensures r.Err? ==> whole == Err(r.error)
  {
    ghost var p := cur.pos;
    var x := ParseChannel(cfg, cur);
    ChannelsNext(cfg, cur.data, p, left, kids, x, cur.pos);
    if x.Err? {
      return Err(x.error);
    }
    return Ok(kids + [x.value]);
  }

  /** One turn of `FOX5Frame::parseData`: a fresh command from the cursor, and the `switch` on it. */
  method FrameTurn(cfg: Config, cur: Cursor, f: Frame) returns (r: Result<Turn<Frame>, Error>)
    modifies cur
    ensures FrameStep(cfg, cur.data, old(cur.pos), f) == LiftEntity(r, cur.pos)
  {
    var cmd := new Command();
    var parsed := cmd.ParseData(cfg.copy, cur);
    if parsed.Err? {
      return Err(parsed.error);
    }
    if cmd.op == ListStart {
      var level :- cmd.GetU8();
      if level != 4 {
        return Err(UnexpectedLevel(FrameLevel, level));
      }
      var count :- cmd.GetU32();
      var kids :- ParseChannels(cfg, cur, count);
      return Ok(Next(f.(sprites := kids)));
    } else if cmd.op == ListEnd {
      return Ok(Stop(f));
    } else {
      var next :- ApplyFrameCommand(f, cmd);
      return Ok(Next(next));
    }
  }

  /** `FOX5Frame`'s constructor: a fresh frame, then its `parseData`. */
  method ParseFrame(cfg: Config, cur: Cursor) returns (r: Result<Frame, Error>)
    modifies cur
    ensures FrameLoop(cfg, cur.data, old(cur.pos), NewFrame) == LiftEntity(r, cur.pos)
  {
    ghost var d := cur.data;
    ghost var whole := FrameLoop(cfg, d, cur.pos, NewFrame);
    var f := NewFrame;
    while cur.pos < |cur.data|
      invariant whole == FrameLoop(cfg, d, cur.pos, f)
      decreases |d| - cur.pos
    {
      var t := FrameTurn(cfg, cur, f);
      if t.Err? {
        return Err(t.error);
      }
      if t.value.Stop? {
        return Ok(t.value.entity);
      }
      f := t.value.entity;
    }
    return Ok(f);
  }

  /** One turn of the child loop: the next frame is parsed from where the previous one ended. */
  lemma FramesNext(cfg: Config, d: bytes, p: nat, left: nat, kids: seq<Frame>, x: Result<Frame, Error>, q: nat)
    requires left > 0 && FrameLoop(cfg, d, p, NewFrame) == LiftEntity(x, q)
    ensures Frames(cfg, d, p, left, kids) ==
      (if x.Ok? then Frames(cfg, d, q, left - 1, kids + [x.value]) else Err(x.error))
  {
  }

  /** The state of the frame-list loop: `whole` is what the remaining `left` frames after `kids` give. */
  ghost predicate FramesLeft(whole: Result<Parsed<seq<Frame>>, Error>, cfg: Config, d: bytes, p: nat, left: nat, kids: seq<Frame>)
  {
    whole == Frames(cfg, d, p, left, kids)
  }

  /** The `for` loop that constructs `n` frames in turn from the shared cursor. */
  method ParseFrames(cfg: Config, cur: Cursor, n: nat) returns (r: Result<seq<Frame>, Error>)
    modifies cur
    ensures Frames(cfg, cur.data, old(cur.pos), n, []) == LiftEntity(r, cur.pos)
  {
    ghost var d := cur.data;
    ghost var whole := Frames(cfg, d, cur.pos, n, []);
    var kids: seq<Frame> := [];
    var left := n;
    while left > 0
      invariant FramesLeft(whole, cfg, cur.data, cur.pos, left, kids)
    {
      var next := ParseNextFrame(cfg, cur, left, kids, whole);
      if next.Err? {
        return Err(next.error);
      }
      kids := next.value;
      left := left - 1;
    }
    return Ok(kids);
  }

  /** One turn of the `for` loop over a frame list. */
  method ParseNextFrame(cfg: Config, cur: Cursor, left: nat, kids: seq<Frame>, ghost whole: Result<Parsed<seq<Frame>>, Error>)
    returns (r: Result<seq<Frame>, Error>)
    requires left > 0 && FramesLeft(whole, cfg, cur.data, cur.pos, left, kids)
    modifies cur
    ensures r.Ok? ==> FramesLeft(whole, cfg, cur.data, cur.pos, left - 1, r.value)
    ensures r.Err? ==> whole == Err(r.error)
  {
    ghost var p := cur.pos;
    var x := ParseFrame(cfg, cur);
    FramesNext(cfg, cur.data, p, left, kids, x, cur.pos);
    if x.Err? {
      return Err(x.error);
    }
    return Ok(kids + [x.value]);
  }

  /** One turn of `FOX5Shape::parseData`: a fresh command from the cursor, and the `switch` on it. */
  method ShapeTurn(cfg: Config, cur: Cursor, s: Shape) returns (r: Result<Turn<Shape>, Error>)
    modifies cur
    ensures ShapeStep(cfg, cur.data, old(cur.pos), s) == LiftEntity(r, cur.pos)
  {
    var cmd := new Command();
    var parsed := cmd.ParseData(cfg.copy, cur);
    if parsed.Err? {
      return Err(parsed.error);
    }
    if cmd.op == ListStart {
      var level :- cmd.GetU8();
      if level != 3 {
        return Err(UnexpectedLevel(ShapeLevel, level));
      }
      var count :- cmd.GetU32();
      var kids :- ParseFrames(cfg, cur, count);
      return Ok(Next(s.(frames := kids)));
    } else if cmd.op == ListEnd {
      return Ok(Stop(s));
    } else {
      var next :- ApplyShapeCommand(cfg.order, s, cmd);
      return Ok(Next(next));
    }
  }

  /** `FOX5Shape`'s constructor: a fresh shape, then its `parseData`. */
  method ParseShape(cfg: Config, cur: Cursor) returns (r: Result<Shape, Error>)
    modifies cur
    ensures ShapeLoop(cfg, cur.data, old(cur.pos), NewShape) == LiftEntity(r, cur.pos)
  {
    ghost var d := cur.data;
    ghost var whole := ShapeLoop(cfg, d, cur.pos, NewShape);
    var s := NewShape;
    while cur.pos < |cur.data|
      invariant whole == ShapeLoop(cfg, d, cur.pos, s)
      decreases |d| - cur.pos
    {
      var t := ShapeTurn(cfg, cur, s);
      if t.Err? {
        return Err(t.error);
      }
      if t.value.Stop? {
        return Ok(t.value.entity);
      }
      s := t.value.entity;
    }
    return Ok(s);
  }

  /** One turn of the child loop: the next shape is parsed from where the previous one ended. */
  lemma ShapesNext(cfg: Config, d: bytes, p: nat, left: nat, kids: seq<Shape>, x: Result<Shape, Error>, q: nat)
    requires left > 0 && ShapeLoop(cfg, d, p, NewShape) == LiftEntity(x, q)
    ensures Shapes(cfg, d, p, left, kids) ==
      (if x.Ok? then Shapes(cfg, d, q, left - 1, kids + [x.value]) else Err(x.error))
  {
  }

  /** The state of the shape-list loop: `whole` is what the remaining `left` shapes after `kids` give. */
  ghost predicate ShapesLeft(whole: Result<Parsed<seq<Shape>>, Error>, cfg: Config, d: bytes, p: nat, left: nat, kids: seq<Shape>)
  {
    whole == Shapes(cfg, d, p, left, kids)
  }

  /** The `for` loop that constructs `n` shapes in turn from the shared cursor. */
  method ParseShapes(cfg: Config, cur: Cursor, n: nat) returns (r: Result<seq<Shape>, Error>)
    modifies cur
    ensures Shapes(cfg, cur.data, old(cur.pos), n, []) == LiftEntity(r, cur.pos)
  {
    ghost var d := cur.data;
    ghost var whole := Shapes(cfg, d, cur.pos, n, []);
    var kids: seq<Shape> := [];
    var left := n;
    while left > 0
      invariant ShapesLeft(whole, cfg, cur.data, cur.pos, left, kids)
    {
      var next := ParseNextShape(cfg, cur, left, kids, whole);
      if next.Err? {
        return Err(next.error);
      }
      kids := next.value;
      left := left - 1;
    }
    return Ok(kids);
  }

  /** One turn of the `for` loop over a shape list. */
  method ParseNextShape(cfg: Config, cur: Cursor, left: nat, kids: seq<Shape>, ghost whole: Result<Parsed<seq<Shape>>, Error>)
    returns (r: Result<seq<Shape>, Error>)
    requires left > 0 && ShapesLeft(whole, cfg, cur.data, cur.pos, left, kids)
    modifies cur
    ensures r.Ok? ==> ShapesLeft(whole, cfg, cur.data, cur.pos, left - 1, r.value)
    ensures r.Err? ==> whole == Err(r.error)
  {
    ghost var p := cur.pos;
    var x := ParseShape(cfg, cur);
    ShapesNext(cfg, cur.data, p, left, kids, x, cur.pos);
    if x.Err? {
      return Err(x.error);
    }
    return Ok(kids + [x.value]);
  }

  /** One turn of `FOX5Object::parseData`: a fresh command from the cursor, and the `switch` on it. */
  method ObjectTurn(cfg: Config, cur: Cursor, o: Object) returns (r: Result<Turn<Object>, Error>)
    modifies cur
    ensures ObjectStep(cfg, cur.data, old(cur.pos), o) == LiftEntity(r, cur.pos)
  {
    var cmd := new Command();
    var parsed := cmd.ParseData(cfg.copy, cur);
    if parsed.Err? {
      return Err(parsed.error);
    }
    if cmd.op == ListStart {
      var level :- cmd.GetU8();
      if level != 2 {
        return Err(UnexpectedLevel(ObjectLevel, level));
      }
      var count :- cmd.GetU32();
      var kids :- ParseShapes(cfg, cur, count);
      return Ok(Next(o.(shapes := kids)));
    } else if cmd.op == ListEnd {
      return Ok(Stop(o));
    } else {
      var next :- ApplyObjectCommand(o, cmd);
      return Ok(Next(next));
    }
  }

  /** `FOX5Object`'s constructor: a fresh object, then its `parseData`. */
  method ParseObject(cfg: Config, cur: Cursor) returns (r: Result<Object, Error>)
    modifies cur
    ensures ObjectLoop(cfg, cur.data, old(cur.pos), NewObject) == LiftEntity(r, cur.pos)
  {
    ghost var d := cur.data;
    ghost var whole := ObjectLoop(cfg, d, cur.pos, NewObject);
    var o := NewObject;
    while cur.pos < |cur.data|
      invariant whole == ObjectLoop(cfg, d, cur.pos, o)
      decreases |d| - cur.pos
    {
      var t := ObjectTurn(cfg, cur, o);
      if t.Err? {
        return Err(t.error);
      }
      if t.value.Stop? {
        return Ok(t.value.entity);
      }
      o := t.value.entity;
    }
    return Ok(o);
  }

  /** One turn of the child loop: the next object is parsed from where the previous one ended. */
  lemma ObjectsNext(cfg: Config, d: bytes, p: nat, left: nat, kids: seq<Object>, x: Result<Object, Error>, q: nat)
    requires left > 0 && ObjectLoop(cfg, d, p, NewObject) == LiftEntity(x, q)
    ensures Objects(cfg, d, p, left, kids) ==
      (if x.Ok? then Objects(cfg, d, q, left - 1, kids + [x.value]) else Err(x.error))
  {
  }

  /** The state of the object-list loop: `whole` is what the remaining `left` objects after `kids` give. */
  ghost predicate ObjectsLeft(whole: Result<Parsed<seq<Object>>, Error>, cfg: Config, d: bytes, p: nat, left: nat, kids: seq<Object>)
  {
    whole == Objects(cfg, d, p, left, kids)
  }

  /** The `for` loop that constructs `n` objects in turn from the shared cursor. */
  method ParseObjects(cfg: Config, cur: Cursor, n: nat) returns (r: Result<seq<Object>, Error>)
    modifies cur
    ensures Objects(cfg, cur.data, old(cur.pos), n, []) == LiftEntity(r, cur.pos)
  {
    ghost var d := cur.data;
    ghost var whole := Objects(cfg, d, cur.pos, n, []);
    var kids: seq<Object> := [];
    var left := n;
    while left > 0
      invariant ObjectsLeft(whole, cfg, cur.data, cur.pos, left, kids)
    {
      var next := ParseNextObject(cfg, cur, left, kids, whole);
      if next.Err? {
        return Err(next.error);
      }
      kids := next.value;
      left := left - 1;
    }
    return Ok(kids);
  }

  /** One turn of the `for` loop over an object list. */
  method ParseNextObject(cfg: Config, cur: Cursor, left: nat, kids: seq<Object>, ghost whole: Result<Parsed<seq<Object>>, Error>)
    returns (r: Result<seq<Object>, Error>)
    requires left > 0 && ObjectsLeft(whole, cfg, cur.data, cur.pos, left, kids)
    modifies cur
    ensures r.Ok? ==> ObjectsLeft(whole, cfg, cur.data, cur.pos, left - 1, r.value)
    ensures r.Err? ==> whole == Err(r.error)
  {
    ghost var p := cur.pos;
    var x := ParseObject(cfg, cur);
    ObjectsNext(cfg, cur.data, p, left, kids, x, cur.pos);
    if x.Err? {
      return Err(x.error);
    }
    return Ok(kids + [x.value]);
  }

  // ---------------------------------------------------------------------------
  // Image descriptors

  /** Image 0 starts at 0 and image `k + 1` where image `k` ends, in `uint32_t` arithmetic. */
  predicate OffsetsAccumulate(images: seq<Image>)
  {
    (|images| > 0 ==> images[0].offset == 0) &&
    forall k :: 0 <= k < |images| - 1 ==> images[k + 1].offset == Wrap32(images[k].offset + images[k].compressedSize)
  }

  /** Image `k` holds the `k`-th (size, width, height, format) group after the count. */
  predicate DescribedBy(images: seq<Image>, vs: seq<Value>)
  {
    forall k :: 0 <= k < |images| ==> ImageAt(vs, k, images[k].offset) == Ok(images[k])
  }

  lemma {:induction false} ImageEntriesAccumulate(vs: seq<Value>, n: nat, i: nat, offset: uint32, acc: seq<Image>)
    requires i <= n && |acc| == i
    requires OffsetsAccumulate(acc) && DescribedBy(acc, vs)
    requires |acc| == 0 ==> offset == 0
    requires |acc| > 0 ==> offset == Wrap32(acc[|acc| - 1].offset + acc[|acc| - 1].compressedSize)
    ensures ImageEntries(vs, n, i, offset, acc).Ok? ==>
      OffsetsAccumulate(ImageEntries(vs, n, i, offset, acc).value) && DescribedBy(ImageEntries(vs, n, i, offset, acc).value, vs)
    decreases n - i
  {
    if i < n && ImageEntries(vs, n, i, offset, acc).Ok? {
      var image := ImageAt(vs, i, offset).value;
      AccumulateStep(vs, acc, image, offset);
      ImageEntriesAccumulate(vs, n, i + 1, Wrap32(offset + image.compressedSize), acc + [image]);
    }
  }

  /** Appending the descriptor read at the running offset keeps both predicates. */
  lemma AccumulateStep(vs: seq<Value>, acc: seq<Image>, image: Image, offset: uint32)
    requires OffsetsAccumulate(acc) && DescribedBy(acc, vs)
    requires |acc| == 0 ==> offset == 0
    requires |acc| > 0 ==> offset == Wrap32(acc[|acc| - 1].offset + acc[|acc| - 1].compressedSize)
    requires ImageAt(vs, |acc|, offset) == Ok(image)
    ensures OffsetsAccumulate(acc + [image]) && DescribedBy(acc + [image], vs)
  {
    var acc' := acc + [image];
    forall k | 0 <= k < |acc'|
      ensures ImageAt(vs, k, acc'[k].offset) == Ok(acc'[k])
    {
      if k < |acc| {
        assert acc'[k] == acc[k];
      }
    }
  }

  /**
   * `FILE_IMAGE_LIST` replaces the image list with `count` descriptors, built
   * from the command's groups in order, whose offsets are the running sums
   * of the sizes before them.
   */
  lemma ImageListOffsets(f: Contents, vs: seq<Value>)
    requires ApplyFile(f, FileImageList, vs).Ok?
    ensures var g := ApplyFile(f, FileImageList, vs).value;
      vs[0].U32? && |g.images| == vs[0].u32 &&
      OffsetsAccumulate(g.images) && DescribedBy(g.images, vs) &&
      g.generator == f.generator && g.objects == f.objects
  {
    ImageEntriesAccumulate(vs, vs[0].u32, 0, 0, []);
  }

  /** One step of `ImageEntries`: the group at `i` is read as `e` and the offset moves past it. */
  lemma ImageEntriesStep(vs: seq<Value>, n: nat, i: nat, acc: seq<Image>, e: Image)
    requires i < n && 4 * i + 4 < |vs|
    requires vs[1 + 4 * i] == U32(e.compressedSize) && vs[2 + 4 * i] == U16(e.width) && vs[3 + 4 * i] == U16(e.height) && vs[4 + 4 * i] == U8(e.format)
    ensures ImageEntries(vs, n, i, e.offset, acc) == ImageEntries(vs, n, i + 1, Wrap32(e.offset + e.compressedSize), acc + [e])
  {
    assert ImageAt(vs, i, e.offset) == Ok(e);
  }

  /** The last two steps of a list of three descriptors. */
  lemma LastTwoImages(vs: seq<Value>, a: Image, b: Image, c: Image)
    requires |vs| == 13
    requires vs[5] == U32(b.compressedSize) && vs[6] == U16(b.width) && vs[7] == U16(b.height) && vs[8] == U8(b.format)
    requires vs[9] == U32(c.compressedSize) && vs[10] == U16(c.width) && vs[11] == U16(c.height) && vs[12] == U8(c.format)
    requires c.offset == Wrap32(b.offset + b.compressedSize)
    ensures ImageEntries(vs, 3, 1, b.offset, [a]) == Ok([a, b, c])
  {
    ImageEntriesStep(vs, 3, 1, [a], b);
    ImageEntriesStep(vs, 3, 2, [a] + [b], c);
    assert [a] + [b] + [c] == [a, b, c];
  }

  /** A list of three descriptors: the offsets are 0, then the running `uint32_t` sums. */
  lemma ThreeImages(f: Contents, vs: seq<Value>, a: Image, b: Image, c: Image)
    requires |vs| == 13 && vs[0] == U32(3)
    requires vs[1] == U32(a.compressedSize) && vs[2] == U16(a.width) && vs[3] == U16(a.height) && vs[4] == U8(a.format)
    requires vs[5] == U32(b.compressedSize) && vs[6] == U16(b.width) && vs[7] == U16(b.height) && vs[8] == U8(b.format)
    requires vs[9] == U32(c.compressedSize) && vs[10] == U16(c.width) && vs[11] == U16(c.height) && vs[12] == U8(c.format)
    requires a.offset == 0 && b.offset == Wrap32(a.compressedSize) && c.offset == Wrap32(b.offset + b.compressedSize)
    ensures ApplyFile(f, FileImageList, vs) == Ok(f.(images := [a, b, c]))
  {
    assert TakeU32(vs, 0) == Ok(3);
    ThreeEntries(vs, a, b, c);
  }

  /** The three groups are read in turn, each placed where the one before it ends. */
  lemma ThreeEntries(vs: seq<Value>, a: Image, b: Image, c: Image)
    requires |vs| == 13
    requires vs[1] == U32(a.compressedSize) && vs[2] == U16(a.width) && vs[3] == U16(a.height) && vs[4] == U8(a.format)
    requires vs[5] == U32(b.compressedSize) && vs[6] == U16(b.width) && vs[7] == U16(b.height) && vs[8] == U8(b.format)
    requires vs[9] == U32(c.compressedSize) && vs[10] == U16(c.width) && vs[11] == U16(c.height) && vs[12] == U8(c.format)
    requires a.offset == 0 && b.offset == Wrap32(a.compressedSize) && c.offset == Wrap32(b.offset + b.compressedSize)
    ensures ImageEntries(vs, 3, 0, 0, []) == Ok([a, b, c])
  {
    ImageEntriesStep(vs, 3, 0, [], a);
    assert [] + [a] == [a];
    LastTwoImages(vs, a, b, c);
  }

  /** Sizes 100, 200 and 50 give offsets 0, 100 and 300. */
  lemma ImageOffsetsExample(f: Contents)
    ensures ApplyFile(f, FileImageList, [U32(3), U32(100), U16(32), U16(16), U8(1), U32(200), U16(8), U16(8), U8(0), U32(50), U16(4), U16(4), U8(0)])
      == Ok(f.(images := [Image(0, 100, 32, 16, 1), Image(100, 200, 8, 8, 0), Image(300, 50, 4, 4, 0)]))
  {
    ThreeImages(f, [U32(3), U32(100), U16(32), U16(16), U8(1), U32(200), U16(8), U16(8), U8(0), U32(50), U16(4), U16(4), U8(0)],
      Image(0, 100, 32, 16, 1), Image(100, 200, 8, 8, 0), Image(300, 50, 4, 4, 0));
  }

  /** The running offset wraps: a size of 2^32 - 1 followed by 2 puts the third image at 1. */
  lemma ImageOffsetsWrap(f: Contents)
    ensures ApplyFile(f, FileImageList, [U32(3), U32(0xFFFF_FFFF), U16(1), U16(1), U8(0), U32(2), U16(1), U16(1), U8(0), U32(0), U16(1), U16(1), U8(0)])
      == Ok(f.(images := [Image(0, 0xFFFF_FFFF, 1, 1, 0), Image(0xFFFF_FFFF, 2, 1, 1, 0), Image(1, 0, 1, 1, 0)]))
  {
    assert Wrap32(0xFFFF_FFFF + 2) == 1;
    ThreeImages(f, [U32(3), U32(0xFFFF_FFFF), U16(1), U16(1), U8(0), U32(2), U16(1), U16(1), U8(0), U32(0), U16(1), U16(1), U8(0)],
      Image(0, 0xFFFF_FFFF, 1, 1, 0), Image(0xFFFF_FFFF, 2, 1, 1, 0), Image(1, 0, 1, 1, 0));
  }

  // ---------------------------------------------------------------------------
  // Authors and keywords

  /** `strs` are the string values right after the count, in order. */
  predicate StringsAfterCount(vs: seq<Value>, strs: seq<string>)
  {
    |strs| < |vs| && forall k :: 0 <= k < |strs| ==> vs[k + 1] == Str(strs[k])
  }

  lemma {:induction false} StringEntriesAfterCount(vs: seq<Value>, n: nat, i: nat, acc: seq<string>)
    requires i <= n && |acc| == i && (i == 0 || StringsAfterCount(vs, acc))
    ensures StringEntries(vs, n, i, acc).Ok? ==> StringsAfterCount(vs, StringEntries(vs, n, i, acc).value) || n == 0
    decreases n - i
  {
    if i < n && StringEntries(vs, n, i, acc).Ok? {
      var v := TakeStr(vs, 1 + i).value;
      var acc' := acc + [v];
      assert StringsAfterCount(vs, acc') by {
        forall k | 0 <= k < |acc'|
          ensures vs[k + 1] == Str(acc'[k])
        {
          if k < |acc| {
            assert acc'[k] == acc[k];
          }
        }
      }
      StringEntriesAfterCount(vs, n, i + 1, acc');
    }
  }

  /**
   * `OBJECT_AUTHORS` and `OBJECT_KEYWORDS` with count `n` leave 2·n strings:
   * the old list resized to `n` (on a fresh object, `n` empty strings), then
   * the `n` strings of the command in order.
   */
  lemma CountedStringsDoubled(xs: seq<string>, vs: seq<Value>)
    requires CountedStrings(xs, vs).Ok?
    ensures vs[0].U16?
    ensures var n := vs[0].u16; var a := CountedStrings(xs, vs).value;
      |a| == 2 * n &&
      (forall k :: 0 <= k < n ==> a[k] == if k < |xs| then xs[k] else []) &&
      (n == 0 || StringsAfterCount(vs, a[n..]))
  {
    var n := vs[0].u16;
    StringEntriesAfterCount(vs, n, 0, []);
    var strs := StringEntries(vs, n, 0, []).value;
    var a := CountedStrings(xs, vs).value;
    assert a[n..] == strs;
  }

  // ---------------------------------------------------------------------------
  // Kitterspeak argument order

  function Swapped(k: Kitterspeak): Kitterspeak
  {
    Kitterspeak(k.command, k.arg2, k.arg1)
  }

  function SwapAll(ks: seq<Kitterspeak>): (r: seq<Kitterspeak>)
    ensures |r| == |ks| && forall i :: 0 <= i < |ks| ==> r[i] == Swapped(ks[i])
  {
    seq(|ks|, i requires 0 <= i < |ks| => Swapped(ks[i]))
  }

  lemma {:induction false} KitterspeakOrdersFrom(vs: seq<Value>, n: nat, i: nat, acc: seq<Kitterspeak>)
    requires i <= n
    ensures KitterspeakEntries(RightToLeft, vs, n, i, SwapAll(acc)) ==
      (var ks :- KitterspeakEntries(LeftToRight, vs, n, i, acc); Ok(SwapAll(ks)))
    decreases n - i
  {
    if i < n {
      if KitterspeakAt(LeftToRight, vs, i).Ok? {
        var k := KitterspeakAt(LeftToRight, vs, i).value;
        assert KitterspeakAt(RightToLeft, vs, i) == Ok(Swapped(k));
        assert SwapAll(acc) + [Swapped(k)] == SwapAll(acc + [k]);
        KitterspeakOrdersFrom(vs, n, i + 1, acc + [k]);
      }
    }
  }

  /**
   * The two evaluation orders of the Kitterspeak arguments succeed and fail
   * alike; where they succeed they give the same entries with `arg1` and
   * `arg2` exchanged. Every other shape command does not depend on the order.
   */
  lemma KitterspeakOrders(s: Shape, op: Opcode, vs: seq<Value>)
    ensures op == ShapeKitterspeak ==>
      ApplyShape(RightToLeft, s, op, vs) ==
      (var t :- ApplyShape(LeftToRight, s, op, vs); Ok(t.(kitterspeak := SwapAll(t.kitterspeak))))
    ensures op != ShapeKitterspeak ==> ApplyShape(RightToLeft, s, op, vs) == ApplyShape(LeftToRight, s, op, vs)
  {
    if op == ShapeKitterspeak && TakeU16(vs, 0).Ok? {
      KitterspeakOrdersFrom(vs, TakeU16(vs, 0).value, 0, []);
      assert SwapAll([]) == [];
    }
  }

  // ---------------------------------------------------------------------------
  // What one turn of a loop does with a command

  /**
   * A `LIST_START` inside a channel always throws; in the other entities it
   * throws unless its level is 4 (frame), 3 (shape), 2 (object) or 1 (file).
   */
  lemma NestingLevels(cfg: Config, d: bytes, p: nat, c: Channel, f: Frame, s: Shape, o: Object, g: Contents)
    requires p + 6 <= |d| && d[p] == Code(ListStart)
    ensures ChannelStep(cfg, d, p, c) == Err(ChannelCannotContainLists)
    ensures d[p + 1] != 4 ==> FrameStep(cfg, d, p, f) == Err(UnexpectedLevel(FrameLevel, d[p + 1]))
    ensures d[p + 1] != 3 ==> ShapeStep(cfg, d, p, s) == Err(UnexpectedLevel(ShapeLevel, d[p + 1]))
    ensures d[p + 1] != 2 ==> ObjectStep(cfg, d, p, o) == Err(UnexpectedLevel(ObjectLevel, d[p + 1]))
    ensures d[p + 1] != 1 ==> FileStep(cfg, d, p, g) == Err(UnexpectedLevel(FileLevel, d[p + 1]))
  {
    ListStartValues(cfg.copy, d, p);
  }

  /**
   * A `LIST_START` with the right level reads exactly `count` children from
   * the cursor just after it (six bytes on), replaces the entity's child list
   * with them, and leaves the cursor where the last child ended.
   */
  lemma ChildLists(cfg: Config, d: bytes, p: nat, f: Frame, s: Shape, o: Object, g: Contents)
    requires p + 6 <= |d| && d[p] == Code(ListStart)
    ensures var n := Be32(d[p + 2], d[p + 3], d[p + 4], d[p + 5]);
      d[p + 1] == 4 ==>
        FrameStep(cfg, d, p, f) == (var kids :- Channels(cfg, d, p + 6, n, []); Ok(Parsed(Next(f.(sprites := kids.value)), kids.pos)))
    ensures var n := Be32(d[p + 2], d[p + 3], d[p + 4], d[p + 5]);
      d[p + 1] == 3 ==>
        ShapeStep(cfg, d, p, s) == (var kids :- Frames(cfg, d, p + 6, n, []); Ok(Parsed(Next(s.(frames := kids.value)), kids.pos)))
    ensures var n := Be32(d[p + 2], d[p + 3], d[p + 4], d[p + 5]);
      d[p + 1] == 2 ==>
        ObjectStep(cfg, d, p, o) == (var kids :- Shapes(cfg, d, p + 6, n, []); Ok(Parsed(Next(o.(shapes := kids.value)), kids.pos)))
    ensures var n := Be32(d[p + 2], d[p + 3], d[p + 4], d[p + 5]);
      d[p + 1] == 1 ==>
        FileStep(cfg, d, p, g) == (var kids :- Objects(cfg, d, p + 6, n, []); Ok(Parsed(Next(g.(objects := kids.value)), kids.pos)))
  {
    ListStartValues(cfg.copy, d, p);
  }

  /** Each loop stops at the end of the data, and at a `LIST_END`, just after it. */
  lemma LoopsEnd(cfg: Config, d: bytes, p: nat, c: Channel, f: Frame, s: Shape, o: Object, g: Contents)
    requires p >= |d| || d[p] == Code(ListEnd)
    ensures var q := if p >= |d| then p else p + 1;
      ChannelLoop(cfg, d, p, c) == Ok(Parsed(c, q)) && FrameLoop(cfg, d, p, f) == Ok(Parsed(f, q)) &&
      ShapeLoop(cfg, d, p, s) == Ok(Parsed(s, q)) && ObjectLoop(cfg, d, p, o) == Ok(Parsed(o, q)) &&
      FileLoop(cfg, d, p, g) == Ok(Parsed(g, q))
  {
    if p < |d| {
      ListEndValues(cfg.copy, d, p);
    }
  }

  /** The opcodes each entity's `switch` has a case for, besides `LIST_START` and `LIST_END`. */
  predicate ChannelHandles(op: Opcode)
  {
    op == ChannelPurpose || op == ChannelImageId || op == ChannelOffset
  }

  predicate FrameHandles(op: Opcode)
  {
    op == FrameOffset || op == FrameFurreOffset
  }

  predicate ShapeHandles(op: Opcode)
  {
    op == ShapePurpose || op == ShapeState || op == ShapeDirection || op == ShapeRatio || op == ShapeKitterspeak
  }

  predicate ObjectHandles(op: Opcode)
  {
    op == ObjectAuthorRevision || op == ObjectAuthors || op == ObjectLicense || op == ObjectKeywords ||
    op == ObjectName || op == ObjectDescription || op == ObjectFlags || op == ObjectUri ||
    op == ObjectMoreFlags || op == ObjectIdentifier || op == ObjectEditType || op == ObjectFilter
  }

  predicate FileHandles(op: Opcode)
  {
    op == FileImageList || op == FileGenerator
  }

  /**
   * A table opcode an entity has no case for is decoded, consuming its bytes,
   * and otherwise ignored: the loop goes on after it with the entity unchanged.
   */
  lemma UnhandledIgnored(cfg: Config, d: bytes, p: nat, c: Channel, f: Frame, s: Shape, o: Object, g: Contents)
    requires DecodeCommand(cfg.copy, d, p).Ok?
    requires DecodeCommand(cfg.copy, d, p).value.op != ListStart && DecodeCommand(cfg.copy, d, p).value.op != ListEnd
    ensures var cmd := DecodeCommand(cfg.copy, d, p).value;
      (!ChannelHandles(cmd.op) ==> ChannelLoop(cfg, d, p, c) == ChannelLoop(cfg, d, cmd.pos, c)) &&
      (!FrameHandles(cmd.op) ==> FrameLoop(cfg, d, p, f) == FrameLoop(cfg, d, cmd.pos, f)) &&
      (!ShapeHandles(cmd.op) ==> ShapeLoop(cfg, d, p, s) == ShapeLoop(cfg, d, cmd.pos, s)) &&
      (!ObjectHandles(cmd.op) ==> ObjectLoop(cfg, d, p, o) == ObjectLoop(cfg, d, cmd.pos, o)) &&
      (!FileHandles(cmd.op) ==> FileLoop(cfg, d, p, g) == FileLoop(cfg, d, cmd.pos, g))
  {
  }

  /** A command other than a list bracket is applied to the file's contents, and the loop goes on after it. */
  lemma FileCommandApplied(cfg: Config, d: bytes, p: nat, g: Contents)
    requires DecodeCommand(cfg.copy, d, p).Ok?
    requires DecodeCommand(cfg.copy, d, p).value.op != ListStart && DecodeCommand(cfg.copy, d, p).value.op != ListEnd
    ensures var cmd := DecodeCommand(cfg.copy, d, p).value;
            FileLoop(cfg, d, p, g) ==
              (var next := ApplyFile(g, cmd.op, cmd.values);
               if next.Err? then Err(next.error) else FileLoop(cfg, d, cmd.pos, next.value))
  {
  }

  // ---------------------------------------------------------------------------
  // The consumers agree with the decoder

  /** The strings of an authors or keywords command that fits its layout are all there. */
  lemma {:induction false} StringEntriesSucceed(vs: seq<Value>, i: nat, acc: seq<string>)
    requires Fits(Counted(false, [SizedString], 1, []), vs) && i <= CountOf(vs[0])
    ensures StringEntries(vs, CountOf(vs[0]), i, acc).Ok?
    decreases CountOf(vs[0]) - i
  {
    if i < CountOf(vs[0]) {
      CountedAt(Counted(false, [SizedString], 1, []), vs, i, 0);
      StringEntriesSucceed(vs, i + 1, acc + [vs[1 + i].str]);
    }
  }

  lemma {:induction false} KitterspeakEntriesSucceed(order: ArgOrder, vs: seq<Value>, n: nat, i: nat, acc: seq<Kitterspeak>)
    requires i <= n
    requires forall k :: 0 <= k < n ==> KitterspeakAt(order, vs, k).Ok?
    ensures KitterspeakEntries(order, vs, n, i, acc).Ok?
    decreases n - i
  {
    if i < n {
      KitterspeakEntriesSucceed(order, vs, n, i + 1, acc + [KitterspeakAt(order, vs, i).value]);
    }
  }

  lemma {:induction false} ImageEntriesSucceed(vs: seq<Value>, n: nat, i: nat, offset: uint32, acc: seq<Image>)
    requires i <= n
    requires forall k :: 0 <= k < n ==> ImageAt(vs, k, 0).Ok?
    ensures ImageEntries(vs, n, i, offset, acc).Ok?
    decreases n - i
  {
    if i < n {
      assert ImageAt(vs, i, 0).Ok?;
      var image := ImageAt(vs, i, offset).value;
      ImageEntriesSucceed(vs, n, i + 1, Wrap32(offset + image.compressedSize), acc + [image]);
    }
  }

  lemma ChannelConsumes(copy: Copy, c: Channel, op: Opcode, vs: seq<Value>)
    requires Fits(LayoutOf(copy, op), vs)
    ensures ApplyChannel(c, op, vs).Ok?
  {
    if ChannelHandles(op) {
      FixedAt(LayoutOf(copy, op).fields, vs, 0);
      if op == ChannelOffset {
        FixedAt(LayoutOf(copy, op).fields, vs, 1);
      }
    }
  }

  lemma FrameConsumes(copy: Copy, f: Frame, op: Opcode, vs: seq<Value>)
    requires Fits(LayoutOf(copy, op), vs)
    ensures ApplyFrame(f, op, vs).Ok?
  {
    if FrameHandles(op) {
      FixedAt(LayoutOf(copy, op).fields, vs, 0);
      FixedAt(LayoutOf(copy, op).fields, vs, 1);
    }
  }

  lemma ShapeConsumes(copy: Copy, order: ArgOrder, s: Shape, op: Opcode, vs: seq<Value>)
    requires Fits(LayoutOf(copy, op), vs)
    ensures ApplyShape(order, s, op, vs).Ok?
  {
    if op == ShapeKitterspeak {
      KitterspeakConsumes(copy, order, s, op, vs);
    } else if ShapeHandles(op) {
      ShapeFieldsConsume(copy, order, s, op, vs);
    }
  }

  /** The counted Kitterspeak triples of a shape are read whole. */
  lemma KitterspeakConsumes(copy: Copy, order: ArgOrder, s: Shape, op: Opcode, vs: seq<Value>)
    requires op == ShapeKitterspeak
    requires Fits(LayoutOf(copy, op), vs)
    ensures ApplyShape(order, s, op, vs).Ok?
  {
    var layout := LayoutOf(copy, op);
    assert TypesOf(vs)[0] == UInt16;
    forall k | 0 <= k < vs[0].u16
      ensures KitterspeakAt(order, vs, k).Ok?
    {
      CountedAt(layout, vs, k, 0);
      CountedAt(layout, vs, k, 1);
      CountedAt(layout, vs, k, 2);
    }
    KitterspeakEntriesSucceed(order, vs, vs[0].u16, 0, []);
  }

  /** The fixed-field cases of a shape read fields of the types the table gives. */
  lemma ShapeFieldsConsume(copy: Copy, order: ArgOrder, s: Shape, op: Opcode, vs: seq<Value>)
    requires ShapeHandles(op) && op != ShapeKitterspeak
    requires Fits(LayoutOf(copy, op), vs)
    ensures ApplyShape(order, s, op, vs).Ok?
  {
    FixedAt(LayoutOf(copy, op).fields, vs, 0);
    if op == ShapeRatio {
      FixedAt(LayoutOf(copy, op).fields, vs, 1);
    }
  }

  lemma ObjectConsumes(copy: Copy, o: Object, op: Opcode, vs: seq<Value>)
    requires Fits(LayoutOf(copy, op), vs)
    ensures ApplyObject(o, op, vs).Ok?
  {
    if op == ObjectAuthors || op == ObjectKeywords {
      ObjectListsConsume(copy, o, op, vs);
    } else if ObjectHandles(op) {
      ObjectFieldsConsume(copy, o, op, vs);
    }
  }

  /** The counted string lists of an object are read whole. */
  lemma ObjectListsConsume(copy: Copy, o: Object, op: Opcode, vs: seq<Value>)
    requires op == ObjectAuthors || op == ObjectKeywords
    requires Fits(LayoutOf(copy, op), vs)
    ensures ApplyObject(o, op, vs).Ok?
  {
    StringEntriesSucceed(vs, 0, []);
    assert TypesOf(vs)[0] == UInt16;
  }

  /** The fixed-field cases of an object read fields of the types the table gives. */
  lemma ObjectFieldsConsume(copy: Copy, o: Object, op: Opcode, vs: seq<Value>)
    requires ObjectHandles(op) && op != ObjectAuthors && op != ObjectKeywords
    requires Fits(LayoutOf(copy, op), vs)
    ensures ApplyObject(o, op, vs).Ok?
  {
    FixedAt(LayoutOf(copy, op).fields, vs, 0);
    if op == ObjectFilter {
      FixedAt(LayoutOf(copy, op).fields, vs, 1);
    }
  }

  lemma FileConsumes(copy: Copy, g: Contents, op: Opcode, vs: seq<Value>)
    requires Fits(LayoutOf(copy, op), vs)
    ensures ApplyFile(g, op, vs).Ok?
  {
    var layout := LayoutOf(copy, op);
    if op == FileImageList {
      assert TypesOf(vs)[0] == UInt32;
      forall k | 0 <= k < vs[0].u32
        ensures ImageAt(vs, k, 0).Ok?
      {
        CountedAt(layout, vs, k, 0);
        CountedAt(layout, vs, k, 1);
        CountedAt(layout, vs, k, 2);
        CountedAt(layout, vs, k, 3);
      }
      ImageEntriesSucceed(vs, vs[0].u32, 0, 0, []);
    } else if op == FileGenerator {
      FixedAt(layout.fields, vs, 0);
    }
  }

  /**
   * The readers of the entity `switch`es never run past or mistype a decoded
   * command's values: on any command `DecodeCommand` accepts, taking the
   * level and count of a `LIST_START` and every entity's case succeed, so
   * `MissingValue` and `BadVariantAccess` never arise from a decoded command.
   */
  lemma DecodedCommandsConsumed(cfg: Config, d: bytes, p: nat, c: Channel, f: Frame, s: Shape, o: Object, g: Contents)
    requires DecodeCommand(cfg.copy, d, p).Ok?
    ensures var cmd := DecodeCommand(cfg.copy, d, p).value;
      (cmd.op == ListStart ==> TakeU8(cmd.values, 0).Ok? && TakeU32(cmd.values, 1).Ok?) &&
      ApplyChannel(c, cmd.op, cmd.values).Ok? && ApplyFrame(f, cmd.op, cmd.values).Ok? &&
      ApplyShape(cfg.order, s, cmd.op, cmd.values).Ok? && ApplyObject(o, cmd.op, cmd.values).Ok? &&
      ApplyFile(g, cmd.op, cmd.values).Ok?
  {
    var cmd := DecodeCommand(cfg.copy, d, p).value;
    DecodedFits(cfg.copy, d, p);
    if cmd.op == ListStart {
      FixedAt([Byte, Word32], cmd.values, 0);
      FixedAt([Byte, Word32], cmd.values, 1);
    }
    ChannelConsumes(cfg.copy, c, cmd.op, cmd.values);
    FrameConsumes(cfg.copy, f, cmd.op, cmd.values);
    ShapeConsumes(cfg.copy, cfg.order, s, cmd.op, cmd.values);
    ObjectConsumes(cfg.copy, o, cmd.op, cmd.values);
    FileConsumes(cfg.copy, g, cmd.op, cmd.values);
  }
}
