# Furcadia 3DS client core in Dafny

This project models the file-format and engine core of a Nintendo 3DS client for Furcadia. It also proves properties of that model:

- **FOX5 containers**, the game's image-and-object archives. A 20-byte footer ends in the magic `FOX5.1.1` and gives the compression type, the encryption type and the sizes of the command block. The 16 bytes before the footer hold a cipher seed when the block is encrypted. The block is decrypted, decompressed, and then parsed as a stream of one-byte opcodes with big-endian operands. The stream forms a tree of lists: file, objects, shapes, frames, channels. The file level holds the image table. Each image's offset is the running sum of the compressed sizes before it, taken as a `uint32_t`.
- The repository has **two copies of the FOX5 reader**: `FOX5File` in `src/fox5/` and `FOX5` in `src/furcformats/`. The model covers both through a `Copy` parameter. The copies differ in two ways:
  - The socket entry of `FRAME_ATTACH_SOCKETS` is 8 bytes in `src/fox5/`, which reads a 16-bit word and keeps its low byte. It is 7 bytes in `src/furcformats/`, which reads one byte.
  - Only `FOX5` records the lower-cased base name of its path.
- **The byte readers and the cursor** (`readUint8` … `readUInt8Array`) of `filecommon.cpp` and of `fox5/fox5.cpp`.
- **The Dream map reader** (`dreamfile.cpp`):
  - the size check;
  - the `MAP Vx.y Furcadia` magic line;
  - up to 32 `key=value` header lines ending in `BODY`;
  - the body of 3, 5 or 7 planes of little-endian 16-bit values, depending on the version;
  - `get(x, y)` over tiles stored column by column.
- **The texture helpers** of `3dstexture.cpp`:
  - `nextPowerOf2`;
  - `padImage`;
  - the RGBA rotation of every 4-byte pixel;
  - `reverse_morton_order`, which reorders a bottom-up image into 8×8 Morton-ordered tiles and reverses the bytes of each pixel.
- **The texture cache** lookup `getFromFox`.
- **The scene tree** operations `addSubScene`, `replace` and `remove`.

Modelling conventions:

- Byte buffers are `seq<uint8>`, and file contents are the file's bytes.
- A C++ `uint8_t**` data pointer is a `Cursor` object whose position the reads advance.
- Objects the source updates in place are classes: `FOX5Command`, `FOX5File`/`FOX5`, `Dream`, `TextureCache` and `Scene`. Their methods are proved against pure functions of the old state.
- Every throw site is a constructor of an error datatype, returned as `Err`.
- The LZMA decoder and the cipher library are parameters. So is the unspecified evaluation order of the two argument reads in a Kitterspeak entry: `ArgOrder`.

## Model

| member | source | states |
|---|---|---|
| `Common.Wrap32` | src/fox5/fox5.cpp:743 | the value a `uint32_t` holds after the offset addition: unchanged in range, otherwise congruent modulo 2^32 |
| `Common.Be16` | src/furcformats/filecommon.cpp:74-83 | definition: the big-endian value of two bytes, first byte most significant |
| `Common.Be32` | src/furcformats/filecommon.cpp:48-59 | definition: the big-endian value of four bytes, first byte most significant |
| `Common.Encode16` | src/furcformats/filecommon.cpp:74-83 | the two bytes whose big-endian reading is the value |
| `Common.Encode32` | src/furcformats/filecommon.cpp:48-59 | the four bytes whose big-endian reading is the value |
| `Common.Encode16OfBe16` | src/furcformats/filecommon.cpp:74-83 | encoding a 16-bit reading gives back the same two bytes (the other half of the round trip) |
| `Common.Encode32OfBe32` | src/furcformats/filecommon.cpp:48-59 | encoding a 32-bit reading gives back the same four bytes |
| `Common.ToInt8` | src/furcformats/filecommon.cpp:106-114 | the signed byte is congruent to the unsigned one modulo 2^8 |
| `Common.ToInt16` | src/furcformats/filecommon.cpp:85-94 | the signed word is congruent to the unsigned one modulo 2^16 |
| `Common.ToInt32` | src/furcformats/filecommon.cpp:61-72 | the signed word is congruent to the unsigned one modulo 2^32 |
| `Common.FromInt16` | src/furcformats/filecommon.cpp:85-94 | the bit pattern that reinterprets back to the signed value |
| `Common.FromInt32` | src/furcformats/filecommon.cpp:61-72 | the bit pattern that reinterprets back to the signed value |
| `Common.ToInt16Injective` | src/furcformats/filecommon.cpp:85-94 | distinct 16-bit patterns give distinct signed values |
| `Common.AsChars` | src/furcformats/filecommon.cpp:116-125 | a string of the same length whose character codes are the bytes |
| `Common.Zeros` | src/fox5/fox5.cpp:762 | a buffer of the requested size holding only zeros, as a resized vector does |
| `FileCommon.ReadUint8` | src/furcformats/filecommon.cpp:96-104 | succeeds iff one byte is left, else `EndOfData(1)`; the value is that byte and the position advances by 1 |
| `FileCommon.ReadInt8` | src/furcformats/filecommon.cpp:106-114 | succeeds iff one byte is left; the value is that byte reinterpreted as signed |
| `FileCommon.ReadUint16` | src/furcformats/filecommon.cpp:74-83 | succeeds iff two bytes are left, else `EndOfData(2)`; those bytes are the big-endian encoding of the value |
| `FileCommon.ReadInt16` | src/furcformats/filecommon.cpp:85-94 | succeeds iff two bytes are left; they are the two's-complement big-endian encoding of the value |
| `FileCommon.ReadUint32` | src/furcformats/filecommon.cpp:48-59 | succeeds iff four bytes are left, else `EndOfData(4)`; those bytes are the big-endian encoding of the value |
| `FileCommon.ReadInt32` | src/furcformats/filecommon.cpp:61-72 | succeeds iff four bytes are left; they are the two's-complement big-endian encoding of the value |
| `FileCommon.ReadBytes` | src/furcformats/filecommon.cpp:127-136 | succeeds iff `n` bytes are left; the result is exactly the next `n` bytes of the buffer |
| `FileCommon.ReadString` | src/furcformats/filecommon.cpp:116-125 | succeeds iff `n` bytes are left; the result's characters are the next `n` bytes |
| `FileCommon.ReadZeroBytes` | src/furcformats/filecommon.cpp:127-136 | reading zero bytes or zero characters succeeds anywhere up to the end and consumes nothing |
| `FileCommon.ReadUint16OfEncode` | src/furcformats/filecommon.cpp:74-83 | an encoded 16-bit value reads back as itself wherever it sits |
| `FileCommon.ReadUint32OfEncode` | src/furcformats/filecommon.cpp:48-59 | an encoded 32-bit value reads back as itself wherever it sits |
| `FileCommon.ReadInt16OfEncode` | src/furcformats/filecommon.cpp:85-94 | a signed 16-bit value in two's complement reads back as itself |
| `FileCommon.ReadInt32OfEncode` | src/furcformats/filecommon.cpp:61-72 | a signed 32-bit value in two's complement reads back as itself |
| `FileCommon.SignedAgreesWithUnsigned` | src/furcformats/filecommon.cpp:61-94 | the signed and unsigned readers consume the same bytes, agree below the sign bit and differ by 2^n at or above it |
| `FileCommon.Cursor.NextUint8` | src/fox5/fox5.cpp:103-111 | the pure byte reader's result; the pointer advances on success and stays put on failure |
| `FileCommon.Cursor.NextUint16` | src/fox5/fox5.cpp:81-90 | the pure 16-bit reader's result and position |
| `FileCommon.Cursor.NextInt16` | src/fox5/fox5.cpp:92-101 | the pure signed 16-bit reader's result and position |
| `FileCommon.Cursor.NextUint32` | src/fox5/fox5.cpp:55-66 | the pure 32-bit reader's result and position |
| `FileCommon.Cursor.NextInt32` | src/fox5/fox5.cpp:68-79 | the pure signed 32-bit reader's result and position |
| `FileCommon.Cursor.NextBytes` | src/fox5/fox5.cpp:134-143 | the pure byte-array reader's result and position |
| `FileCommon.Cursor.NextString` | src/fox5/fox5.cpp:123-132 | the pure string reader's result and position |
| `FileCommon.FindLastSeparator` | src/furcformats/filecommon.cpp:171 | the index of a `/` or `\` with none after it, or none when the path has no separator |
| `FileCommon.GetBasename` | src/furcformats/filecommon.cpp:168-181 | a separator-free suffix of the path, preceded by a separator unless it is the whole path; the whole path when it has no separator |
| `FileCommon.Lowercase` | src/furcformats/fox5.cpp:625-626 | same length, no capital left, and exactly the capitals changed, each `A`–`Z` to the letter 32 code points on, `a`–`z` |
| `FileCommon.LowercaseIdempotent` | src/furcformats/fox5.cpp:625-626 | lower-casing twice is lower-casing once |
| `FileCommon.LowerInPlace` | src/furcformats/dreamfile.cpp:16-17 | the in-place `std::transform` leaves the lower-cased string |
| `Fox5Command.OpcodeOfCode` | src/fox5/fox5.h:17-60 | each opcode's byte decodes to that opcode |
| `Fox5Command.CodeOfOpcode` | src/fox5/fox5.h:17-60 | a byte that decodes is its opcode's code; a byte decodes to nothing iff no opcode has it |
| `Fox5Command.CodeInjective` | src/fox5/fox5.h:17-60 | no two opcodes share a byte |
| `Fox5Command.FieldTypes` | src/fox5/fox5.h:64-74 | one variant tag per field read, in order |
| `Fox5Command.DecodeField` | src/fox5/fox5.cpp:177-409 | one read of the switch: a value of the field's type; for a fixed width it succeeds iff that many bytes are left and consumes exactly them |
| `Fox5Command.DecodeNumber` | src/furcformats/filecommon.cpp:48-114 | a number read succeeds iff its width is left and advances by exactly that width |
| `Fox5Command.DecodeFields` | src/fox5/fox5.cpp:177-409 | the reads of a case keep the values already stored and append one per field |
| `Fox5Command.DecodeFieldsTypes` | src/fox5/fox5.cpp:177-409 | after a case's reads the value list is the old list followed by one value of each field's type |
| `Fox5Command.DecodeEntries` | src/fox5/fox5.cpp:197-211 | a counted group's reads keep the values already stored and stay within the buffer |
| `Fox5Command.DecodeEntriesTypes` | src/fox5/fox5.cpp:197-211 | after `n` entries the value list is the old list followed by the entry's types `n` times over |
| `Fox5Command.CountedFits` | src/fox5/fox5.cpp:197-211 | a count, its entries and the trailing fields make a value list of the counted layout |
| `Fox5Command.FixedAt` | src/fox5/fox5.cpp:177-409 | field `j` of a fixed case is stored at index `j` with its type |
| `Fox5Command.RepeatAt` | src/fox5/fox5.cpp:197-211 | entry `i`, field `j` of a repeated pattern lies at `i·|ts| + j` |
| `Fox5Command.CountedAt` | src/fox5/fox5.cpp:197-211 | field `j` of entry `i` of a counted case is stored at `1 + i·|entry| + j` with its type |
| `Fox5Command.DecodeLayout` | src/fox5/fox5.cpp:177-409 | one opcode's case reads forward and never past the end |
| `Fox5Command.DecodeLayoutFits` | src/fox5/fox5.cpp:177-409 | what a case decodes has the value types its layout prescribes |
| `Fox5Command.DecodeCommand` | src/fox5/fox5.cpp:177-409 | `EndOfData` at the end; `UnknownCommand` for a byte outside the table (the `default` throw); on success the opcode is the first byte's and the position advances |
| `Fox5Command.DecodedFits` | src/fox5/fox5.cpp:177-409 | every accepted command carries the values its opcode's layout prescribes |
| `Fox5Command.ListStartValues` | src/fox5/fox5.cpp:187-191 | `LIST_START` decodes iff six bytes are there, to `[level, count]` |
| `Fox5Command.UnknownByteRejected` | src/fox5/fox5.cpp:406-407 | a byte outside the opcode table is rejected, naming the byte |
| `Fox5Command.ListEndValues` | src/fox5/fox5.cpp:193-194 | `LIST_END` is one byte and carries no value |
| `Fox5Command.GeneratorValues` | src/fox5/fox5.cpp:213-217 | `FILE_GENERATOR` is two bytes and carries the second |
| `Fox5Command.ImageListValues` | src/fox5/fox5.cpp:197-211 | a decoded image list is a 32-bit count and `count` entries of (u32 size, u16 width, u16 height, u8 format) |
| `Fox5Command.AuthorsHashFallsThrough` | src/fox5/fox5.cpp:237-252 | `AUTHORS_HASH` falls through into `LICENSE`: its count, that many blobs, then one more byte |
| `Fox5Command.FixedFieldsWidth` | src/fox5/fox5.cpp:177-409 | fixed-width reads succeed iff their total width is left, and consume exactly that |
| `Fox5Command.FixedEntriesWidth` | src/fox5/fox5.cpp:197-211 | `n` fixed-width entries succeed iff `n·w` bytes are left, and consume exactly that |
| `Fox5Command.SocketEntryWidth` | src/fox5/fox5.cpp:372-385 | an `ATTACH_SOCKETS` command of count `n` takes `3 + 8n` bytes here and `3 + 7n` in src/furcformats/fox5.cpp:206-219 |
| `Fox5Command.SocketLayout` | src/furcformats/fox5.cpp:206-219 | a socket entry is four fixed reads: 8 bytes in one copy, 7 in the other, both storing a byte as the first value |
| `Fox5Command.DecodeCommandAt` | src/fox5/fox5.cpp:179-181 | a command is its opcode byte followed by the reads of that opcode's case |
| `Fox5Command.CountedWidth` | src/fox5/fox5.cpp:197-211 | a 16-bit count of fixed-width entries consumes `2 + n·w` bytes when they are all there |
| `Fox5Command.Take` | src/fox5/fox5.h:122-129 | succeeds iff the index is in range and holds the asked type; `MissingValue` past the end, `BadVariantAccess` on another type |
| `Fox5Command.TakeAfterAppend` | src/fox5/fox5.h:102-105 | appending keeps every earlier value where it was and makes the new one next in line |
| `Fox5Command.NextField` | src/fox5/fox5.cpp:177-409 | one read through the cursor gives the pure read's value and position |
| `Fox5Command.Command.AddValue` | src/fox5/fox5.h:102-105 | the value is appended, earlier values keep their order, and the capacity covers the new size |
| `Fox5Command.Command.ReserveValues` | src/fox5/fox5.h:107-109 | the contents are unchanged and the capacity covers `n` more values |
| `Fox5Command.Command.GetValue` | src/fox5/fox5.h:122-129 | the value at the old index, checked as `Take`; the index advances on every call, failing ones included |
| `Fox5Command.Command.ReadFields` | src/fox5/fox5.cpp:177-409 | the values appended and the cursor moved as the pure field reads say |
| `Fox5Command.Command.ReadEntries` | src/fox5/fox5.cpp:197-211 | the values appended and the cursor moved as the pure entry reads say |
| `Fox5Command.Command.ReadLayout` | src/fox5/fox5.cpp:177-409 | one case's values and cursor position as the pure layout decoder gives them |
| `Fox5Command.Command.ReadCounted` | src/fox5/fox5.cpp:197-211 | count, reserve, entries, trailer: the values and position of the pure counted layout |
| `Fox5Command.Command.ParseData` | src/fox5/fox5.cpp:177-409 | the command's opcode, values and cursor position are exactly what `DecodeCommand` gives, errors included |
| `Fox5Tree.Resize` | src/fox5/fox5.cpp:611-616 | `resize(n)`: length `n`, the old strings kept in front, empty strings after |
| `Fox5Tree.KitterspeakAt` | src/fox5/fox5.cpp:552-566 | entry `i` succeeds iff values `1+3i..3+3i` are (u16, i16, i16); its arguments come from them in the chosen evaluation order |
| `Fox5Tree.KitterspeakEntries` | src/fox5/fox5.cpp:552-566 | the Kitterspeak loop appends one entry per count |
| `Fox5Tree.StringEntries` | src/fox5/fox5.cpp:640-646 | the keyword loop appends one string per count |
| `Fox5Tree.ImageAt` | src/fox5/fox5.cpp:725-746 | image entry `i` succeeds iff values `1+4i..4+4i` have the image types; it gets the running offset and those fields |
| `Fox5Tree.ImageEntries` | src/fox5/fox5.cpp:725-746 | the image loop appends one image per count |
| `Fox5Tree.ChannelStep` | src/fox5/fox5.cpp:411-449 | one turn of `Channel::parseData` consumes at least one byte |
| `Fox5Tree.ChannelLoop` | src/fox5/fox5.cpp:411-449 | `Channel::parseData` never moves backwards |
| `Fox5Tree.Channels` | src/fox5/fox5.cpp:469-475 | a frame's child list yields exactly `count` channels |
| `Fox5Tree.FrameStep` | src/fox5/fox5.cpp:451-497 | one turn of `Frame::parseData` consumes at least one byte |
| `Fox5Tree.FrameLoop` | src/fox5/fox5.cpp:451-497 | `Frame::parseData` never moves backwards |
| `Fox5Tree.Frames` | src/fox5/fox5.cpp:517-523 | a shape's child list yields exactly `count` frames |
| `Fox5Tree.ShapeStep` | src/fox5/fox5.cpp:499-569 | one turn of `Shape::parseData` consumes at least one byte |
| `Fox5Tree.ShapeLoop` | src/fox5/fox5.cpp:499-569 | `Shape::parseData` never moves backwards |
| `Fox5Tree.Shapes` | src/fox5/fox5.cpp:589-595 | an object's child list yields exactly `count` shapes |
| `Fox5Tree.ObjectStep` | src/fox5/fox5.cpp:571-691 | one turn of `Object::parseData` consumes at least one byte |
| `Fox5Tree.ObjectLoop` | src/fox5/fox5.cpp:571-691 | `Object::parseData` never moves backwards |
| `Fox5Tree.Objects` | src/fox5/fox5.cpp:711-717 | the file's child list yields exactly `count` objects |
| `Fox5Tree.FileStep` | src/fox5/fox5.cpp:693-755 | one turn of `File::parseData` consumes at least one byte |
| `Fox5Tree.FileLoop` | src/fox5/fox5.cpp:693-755 | `File::parseData` never moves backwards |
| `Fox5Tree.ApplyChannel` | src/fox5/fox5.cpp:431-447 | definition: the channel's `switch`: each handled opcode sets its member from the typed values, any other opcode leaves the channel as it is, a missing or mistyped value fails |
| `Fox5Tree.ApplyFrame` | src/fox5/fox5.cpp:483-494 | definition: the frame's `switch`, in the same form |
| `Fox5Tree.ApplyShape` | src/fox5/fox5.cpp:531-566 | definition: the shape's `switch`, the Kitterspeak case reading its entries in the given argument order |
| `Fox5Tree.CountedStrings` | src/fox5/fox5.cpp:611-616 | definition: `resize(count)` of the list, then `count` strings pushed after it |
| `Fox5Tree.ApplyObject` | src/fox5/fox5.cpp:604-688 | definition: the object's `switch`, in the same form |
| `Fox5Tree.ApplyFile` | src/fox5/fox5.cpp:720-752 | definition: the file's `switch`: the image table with running offsets, the generator, other opcodes ignored |
| `Fox5Tree.ApplyChannelCommand` | src/fox5/fox5.cpp:411-449 | the channel's `switch` through `getValue` gives the pure channel update and leaves the command's values alone |
| `Fox5Tree.ApplyFrameCommand` | src/fox5/fox5.cpp:483-494 | the frame's `switch` gives the pure frame update |
| `Fox5Tree.ReadKitterspeakEntry` | src/fox5/fox5.cpp:559-563 | three `getValue` calls give entry `i` and move the index to the next entry |
| `Fox5Tree.ReadKitterspeak` | src/fox5/fox5.cpp:552-566 | the Kitterspeak loop gives the pure entry list |
| `Fox5Tree.ApplyShapeCommand` | src/fox5/fox5.cpp:531-566 | the shape's `switch` gives the pure shape update |
| `Fox5Tree.ReadStrings` | src/fox5/fox5.cpp:640-646 | the keyword loop gives the pure string list |
| `Fox5Tree.ReadCountedStrings` | src/fox5/fox5.cpp:611-616 | the authors case gives the pure resize-and-append result |
| `Fox5Tree.ApplyObjectCommand` | src/fox5/fox5.cpp:604-688 | the object's `switch` gives the pure object update |
| `Fox5Tree.ApplyObjectNumber` | src/fox5/fox5.cpp:648-688 | the object's numeric cases give the pure object update |
| `Fox5Tree.ReadImage` | src/fox5/fox5.cpp:730-744 | four `getValue` calls give image `i` at the running offset and move the index on |
| `Fox5Tree.ReadImages` | src/fox5/fox5.cpp:725-746 | the image loop gives the pure image list, offsets from 0 |
| `Fox5Tree.ChannelTurn` | src/fox5/fox5.cpp:411-449 | one turn on the cursor: the pure step's outcome and position |
| `Fox5Tree.ParseChannel` | src/fox5/fox5.cpp:411-449 | the channel loop on the cursor: the pure loop's channel and position |
| `Fox5Tree.ParseChannels` | src/fox5/fox5.cpp:469-475 | `count` channels on the cursor: the pure list and position |
| `Fox5Tree.FrameTurn` | src/fox5/fox5.cpp:451-497 | one turn on the cursor: the pure step's outcome and position |
| `Fox5Tree.ParseFrame` | src/fox5/fox5.cpp:451-497 | the frame loop on the cursor: the pure loop's frame and position |
| `Fox5Tree.ParseFrames` | src/fox5/fox5.cpp:517-523 | `count` frames on the cursor: the pure list and position |
| `Fox5Tree.ShapeTurn` | src/fox5/fox5.cpp:499-569 | one turn on the cursor: the pure step's outcome and position |
| `Fox5Tree.ParseShape` | src/fox5/fox5.cpp:499-569 | the shape loop on the cursor: the pure loop's shape and position |
| `Fox5Tree.ParseShapes` | src/fox5/fox5.cpp:589-595 | `count` shapes on the cursor: the pure list and position |
| `Fox5Tree.ObjectTurn` | src/fox5/fox5.cpp:571-691 | one turn on the cursor: the pure step's outcome and position |
| `Fox5Tree.ParseObject` | src/fox5/fox5.cpp:571-691 | the object loop on the cursor: the pure loop's object and position |
| `Fox5Tree.ParseObjects` | src/fox5/fox5.cpp:711-717 | `count` objects on the cursor: the pure list and position |
| `Fox5Tree.ImageEntriesAccumulate` | src/fox5/fox5.cpp:743 | image offsets accumulate: the first is 0, each next is the previous offset plus its compressed size modulo 2^32, and each image is described by its values |
| `Fox5Tree.ImageListOffsets` | src/fox5/fox5.cpp:725-746 | after `FILE_IMAGE_LIST` the file's images have accumulating offsets and the decoded fields |
| `Fox5Tree.ThreeImages` | src/fox5/fox5.cpp:725-746 | a three-image list sets exactly those three images with offsets 0, s1, s1+s2 |
| `Fox5Tree.ImageOffsetsExample` | src/fox5/fox5.cpp:725-746 | sizes 100, 200, 50 give offsets 0, 100, 300 |
| `Fox5Tree.ImageOffsetsWrap` | src/fox5/fox5.cpp:743 | sizes 2^32−1 and 2 give a third offset of 1: the `uint32_t` sum wraps |
| `Fox5Tree.StringEntriesAfterCount` | src/fox5/fox5.cpp:640-646 | keyword `k` is the string stored right after the count, at value `k + 1` |
| `Fox5Tree.CountedStringsDoubled` | src/fox5/fox5.cpp:611-616 | the authors case resizes the list to `count` and then pushes the `count` strings after it: `2·count` names, the old ones (or empty ones) first |
| `Fox5Tree.SwapAll` | src/fox5/fox5.cpp:559-563 | each entry with its two arguments swapped |
| `Fox5Tree.KitterspeakOrders` | src/fox5/fox5.cpp:559-563 | the two evaluation orders differ only by swapping each entry's arguments, and only in the Kitterspeak case |
| `Fox5Tree.NestingLevels` | src/fox5/fox5.cpp:421-424 | a channel refuses any list; a frame, shape, object or file refuses a list of the wrong level (4, 3, 2, 1) |
| `Fox5Tree.ChildLists` | src/fox5/fox5.cpp:464-475 | a list of the right level parses exactly `count` children and adds them in order |
| `Fox5Tree.LoopsEnd` | src/fox5/fox5.cpp:193-194 | every entity's loop stops at `LIST_END` or at the end of the buffer with its state unchanged |
| `Fox5Tree.UnhandledIgnored` | src/fox5/fox5.cpp:411-691 | a decoded command an entity does not handle is skipped: its loop goes on after it with the state unchanged |
| `Fox5Tree.FileCommandApplied` | src/fox5/fox5.cpp:720-752 | any other file-level command is applied by the pure file update, and the loop goes on after it |
| `Fox5Tree.StringEntriesSucceed` | src/fox5/fox5.cpp:640-646 | a keyword list that decoded also applies without error |
| `Fox5Tree.KitterspeakEntriesSucceed` | src/fox5/fox5.cpp:552-566 | when every entry reads, the Kitterspeak loop succeeds |
| `Fox5Tree.ImageEntriesSucceed` | src/fox5/fox5.cpp:725-746 | when every entry reads, the image loop succeeds |
| `Fox5Tree.ChannelConsumes` | src/fox5/fox5.cpp:411-449 | every command that decoded applies to a channel without a `getValue` error |
| `Fox5Tree.FrameConsumes` | src/fox5/fox5.cpp:451-497 | every command that decoded applies to a frame without a `getValue` error |
| `Fox5Tree.ShapeConsumes` | src/fox5/fox5.cpp:499-569 | every command that decoded applies to a shape without a `getValue` error |
| `Fox5Tree.KitterspeakConsumes` | src/fox5/fox5.cpp:552-566 | a decoded Kitterspeak command applies in either evaluation order |
| `Fox5Tree.ShapeFieldsConsume` | src/fox5/fox5.cpp:531-551 | the decoded single-field shape commands apply |
| `Fox5Tree.ObjectConsumes` | src/fox5/fox5.cpp:571-691 | every command that decoded applies to an object without a `getValue` error |
| `Fox5Tree.ObjectListsConsume` | src/fox5/fox5.cpp:611-646 | decoded author and keyword lists apply |
| `Fox5Tree.ObjectFieldsConsume` | src/fox5/fox5.cpp:648-688 | decoded single-field object commands apply |
| `Fox5Tree.FileConsumes` | src/fox5/fox5.cpp:720-752 | every command that decoded applies to the file without a `getValue` error |
| `Fox5Tree.DecodedCommandsConsumed` | src/fox5/fox5.cpp:177-409 | two-stage decoding never fails in its second stage: a command `FOX5Command` accepted is accepted by every entity |
| `Fox5File.FooterBytes` | src/fox5/fox5.cpp:793-808 | the 20 bytes a footer occupies |
| `Fox5File.ReadFooter` | src/fox5/fox5.cpp:791-815 | `TooSmall` below 20 bytes; otherwise it succeeds exactly when the last eight bytes are the magic `FOX5.1.1`, else `NotAFox5File` |
| `Fox5File.FooterRoundTrip` | src/fox5/fox5.cpp:793-815 | a written footer reads back as itself, whatever precedes it and whatever the reserved bytes hold |
| `Fox5File.FooterLayout` | src/fox5/fox5.cpp:793-808 | a footer that reads is exactly the last 20 bytes, the reserved ones aside |
| `Fox5File.ReadSeed` | src/fox5/fox5.cpp:818-823 | 16 bytes; it fails iff the file is encrypted and shorter than 36 bytes; zeros when unencrypted |
| `Fox5File.SeedPrecedesFooter` | src/fox5/fox5.cpp:818-823 | the seed is the 16 bytes directly before the footer, never inside it |
| `Fox5File.Got` | src/fox5/fox5.cpp:825-828 | a read delivers no more than asked, and less iff the request runs past the end |
| `Fox5File.ReadInto` | src/fox5/fox5.cpp:825-828 | a failed stream leaves the zero-filled buffer; otherwise `BufferOverrun` iff more bytes arrive than the buffer holds, else the bytes delivered followed by zeros |
| `Fox5File.ReadWithinFile` | src/fox5/fox5.cpp:825-828 | a read that fits in file and buffer delivers exactly the requested bytes and keeps the stream good |
| `Fox5File.Decrypt` | src/fox5/fox5.cpp:830-837 | unencrypted data passes through; encrypted data succeeds iff the cipher is available |
| `Fox5File.Decompress` | src/fox5/fox5.cpp:839-846 | `NOT` passes data through; only `NOT` and `LZMA` can succeed |
| `Fox5File.NoUndecryptedData` | src/fox5/fox5.cpp:830-837 | encrypted data is never used as is: without a cipher it is refused, with one the result is the cipher's output |
| `Fox5File.UnknownCompressionRejected` | src/fox5/fox5.cpp:839-846 | every other compression type, ZLIB included, is refused naming the type |
| `Fox5File.RootList` | src/fox5/fox5.cpp:850-862 | definition: the command at byte 4 must be `LIST_START` of level 0 and count 1; the result is the position after it, else the source's error |
| `Fox5File.ReadHeader` | src/fox5/fox5.cpp:791-846 | definition: footer, seed, the read of the compressed block, decryption and decompression, stopping at the first error |
| `Fox5File.LoadBlock` | src/fox5/fox5.cpp:848-864 | definition: the root check, then `parseData` from empty contents |
| `Fox5File.Load` | src/fox5/fox5.cpp:785-865 | definition: the constructor: `ReadHeader`, then `LoadBlock`, with the footer's types, the seed, the sizes and the image start recorded |
| `Fox5File.FileNameOf` | src/furcformats/fox5.cpp:623-626 | definition: `FOX5` records its path's lower-cased base name, `FOX5File` none |
| `Fox5File.RootAccepted` | src/fox5/fox5.cpp:848-862 | the root is accepted iff bytes 4–9 are `LIST_START`, level 0, count 1; parsing then starts at byte 10 |
| `Fox5File.RootMustBeListStart` | src/fox5/fox5.cpp:854-862 | any other first command is refused |
| `Fox5File.FileNameIsBasename` | src/furcformats/fox5.cpp:623-626 | `FOX5` records the last path component lower-cased, with no separator or capital; `FOX5File` records none |
| `Fox5File.LoadedFile` | src/fox5/fox5.cpp:785-865 | a loaded file's footer, seed and image start come from the file, and its contents are what `parseData` built from the block |
| `Fox5File.LoadRejectsNonFox5` | src/fox5/fox5.cpp:791-815 | a file shorter than the footer or with another magic is refused with the matching error |
| `Fox5File.PlainHeader` | src/fox5/fox5.cpp:825-846 | an uncompressed, unencrypted file hands back exactly its block |
| `Fox5File.GeneratorBlock` | src/fox5/fox5.cpp:748-752 | the root list followed by `FILE_GENERATOR g` loads as generator `g` and nothing else |
| `Fox5File.PlainFileLoads` | src/fox5/fox5.cpp:785-865 | a plain file built from a generator block loads, with the generator set |
| `Fox5File.MemSize` | src/fox5/fox5.h:154-160 | `w·h`, or `4·w·h` modulo 2^32 for 32-bit images |
| `Fox5File.MemSizeWraps` | src/fox5/fox5.h:154-160 | a 32768 × 32768 32-bit image has a memory size of 0; small sizes come out right |
| `Fox5File.ImageIndexChecked` | src/fox5/fox5.cpp:759-760 | an index past the image list is refused and leaves the stream as it was |
| `Fox5File.ImageOf` | src/fox5/fox5.cpp:757-783 | definition: `getImage(id)`: `ImageIndexOutOfBounds` past the table, else the compressed bytes read at `imageStart + offset` modulo 2^32 into a buffer of the memory size, decrypted and decompressed |
| `Fox5File.PlainImage` | src/fox5/fox5.cpp:757-783 | an in-range plain image on a good stream is exactly its bytes at `imageStart + offset` taken modulo 2^32, as the `size_t` sum of two `uint32_t` is on the 3DS, zero-filled to the memory size |
| `Fox5File.ImageSeekWraps` | src/fox5/fox5.cpp:763 | with the block starting at 16, an image at offset 0xFFFFFFF8 is read from byte 8: the seek position wraps (likewise src/furcformats/fox5.cpp:597) |
| `Fox5File.FailedStreamReadsZeros` | src/fox5/fox5.cpp:762-764 | a failed stream stays failed, and a plain image then reads as zeros |
| `Fox5File.ReadFooterFrom` | src/fox5/fox5.cpp:793-815 | the stream reads of the footer give `ReadFooter` |
| `Fox5File.ReadRoot` | src/fox5/fox5.cpp:850-862 | the cursor-based root check gives `RootList` and leaves the cursor after the root command |
| `Fox5File.Fox5File.Open` | src/fox5/fox5.cpp:785-865 | the constructor's outcome: the object's state is `Load` of the file, or the error it throws |
| `Fox5File.Fox5File.ParseBlock` | src/fox5/fox5.cpp:848-864 | the root check and `parseData` give the pure block loader's contents |
| `Fox5File.Fox5File.SetFileName` | src/furcformats/fox5.cpp:623-626 | the recorded name is the pure name for the copy |
| `Fox5File.Fox5File.ReadHeaderIn` | src/fox5/fox5.cpp:793-846 | footer, seed, block read, decryption and decompression give the pure header reader's result |
| `Fox5File.Fox5File.ParseData` | src/fox5/fox5.cpp:693-755 | the in-place loop builds the same contents as the pure file loop |
| `Fox5File.Fox5File.FileTurn` | src/fox5/fox5.cpp:697-753 | one turn gives the pure file step |
| `Fox5File.Fox5File.Apply` | src/fox5/fox5.cpp:720-752 | the file's `switch` gives the pure file update |
| `Fox5File.Fox5File.GetImage` | src/fox5/fox5.cpp:757-783 | `getImage` returns the pure image reader's result, read at the wrapped 32-bit position `imageStart + offset`, and leaves the failbit `FailedAfter` says |
| `DreamFile.TakeLine` | src/furcformats/dreamfile.cpp:38-40 | `getline`: the characters up to `'\n'` and no further, within the limit; a newline inside the limit is consumed and the stream stays good, otherwise it fails |
| `DreamFile.GetLine` | src/furcformats/dreamfile.cpp:39 | on a failed stream nothing is read; otherwise the stream only moves forward |
| `DreamFile.LineRead` | src/furcformats/dreamfile.cpp:39 | a line that ends within the limit is read whole |
| `DreamFile.LongLineStops` | src/furcformats/dreamfile.cpp:39 | an over-long line fails the stream, and every later line is empty |
| `DreamFile.CStr` | src/furcformats/dreamfile.cpp:40 | `std::string(buffer)`: the prefix before the first NUL |
| `DreamFile.CStrWhole` | src/furcformats/dreamfile.cpp:40 | a buffer without NUL is copied whole |
| `DreamFile.SkipSpaces` | src/furcformats/dreamfile.cpp:54 | the first non-space at or after the start |
| `DreamFile.DigitsEnd` | src/furcformats/dreamfile.cpp:54 | the end of the run of digits |
| `DreamFile.ScanInt` | src/furcformats/dreamfile.cpp:29 | a scanned number ends on its last digit, with no digit right after it |
| `DreamFile.Decimal` | src/furcformats/dreamfile.cpp:54 | a non-empty run of decimal digits |
| `DreamFile.DecimalValue` | src/furcformats/dreamfile.cpp:54 | the digits of `n` are worth `n` |
| `DreamFile.DigitsAt` | src/furcformats/dreamfile.cpp:54 | a run of digits with no digit after it ends where the run does |
| `DreamFile.ScanDigitsAt` | src/furcformats/dreamfile.cpp:29 | digits after an optional '-' scan as their signed value |
| `DreamFile.ScanSignedAt` | src/furcformats/dreamfile.cpp:29 | the decimal text of any integer, anywhere, scans back as that integer |
| `DreamFile.ScanSigned` | src/furcformats/dreamfile.cpp:54 | scanning the decimal text of `v` gives `v` |
| `DreamFile.StoI` | src/furcformats/dreamfile.cpp:54-77 | `std::stoi`: `InvalidNumber` iff no number, `NumberOutOfRange` iff outside `int`, else the scanned value |
| `DreamFile.StoISigned` | src/furcformats/dreamfile.cpp:54-77 | `stoi` reads back the decimal text of every `int` |
| `DreamFile.ScanVersion` | src/furcformats/dreamfile.cpp:29 | definition: `MAP`, any spaces, `V`, then `ScanNumbers`; `None` when a conversion fails |
| `DreamFile.ScanNumbers` | src/furcformats/dreamfile.cpp:29 | definition: `%d.%d`: a number, a '.', a number, both as exact integers |
| `DreamFile.ScanVersionParts` | src/furcformats/dreamfile.cpp:29-32 | `MAP V`, a number, '.', a number: that version |
| `DreamFile.MagicLayout` | src/furcformats/dreamfile.cpp:26-29 | where the parts of a magic line sit |
| `DreamFile.ScanMagic` | src/furcformats/dreamfile.cpp:29-32 | the magic line of version `x.y` scans as `(x, y)` |
| `DreamFile.FindLast` | src/furcformats/dreamfile.cpp:48 | `rfind`: an occurrence with none after it, or none at all |
| `DreamFile.SplitKeyValue` | src/furcformats/dreamfile.cpp:48-52 | `key=value` with no '=' in the value splits into that key and value |
| `DreamFile.SplitNoEquals` | src/furcformats/dreamfile.cpp:48-52 | with no '=', the `npos` arithmetic makes the whole line both key and value |
| `DreamFile.KeyName` | src/furcformats/dreamfile.cpp:54-77 | every key has a non-empty spelling |
| `DreamFile.FindKey` | src/furcformats/dreamfile.cpp:54-77 | the key found is spelled as the text and in the list; none means no key in the list is spelled so |
| `DreamFile.FindKeyNone` | src/furcformats/dreamfile.cpp:78-79 | a text no key spells finds nothing |
| `DreamFile.ParseKey` | src/furcformats/dreamfile.cpp:54-79 | the key the comparison chain picks is spelled as the text |
| `DreamFile.KeyNameInjective` | src/furcformats/dreamfile.cpp:54-77 | no two keys share a spelling |
| `DreamFile.KeyIndex` | src/furcformats/dreamfile.cpp:54-77 | each key has a place in the comparison chain |
| `DreamFile.FindKeyAt` | src/furcformats/dreamfile.cpp:54-77 | the chain picks the first key spelled as the text |
| `DreamFile.ParseKeyName` | src/furcformats/dreamfile.cpp:54-77 | every key's spelling is recognised as that key: no test shadows a later one |
| `DreamFile.Defaults` | src/furcformats/dreamfile.h:38-61 | definition: the members' initial values: 52 × 100, every flag false, every number 0, every string empty but the name |
| `DreamFile.SetText` | src/furcformats/dreamfile.cpp:59-74 | definition: a text key's member set to the value |
| `DreamFile.SetNumber` | src/furcformats/dreamfile.cpp:54-77 | definition: a numeric key's member set to the `stoi` result converted to its type: modulo 2^16, 2^32 or 2^8, or non-zero for a `bool` |
| `DreamFile.ApplyKey` | src/furcformats/dreamfile.cpp:54-79 | definition: the comparison chain: an unknown key changes nothing, a text key sets its member, a numeric key sets it from `stoi` or fails with its error |
| `DreamFile.ApplyKeyOutcome` | src/furcformats/dreamfile.cpp:54-79 | unknown keys change nothing, text keys never fail, numeric keys fail iff `stoi` does |
| `DreamFile.SetNumberSize` | src/furcformats/dreamfile.cpp:54-55 | only `width` and `height` change the dimensions, to the value modulo 2^16 |
| `DreamFile.SetTextKeepsSize` | src/furcformats/dreamfile.cpp:59-74 | text keys never change the dimensions |
| `DreamFile.ApplyKeyKeepsSize` | src/furcformats/dreamfile.cpp:56-79 | a header line whose key is neither `width` nor `height` keeps the dimensions |
| `DreamFile.WidthSplit` | src/furcformats/dreamfile.cpp:48-52 | a `width=<n>` line splits into the key `width` and the text of `n` |
| `DreamFile.WidthLine` | src/furcformats/dreamfile.cpp:54 | a `width=<n>` line sets only the width, to `n` modulo 2^16 |
| `DreamFile.HeaderStep` | src/furcformats/dreamfile.cpp:38-79 | one header line only moves the stream forward |
| `DreamFile.HeaderLoop` | src/furcformats/dreamfile.cpp:34-83 | the header loop only moves the stream forward |
| `DreamFile.BodyEndsHeader` | src/furcformats/dreamfile.cpp:42-46 | a `BODY` line ends the header at once and keeps the attributes |
| `DreamFile.BodyStep` | src/furcformats/dreamfile.cpp:42-46 | one `BODY` line is the end of the header |
| `DreamFile.StoppedStep` | src/furcformats/dreamfile.cpp:38-79 | on a failed stream a header line is empty and changes nothing |
| `DreamFile.StoppedTurn` | src/furcformats/dreamfile.cpp:36-80 | on a failed stream a turn of the loop has no effect |
| `DreamFile.StoppedStreamHasNoBody` | src/furcformats/dreamfile.cpp:82-83 | once the stream has failed, the map has no body |
| `DreamFile.PlanesOf` | src/furcformats/dreamfile.cpp:88-92 | the planes read, as many as `nChannels` |
| `DreamFile.PlaneCountMatches` | src/furcformats/dreamfile.cpp:88-92 | the planes are distinct; 1.50 reads 7, 1.30 reads 5, 1.29 and 0.99 read 3, and so does 2.10, because the minor number is tested on its own |
| `DreamFile.EncodeLe16` | src/furcformats/dreamfile.cpp:127-128 | two bytes whose little-endian reading is the value |
| `DreamFile.EncodePlane` | src/furcformats/dreamfile.cpp:127-128 | a plane of `2n` bytes, low byte first |
| `DreamFile.PlaneRoundTrip` | src/furcformats/dreamfile.cpp:127-128 | decoding an encoded plane gives its values back |
| `DreamFile.ExpectedBytes` | src/furcformats/dreamfile.cpp:94 | definition: `width · height · 2 · nChannels` modulo 2^32 |
| `DreamFile.CopiesPlane` | src/furcformats/dreamfile.cpp:113-286 | definition: floors, objects and lighting are always copied, the other planes only under `if(mEncoded)` |
| `DreamFile.PlaneSource` | src/furcformats/dreamfile.cpp:170-176 | the bytes a plane is stored from, the same length as the block |
| `DreamFile.WithPlane` | src/furcformats/dreamfile.cpp:130-131 | every tile updated from its two bytes |
| `DreamFile.PlaneStep` | src/furcformats/dreamfile.cpp:113-134 | fails iff `offset + 2n` passes the data, naming the plane; otherwise the tiles and an offset advanced by `2n` |
| `DreamFile.ReadBody` | src/furcformats/dreamfile.cpp:95-99 | the read succeeds iff the stream is good and enough bytes are left, and gives exactly those bytes |
| `DreamFile.ReadPlanes` | src/furcformats/dreamfile.cpp:111-286 | definition: the version's plane blocks in order, each starting where the last ended, stopping at the first short one |
| `DreamFile.ReadTiles` | src/furcformats/dreamfile.cpp:86-286 | definition: the read of `expectedBytes`, the refusal of an encoded map, then `ReadPlanes` over `width · height` blank tiles |
| `DreamFile.ReadMagic` | src/furcformats/dreamfile.cpp:21-32 | `TooSmallForDream` iff the file is shorter than 25 bytes; on success the stream stays within the file and the minor byte is the low byte of the 32-bit word `%d` writes |
| `DreamFile.LowByteOfWord` | src/furcformats/dreamfile.cpp:29 | the `uint8_t` named by `%d` receives the low byte of the `int` written |
| `DreamFile.Overwritten` | src/furcformats/dreamfile.h:35-39 | the `%d` writes through `uint8_t*` change only the width and the height, which the next two lemmas pin down |
| `DreamFile.OverwrittenBytes` | src/furcformats/dreamfile.cpp:29 | the minor number's four bytes land on the minor byte, the width and the height's low byte, the height's high byte kept; a minor version below 256 leaves a default map 0 × 0 before the header is read |
| `DreamFile.NamedOverwritten` | src/furcformats/dreamfile.cpp:16-29 | naming the map before or after the overwrite gives the same attributes |
| `DreamFile.LoadDream` | src/furcformats/dreamfile.cpp:9-290 | definition: the constructor: the lower-cased base name, then `LoadNamed` |
| `DreamFile.LoadNamed` | src/furcformats/dreamfile.cpp:21-290 | definition: `ReadMagic`, then `LoadAfterMagic` from the defaults after the `%d` overwrite |
| `DreamFile.LoadAfterMagic` | src/furcformats/dreamfile.cpp:34-290 | definition: the header loop, then `ReadTiles`, giving the version, the attributes and the tiles |
| `DreamFile.UnencodedTile` | src/furcformats/dreamfile.cpp:111-286 | definition: tile `i` of an unencoded map: floor and object from the first two planes, lighting from the sixth when the version has it, everything else zero |
| `DreamFile.PlaneAt` | src/furcformats/dreamfile.cpp:111-285 | one plane block changes each tile as `TileWith` says |
| `DreamFile.PlanesPerTile` | src/furcformats/dreamfile.cpp:111-285 | with all bytes present every plane succeeds, tile by tile |
| `DreamFile.BaseTile` | src/furcformats/dreamfile.cpp:111-185 | floors and objects are set and, on an unencoded map, the walls stay zero |
| `DreamFile.RegionTile` | src/furcformats/dreamfile.cpp:187-235 | on an unencoded map regions and effects stay zero |
| `DreamFile.LightingTile` | src/furcformats/dreamfile.cpp:238-286 | lighting is set and ambient stays zero |
| `DreamFile.DecodedTile` | src/furcformats/dreamfile.cpp:111-286 | each tile after its version's planes is `UnencodedTile` |
| `DreamFile.BodyDecoded` | src/furcformats/dreamfile.cpp:109-286 | when the body holds exactly the expected bytes, every tile is decoded from its planes |
| `DreamFile.WrappedSizeRejectsFloors` | src/furcformats/dreamfile.cpp:114-117 | a body shorter than the floor plane fails at the floors |
| `DreamFile.LargestMapWraps` | src/furcformats/dreamfile.cpp:94 | a 65535 × 65535 map of 1.50 reserves fewer bytes than its floor plane: the `uint32_t` size wraps |
| `DreamFile.TileIndexInRange` | src/furcformats/dreamfile.cpp:307-308 | every coordinate inside the map names an existing tile |
| `DreamFile.TileIndexInjective` | src/furcformats/dreamfile.cpp:307-308 | distinct coordinates name distinct tiles |
| `DreamFile.TileIndexColumns` | src/furcformats/dreamfile.cpp:307-308 | tiles are stored column by column |
| `DreamFile.TilesDecoded` | src/furcformats/dreamfile.cpp:94-286 | when the expected size does not wrap, the tiles are the decoded planes |
| `DreamFile.ReadWalls` | src/furcformats/dreamfile.cpp:161-185 | the wall block as the reader leaves it |
| `DreamFile.ReadPlanesLength` | src/furcformats/dreamfile.cpp:111-286 | the plane blocks never change how many tiles there are |
| `DreamFile.ReadTilesCount` | src/furcformats/dreamfile.cpp:109 | the tiles read after the header are `width · height`, as `mTiles.resize` makes them |
| `DreamFile.LoadedTileCount` | src/furcformats/dreamfile.cpp:109 | a map that loads has exactly `width · height` tiles, which `get` at src/furcformats/dreamfile.cpp:307-308 relies on |
| `DreamFile.ReadValues` | src/furcformats/dreamfile.cpp:120-131 | one value per tile, decoded from the plane's source bytes |
| `DreamFile.Dream.Open` | src/furcformats/dreamfile.cpp:9-290 | the constructor's outcome: the object's state is `LoadDream` of the file, or the error it throws; on success one tile per column and row |
| `DreamFile.Dream.ReadNamed` | src/furcformats/dreamfile.cpp:21-286 | after the name is set, the rest of the constructor, as `LoadNamed`, with one tile per column and row on success |
| `DreamFile.Dream.ReadAfterMagic` | src/furcformats/dreamfile.cpp:34-286 | the header then the tiles, as `LoadAfterMagic`, with one tile per column and row on success |
| `DreamFile.Dream.ReadMagicIn` | src/furcformats/dreamfile.cpp:21-32 | the version fields and stream as `ReadMagic`; on success the width and height overwritten as `Overwritten` says, otherwise the attributes unchanged |
| `DreamFile.Dream.ReadHeaderIn` | src/furcformats/dreamfile.cpp:34-83 | the attributes and stream as `HeaderLoop` |
| `DreamFile.Dream.ReadTilesIn` | src/furcformats/dreamfile.cpp:86-286 | the tiles as `ReadTiles` |
| `DreamFile.Dream.ReadPlanesIn` | src/furcformats/dreamfile.cpp:111-286 | the planes of the version, in order, as `ReadPlanes` |
| `DreamFile.Dream.ReadLaterPlanes` | src/furcformats/dreamfile.cpp:187-286 | the planes after the walls, as `ReadPlanes` |
| `DreamFile.Dream.ReadLightingPlanes` | src/furcformats/dreamfile.cpp:238-286 | the lighting and ambient planes, as `ReadPlanes` |
| `DreamFile.Dream.ReadPlane` | src/furcformats/dreamfile.cpp:113-134 | one plane block, as `PlaneStep` |
| `DreamFile.Dream.StoreWalls` | src/furcformats/dreamfile.cpp:178-182 | the tiles' wall bytes as `WithPlane` |
| `DreamFile.Dream.StoreValues` | src/furcformats/dreamfile.cpp:130-131 | the tiles' plane field as `WithPlane` |
| `DreamFile.Dream.Get` | src/furcformats/dreamfile.cpp:301-309 | out of range iff `x ≥ width` or `y ≥ height`; otherwise the tile at `x·height + y` |
| `Texture3ds.NextPowerOf2` | src/main/3dstexture.cpp:48-58 | 1 for 0; for `0 < n ≤ 2^31` a power of two at least `n` whose half is below `n`; 0 above 2^31 (the wrap) |
| `Texture3ds.NextPowerOf2Least` | src/main/3dstexture.cpp:48-58 | no smaller power of two is at least `n` |
| `Texture3ds.NextPowerOf2Fixed` | src/main/3dstexture.cpp:48-58 | a power of two is its own next power of two |
| `Texture3ds.Padded` | src/main/3dstexture.cpp:60-87 | the padded buffer has `targetHeight` rows of the target row size |
| `Texture3ds.PaddedAt` | src/main/3dstexture.cpp:77-84 | each input byte keeps its row and column; every other byte is the pad value |
| `Texture3ds.Cropped` | src/main/3dstexture.cpp:80-84 | the input-sized sub-rectangle of a padded buffer |
| `Texture3ds.CroppedPadded` | src/main/3dstexture.cpp:60-87 | padding loses nothing: cropping gives the input back |
| `Texture3ds.PadImage` | src/main/3dstexture.cpp:60-87 | `TargetTooSmall` iff the input is wider or taller than the target; otherwise a fresh array holding `Padded` |
| `Texture3ds.CopyInputRow` | src/main/3dstexture.cpp:80-84 | one row copied into the padded buffer, the rows below still to do |
| `Texture3ds.PaddedRow` | src/main/3dstexture.cpp:80-84 | a byte of row `y` comes from the input iff its column is inside the input row |
| `Texture3ds.MemCopy` | src/main/3dstexture.cpp:82 | `memcpy`: the run copied, nothing else touched |
| `Texture3ds.MortonInverse` | src/main/3dstexture.h:7-16 | `morton_order` is a permutation of 0..63 with an inverse table |
| `Texture3ds.TileCount` | src/main/3dstexture.cpp:12-13 | the tiles hold exactly the image's pixels |
| `Texture3ds.Dest` | src/main/3dstexture.cpp:30-34 | definition: the offset `(tileNum · 64 + morton_order[i]) · bpp + j` a byte is written to |
| `Texture3ds.Src` | src/main/3dstexture.cpp:30-39 | definition: the offset a byte is read from: the row counted from the bottom, the pixel's bytes reversed |
| `Texture3ds.DestRoundTrip` | src/main/3dstexture.cpp:30-34 | each byte of the grid has its own destination inside the buffer |
| `Texture3ds.DestTexelInGrid` | src/main/3dstexture.cpp:30-34 | every byte of the buffer is some grid byte's destination |
| `Texture3ds.DestTexelsInGrid` | src/main/3dstexture.cpp:30-34 | the same for every byte at once |
| `Texture3ds.SrcRoundTrip` | src/main/3dstexture.cpp:30-39 | each byte of the grid reads its own byte of the buffer |
| `Texture3ds.SrcTexelInGrid` | src/main/3dstexture.cpp:30-39 | every byte of the buffer is read by some grid byte |
| `Texture3ds.Swizzled` | src/main/3dstexture.cpp:6-46 | the reordered buffer has the input's length |
| `Texture3ds.SwizzleSource` | src/main/3dstexture.cpp:30-39 | the offset each byte is read from lies in the buffer |
| `Texture3ds.Unswizzled` | src/main/3dstexture.cpp:6-46 | the undoing of the reorder, same length |
| `Texture3ds.SwizzleTarget` | src/main/3dstexture.cpp:30-39 | the offset each byte is written to lies in the buffer |
| `Texture3ds.SwizzledMoves` | src/main/3dstexture.cpp:37-39 | each grid byte's source ends up at its destination, the bytes of each pixel reversed |
| `Texture3ds.UnswizzledSwizzled` | src/main/3dstexture.cpp:6-46 | the reorder loses nothing: undoing it gives the input back |
| `Texture3ds.SwizzledUnswizzled` | src/main/3dstexture.cpp:6-46 | every buffer is the reorder of some input |
| `Texture3ds.DistinctReadsPermute` | src/main/3dstexture.cpp:37-39 | reads from distinct places give a permutation of the source |
| `Texture3ds.SwizzledPermutes` | src/main/3dstexture.cpp:6-46 | the reorder is a permutation of the input bytes |
| `Texture3ds.ReverseMortonOrder` | src/main/3dstexture.cpp:6-46 | `NotMultipleOf8` iff a dimension is not whole tiles, the buffer then unchanged; otherwise the covered bytes become `Swizzled` and the rest is untouched |
| `Texture3ds.SwizzleBuffer` | src/main/3dstexture.cpp:16-45 | the scratch vector filled and copied back: `Swizzled` in front, the rest unchanged |
| `Texture3ds.ByteCount` | src/main/3dstexture.cpp:16 | the size of the scratch vector |
| `Texture3ds.StagedAll` | src/main/3dstexture.cpp:19-42 | after all tile columns the scratch vector is the reordered buffer |
| `Texture3ds.SwizzleColumns` | src/main/3dstexture.cpp:19-42 | the `tileX` loop stages every tile column |
| `Texture3ds.SwizzleColumn` | src/main/3dstexture.cpp:21-41 | one pass of the `tileX` loop stages one more column |
| `Texture3ds.SwizzleTile` | src/main/3dstexture.cpp:23-40 | one pass of the `tileY` loop stages one more tile |
| `Texture3ds.PixelOffsets` | src/main/3dstexture.cpp:30-34 | the read and write offsets of a pixel, the rows taken bottom-up |
| `Texture3ds.CopyPixel` | src/main/3dstexture.cpp:37-39 | one pixel's bytes staged |
| `Texture3ds.CopyByte` | src/main/3dstexture.cpp:38 | one byte staged |
| `Texture3ds.StagedPixelDone` | src/main/3dstexture.cpp:37-39 | past a pixel's last byte is before the next pixel's first |
| `Texture3ds.StoreByte` | src/main/3dstexture.cpp:38 | the byte reaches its destination in the scratch vector |
| `Texture3ds.PixelNextPrev` | src/main/3dstexture.cpp:149-160 | the cyclic next and previous byte of a pixel are inverse |
| `Texture3ds.Rotated` | src/main/3dstexture.cpp:146-161 | the rotated buffer has the input's length |
| `Texture3ds.RotatedBack` | src/main/3dstexture.cpp:146-161 | the undoing of the rotation, same length |
| `Texture3ds.RotatedGroup` | src/main/3dstexture.cpp:152-159 | every pixel `[a, b, c, d]` becomes `[b, c, d, a]` |
| `Texture3ds.RotatedBackRotated` | src/main/3dstexture.cpp:146-161 | the rotation loses nothing |
| `Texture3ds.RotatedRotatedBack` | src/main/3dstexture.cpp:146-161 | every buffer is the rotation of some buffer |
| `Texture3ds.RotatedPermutes` | src/main/3dstexture.cpp:146-161 | the rotation is a permutation of the bytes |
| `Texture3ds.RotatePixels` | src/main/3dstexture.cpp:148-160 | the loop leaves the first `dataSize` bytes rotated and the rest as they were |
| `Texture3ds.RotateStep` | src/main/3dstexture.cpp:149-160 | one pass rotates one more pixel |
| `Texture3ds.SwapPixel` | src/main/3dstexture.cpp:152-159 | the four assignments rotate one pixel and touch nothing else |
| `TextureCacheModel.Touched` | src/main/texturecache.cpp:5-12 | definition: the entry under `(name, ptr)` with its last use set to the current age |
| `TextureCacheModel.Inserted` | src/main/texturecache.cpp:21-25 | definition: the new entry under `(name, ptr)`, the inner map created when missing |
| `TextureCacheModel.TouchedAt` | src/main/texturecache.cpp:5-12 | a hit changes the age of that one entry and nothing else |
| `TextureCacheModel.InsertedAt` | src/main/texturecache.cpp:21-25 | a miss adds that one entry and leaves every other key as it was |
| `TextureCacheModel.InsertedKeys` | src/main/texturecache.cpp:25 | a miss adds at most its own container name |
| `TextureCacheModel.Side` | src/main/3dstexture.cpp:137-138 | definition: `nextPowerOf2` of a side stored into `uint16_t`, modulo 2^16 |
| `TextureCacheModel.TexturePixels` | src/main/3dstexture.cpp:129-171 | definition: the CPU work of `Texture(FOX5Image)`: `TargetTooSmall`, `ImageTooShort`, or the padded and rotated image, then `NotMultipleOf8` or the reordered pixels |
| `TextureCacheModel.SmallSide` | src/main/3dstexture.cpp:137-138 | a side of at most 4 pads to at most 4, never a multiple of 8 |
| `TextureCacheModel.PaddedExtent` | src/main/3dstexture.cpp:143-163 | the padded buffer is exactly the bytes the rotation and the reorder cover |
| `TextureCacheModel.TextureBuilds` | src/main/3dstexture.cpp:129-171 | an image with a side of at most 4 never becomes a texture; a built texture's pixels are a permutation of the padded image |
| `TextureCacheModel.TinyImageRejected` | src/main/3dstexture.cpp:8-10 | a 2 × 2 image pads to 2 × 2 and `reverse_morton_order` throws |
| `TextureCacheModel.WideImageRejected` | src/main/3dstexture.cpp:64-66 | a 40000-wide image pads to 65536, 0 in `uint16_t`, and `padImage` throws |
| `TextureCacheModel.WideSide` | src/main/3dstexture.cpp:137 | `nextPowerOf2(40000)` stored in `uint16_t` is 0 |
| `TextureCacheModel.Build` | src/main/3dstexture.cpp:129-171 | `Texture(FOX5Image)`: fails iff `TexturePixels` does, with its error; otherwise a fresh texture of the image, its padded sides and the reordered pixels |
| `TextureCacheModel.TextureCache.GetFromFox` | src/main/texturecache.cpp:3-29 | a hit returns the cached texture with its age refreshed; a miss loads the image, builds a fresh texture from it and caches it; a failing load or a failing build throws that error and changes nothing |
| `SceneTree.FirstIndex` | src/main/scene.cpp:56-60 | definition: `std::find`: the first position holding the scene, or none |
| `SceneTree.FirstIndexSpec` | src/main/scene.cpp:56-70 | the search finds a scene iff it is listed, at its first slot |
| `SceneTree.ReplaceFirst` | src/main/scene.cpp:51-71 | the replaced list keeps its length |
| `SceneTree.RemoveFirst` | src/main/scene.cpp:73-89 | the list shrinks by one iff the scene is listed |
| `SceneTree.ReplaceFirstSlots` | src/main/scene.cpp:62-63 | only the first slot holding the scene changes, to the new scene |
| `SceneTree.RemoveFirstCount` | src/main/scene.cpp:81-82 | erasing takes out exactly one occurrence |
| `SceneTree.RemoveFirstOrder` | src/main/scene.cpp:81-82 | erasing keeps the others in order: those before stay, those after move down one |
| `SceneTree.EditsWithoutX` | src/main/scene.cpp:56-70 | neither edit changes a list that does not hold the scene |
| `SceneTree.Scene.AddSubScene` | src/main/scene.cpp:46-49 | the scene goes at the end and the others keep their places |
| `SceneTree.Scene.FindIn` | src/main/scene.cpp:56-60 | the iterator loop finds the first slot holding this scene |
| `SceneTree.Scene.Replace` | src/main/scene.cpp:51-71 | a null scene is refused; otherwise a listed scene's first slot goes to the new scene, which takes the parent, and this scene is detached; else nothing changes |
| `SceneTree.Scene.Remove` | src/main/scene.cpp:73-89 | a listed scene's first slot is erased and the scene detached; otherwise nothing changes |

## Left out

- LZMA decompression and the FurcCipher library are parameters. Their internals are not part of this model: `decompressLZMA` at src/furcformats/filecommon.cpp:18-45 is a function-valued `Lzma`.
- `std::ifstream` is the file's bytes plus a sticky failbit. There is no file-system access. A failure to open is not modelled.
- The Dream reader is modelled as built without `HAS_CIPHER`. An encoded map always throws "Can't decrypt…", so the `decrypt` call and the old-crypto flag are not modelled. In that build the `if(mEncoded)` copies of walls, regions, effects and ambient can never run on a map that loads, so those fields stay zero.
- The Dream magic buffer is 19 bytes, but `getline` is allowed to store 20 into it, counting the NUL. The model reads at most 19 characters and does not model the one-byte overflow.
- DreamFile.ScanInt: `sscanf`'s `%d` accepts only decimal digits after optional spaces and sign. `std::stoi` is modelled for decimal text only, without a `0x` prefix.
- DreamFile.ReadMagic: a version number outside the range of `int` makes `sscanf`'s `%d` undefined behaviour in C++; a libc may clamp it to `INT_MAX`. The model takes the exact scanned integer modulo 2^32 as the word written, so `MAP V1.4294967296` gives minor 0 and a width of 0.
- DreamFile.Overwritten: `sscanf` writes a whole `int` through each `uint8_t*`, which is undefined behaviour in C++. The model takes the 3DS layout: little-endian, 32-bit `int`, the fields packed as declared in src/furcformats/dreamfile.h:35-39. Another layout or compiler is not modelled.
- `printf` diagnostics, the unknown-key report and the FOX5 debug output carry no state and are left out.
- The GPU code is left out: `C3D_TexInit`, `C3D_TexUpload`, linear allocation, the float clip ratios and the shader.
- TextureCacheModel.Build: `padImage` reads `inputHeight` rows of `inputWidth · 4` bytes whatever the image's format. When the data is shorter (an 8-bit image, say) C++ reads past the vector, which is undefined behaviour; the model stops with `ImageTooShort`. The `int` product `mWidth * mHeight * 4`, which overflows for a 32768 × 32768 texture, is not modelled.
- TextureCacheModel.TextureBuilds: that a side of at most 4 never builds is proved for all images, and a side above 2^15 is shown only for the width 40000. That sides 5 to 2^15 pad to a power of two is proved about `NextPowerOf2` but not carried through the `uint16_t` store into a general lemma.
- `TextureCache::clearAll` and the age shift in texturecache.h are not part of this model.
- TextureCacheModel.TextureCache.GetFromFox: takes the container's name as a parameter. That name is `fox.mName`, not derived here. `load` stands for `fox.getImage`, and "a hit loads nothing" shows only as the hit case not using `load`.
- The scene constructor, `update` and `render` are left out. `std::shared_ptr` is an object reference; reference counts are not modelled.
- Fox5Command.Take: `getValue` past the end of the value list is undefined behaviour in C++. The model gives `MissingValue`.
- Fox5Tree.KitterspeakAt: C++ leaves unspecified the order in which the two argument reads of a Kitterspeak entry run. The model takes the order as a parameter and proves how the two orders differ.
- Fields that the source leaves uninitialised until a command sets them are `Option`, with `None` before the first set.
- Texture3ds.PadImage: takes the pad as `uint8` and the sizes as `uint16`, as the source does. Its `int` products `targetHeight * targetRowBytes` (src/main/3dstexture.cpp:69-71) are unbounded in the model, though in C++ they exceed `INT_MAX` for a 65535 × 65535 target of 4 bytes per pixel; that overflow is not modelled.
- Fox5Tree.Channels, Fox5Tree.Frames, Fox5Tree.Shapes, Fox5Tree.Objects, Fox5Tree.ImageEntries, Fox5Command.Command.ReserveValues, Fox5File.ReadHeader, Fox5File.ImageOf: a failed allocation in the FOX5 reader is not modelled. The 32-bit `LIST_START` count goes straight into `resize(count)` (src/fox5/fox5.cpp:469, 517, 589, 711; src/furcformats/fox5.cpp:303, 351, 423, 545), and so does the image-list count (src/fox5/fox5.cpp:728; src/furcformats/fox5.cpp:562). With a 32-bit `size_t` a count of 2^28 or more is past `max_size()` of a `shared_ptr` vector, so `resize` throws `std::length_error` whatever memory is free; the model instead parses that many children, for instance 2^32 − 1 empty objects from a last command `4C 01 FF FF FF FF`. The same holds for `reserveValues(1 + count * 4)` (src/fox5/fox5.cpp:201; src/furcformats/fox5.cpp:35, 209), `commandBlock(dbUncompressedSize)` (src/fox5/fox5.cpp:827; src/furcformats/fox5.cpp:665) and `im.mData.resize(im.getMemSize())` (src/fox5/fox5.cpp:762; src/furcformats/fox5.cpp:596): the model never runs out of memory and never reaches a size limit.
- DreamFile.Dream.Open: a failed allocation of `std::vector<uint8_t> data(expectedBytes)` or of `mTiles.resize(mWidth*mHeight)` (src/furcformats/dreamfile.cpp:95 and 109) is not modelled. Nor is the signed `int` overflow of `mWidth * mHeight * 2` (src/furcformats/dreamfile.cpp:94, 114, 138), which is undefined behaviour above 2^31: the model takes `expectedBytes` as that product modulo 2^32, which is what a wrapping multiplication stored in `uint32_t` gives, and the plane sizes unbounded.
- DreamFile.ReadMagic: the size check's `tellg()` is the file's length. A failing `seekg` is not modelled.
- Fox5Command.Command.ReserveValues: `reserve` is modelled as a capacity counter. Reallocation and pointer invalidation are not modelled.
- Fox5File.ReadInto: in `getImage` the stream may write `mCompressedSize` bytes into a buffer of `getMemSize()` bytes. When more bytes arrive than fit, C++ writes past the vector, which is undefined behaviour. The model stops with `BufferOverrun` instead.
