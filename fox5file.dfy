/**
 * The FOX5 container: the 20-byte footer at the end of the file, the seed
 * before it, the command block at the start, the root `LIST_START`, and
 * `getImage`, which reads one image's bytes from after the command block.
 * Both copies of the reader (`FOX5File` and `FOX5`) share this logic; the
 * second also records the lower-cased base name of the path it opened.
 */
module Fox5File {
  import opened Wrappers
  import opened Common
  import opened FileCommon
  import opened Fox5Command
  import opened Fox5Tree

  /** The last eight bytes of every container: "FOX5.1.1". */
  const MAGIC: bytes := [0x46, 0x4F, 0x58, 0x35, 0x2E, 0x31, 0x2E, 0x31]
  const FOOTER_SIZE: nat := 20
  const SEED_SIZE: nat := 16
  /** The seed ends where the footer begins. */
  const SEED_FROM_END: nat := 36

  /** `CompressionType` and `EncryptionType`. */
  const COMPRESSION_NOT: uint8 := 0
  const COMPRESSION_ZLIB: uint8 := 1
  const COMPRESSION_LZMA: uint8 := 2
  const ENCRYPTED: uint8 := 1
  /** `ImageFormat::E_32BIT`: four bytes per pixel. */
  const FORMAT_32BIT: uint8 := 1

  /**
   * The cipher library's transform of a buffer, given the buffer, the number
   * of packed bytes, the buffer's size and the seed. The library is not part
   * of this model; whether it was built in is `Option<Cipher>`.
   */
  type Cipher = (bytes, uint32, nat, bytes) -> bytes

  /**
   * The LZMA decoder behind `decompressLZMA`, given the packed bytes and the
   * size to decode to; `None` when the decoder reports an error.
   */
  type Lzma = (bytes, nat) -> Option<bytes>

  datatype Footer = Footer(compression: uint8, encryption: uint8, compressedSize: uint32, uncompressedSize: uint32)

  // ---------------------------------------------------------------------------
  // Footer and seed

  /** The 20 footer bytes of `f`, with `r0` and `r1` in the two reserved places. */
  function FooterBytes(f: Footer, r0: uint8, r1: uint8): (r: bytes)
    ensures |r| == FOOTER_SIZE
  {
    [f.compression, f.encryption, r0, r1] + Encode32(f.compressedSize) + Encode32(f.uncompressedSize) + MAGIC
  }

  /**
   * The footer as the constructor reads it from the last 20 bytes: the two
   * type bytes, two reserved bytes skipped, the two big-endian sizes, then
   * the magic.
   */
  function ReadFooter(file: bytes): (r: Result<Footer, Error>)
    ensures |file| < FOOTER_SIZE ==> r == Err(TooSmall)
    ensures |file| >= FOOTER_SIZE ==> (r.Ok? <==> file[|file| - 8..] == MAGIC)
    ensures r.Err? ==> r.error == TooSmall || r.error == NotAFox5File
  {
    if |file| < FOOTER_SIZE then Err(TooSmall)
    else
      var e := |file| - FOOTER_SIZE;
      if file[e + 12..] != MAGIC then Err(NotAFox5File)
      else
        Ok(Footer(file[e], file[e + 1],
                  Be32(file[e + 4], file[e + 5], file[e + 6], file[e + 7]),
                  Be32(file[e + 8], file[e + 9], file[e + 10], file[e + 11])))
  }

  /** Whatever precedes it, a footer written by `FooterBytes` reads back as itself. */
  lemma FooterRoundTrip(prefix: bytes, f: Footer, r0: uint8, r1: uint8)
    ensures ReadFooter(prefix + FooterBytes(f, r0, r1)) == Ok(f)
  {
    var file := prefix + FooterBytes(f, r0, r1);
    var e := |prefix|;
    assert file[e..] == FooterBytes(f, r0, r1);
    assert file[e + 12..] == MAGIC;
    var c := Encode32(f.compressedSize);
    var u := Encode32(f.uncompressedSize);
    assert file[e + 4..e + 8] == c;
    assert file[e + 8..e + 12] == u;
  }

  /** Conversely, a footer that reads is exactly the last 20 bytes, the reserved ones aside. */
  lemma FooterLayout(file: bytes)
    requires ReadFooter(file).Ok?
    ensures var e := |file| - FOOTER_SIZE;
            file[e..] == FooterBytes(ReadFooter(file).value, file[e + 2], file[e + 3])
  {
    var e := |file| - FOOTER_SIZE;
    Encode32OfBe32(file[e + 4], file[e + 5], file[e + 6], file[e + 7]);
    Encode32OfBe32(file[e + 8], file[e + 9], file[e + 10], file[e + 11]);
    assert file[e..] == file[e..e + 4] + file[e + 4..e + 8] + file[e + 8..e + 12] + file[e + 12..];
  }

  /** The seed: the 16 bytes before the footer of an encrypted file, zeros otherwise. */
  function ReadSeed(file: bytes, encryption: uint8): (r: Result<bytes, Error>)
    ensures r.Ok? ==> |r.value| == SEED_SIZE
    ensures r.Err? <==> encryption == ENCRYPTED && |file| < SEED_FROM_END
    ensures r.Err? ==> r.error == SeedReadFailed
  {
    if encryption != ENCRYPTED then Ok(Zeros(SEED_SIZE))
    else if |file| < SEED_FROM_END then Err(SeedReadFailed)
    else Ok(file[|file| - SEED_FROM_END..|file| - FOOTER_SIZE])
  }

  /** The seed is never taken from the footer or from outside the file. */
  lemma SeedPrecedesFooter(file: bytes)
    requires ReadSeed(file, ENCRYPTED).Ok?
    ensures |file| >= SEED_FROM_END
    ensures file[|file| - SEED_FROM_END..] == ReadSeed(file, ENCRYPTED).value + file[|file| - FOOTER_SIZE..]
  {
  }

  // ---------------------------------------------------------------------------
  // Reads from the stream

  /** How many bytes `read(count)` delivers from offset `at` of the file. */
  function Got(file: bytes, at: nat, count: nat): (r: nat)
    ensures r <= count && (r > 0 ==> at + r <= |file|)
    ensures r < count <==> count > 0 && at + count > |file|
  {
    if at >= |file| then 0
    else if count <= |file| - at then count
    else |file| - at
  }

  /**
   * A zero-filled buffer of `size` bytes, then `read(count)` into it from
   * offset `at`. A stream that has failed before reads nothing; delivering
   * more bytes than the buffer holds writes past its end.
   */
  function ReadInto(file: bytes, failed: bool, at: nat, count: nat, size: nat): (r: Result<bytes, Error>)
    ensures failed ==> r == Ok(Zeros(size))
    ensures !failed ==> (r.Ok? <==> Got(file, at, count) <= size)
    ensures r.Err? ==> r.error == BufferOverrun
    ensures r.Ok? ==> |r.value| == size
    ensures r.Ok? && !failed ==>
              var n := Got(file, at, count);
              (forall k :: 0 <= k < n ==> r.value[k] == file[at + k]) &&
              (forall k :: n <= k < size ==> r.value[k] == 0)
  {
    if failed then Ok(Zeros(size))
    else
      var n := Got(file, at, count);
      if n > size then Err(BufferOverrun)
      else if n == 0 then Ok(Zeros(size))
      else Ok(file[at..at + n] + Zeros(size - n))
  }

  /** Whether the stream is failed after `read(count)` at `at`: it stays failed, or fails on a short read. */
  function FailsAfter(file: bytes, failed: bool, at: nat, count: nat): bool
  {
    failed || Got(file, at, count) < count
  }

  /** A read that fits in the file and in the buffer delivers exactly the requested bytes and keeps the stream good. */
  lemma ReadWithinFile(file: bytes, at: nat, count: nat, size: nat)
    requires at + count <= |file| && count <= size
    ensures ReadInto(file, false, at, count, size) == Ok(file[at..at + count] + Zeros(size - count))
    ensures !FailsAfter(file, false, at, count)
  {
    if count == 0 {
      assert file[at..at] + Zeros(size) == Zeros(size);
    }
  }

  // ---------------------------------------------------------------------------
  // Decryption and decompression

  /** The decryption step: nothing for unencrypted data; encrypted data needs the cipher. */
  function Decrypt(encryption: uint8, cipher: Option<Cipher>, seed: bytes, data: bytes, packed: uint32): (r: Result<bytes, Error>)
    ensures encryption != ENCRYPTED ==> r == Ok(data)
    ensures encryption == ENCRYPTED ==> (r.Ok? <==> cipher.Some?)
  {
    if encryption != ENCRYPTED then Ok(data)
    else if cipher.None? then Err(CipherUnavailable)
    else Ok(cipher.value(data, packed, |data|, seed))
  }

  /** The decompression step: LZMA is decoded, NOT passes through, every other kind is refused. */
  function Decompress(compression: uint8, lzma: Lzma, data: bytes, size: nat): (r: Result<bytes, Error>)
    ensures compression == COMPRESSION_NOT ==> r == Ok(data)
    ensures r.Ok? ==> compression == COMPRESSION_NOT || compression == COMPRESSION_LZMA
  {
    if compression == COMPRESSION_LZMA then
      match lzma(data, size)
      case None => Err(DecompressionFailed)
      case Some(out) => Ok(out)
    else if compression != COMPRESSION_NOT then Err(UnknownCompression(compression))
    else Ok(data)
  }

  /** Encrypted data is decrypted or refused: what a successful decryption returns is the cipher's output. */
  lemma NoUndecryptedData(cipher: Option<Cipher>, seed: bytes, data: bytes, packed: uint32)
    ensures cipher.None? ==> Decrypt(ENCRYPTED, cipher, seed, data, packed) == Err(CipherUnavailable)
    ensures cipher.Some? ==> Decrypt(ENCRYPTED, cipher, seed, data, packed) == Ok(cipher.value(data, packed, |data|, seed))
  {
  }

  /** ZLIB, declared in `CompressionType`, is refused like any unknown kind. */
  lemma UnknownCompressionRejected(compression: uint8, lzma: Lzma, data: bytes, size: nat)
    requires compression != COMPRESSION_NOT && compression != COMPRESSION_LZMA
    ensures Decompress(compression, lzma, data, size) == Err(UnknownCompression(compression))
    ensures Decompress(COMPRESSION_ZLIB, lzma, data, size) == Err(UnknownCompression(COMPRESSION_ZLIB))
  {
  }

  // ---------------------------------------------------------------------------
  // The root of the command block

  /**
   * After the first four bytes, the block must open with `LIST_START` of
   * level 0 and one entry; the result is where `parseData` starts.
   */
  function RootList(copy: Copy, block: bytes): (r: Result<nat, Error>)
  {
    var cmd :- DecodeCommand(copy, block, 4);
    if cmd.op != ListStart then Err(RootNotListStart)
    else
      var level :- TakeU8(cmd.values, 0);
      if level != 0 then Err(RootLevelNotZero(level))
      else
        var count :- TakeU32(cmd.values, 1);
        if count != 1 then Err(RootCountNotOne(count)) else Ok(cmd.pos)
  }

  /** The root is accepted exactly when bytes 4 to 9 are `LIST_START`, level 0, count 1; parsing then starts at 10. */
  lemma RootAccepted(copy: Copy, block: bytes)
    ensures RootList(copy, block).Ok? <==>
              10 <= |block| && block[4] == Code(ListStart) && block[5] == 0 &&
              Be32(block[6], block[7], block[8], block[9]) == 1
    ensures RootList(copy, block).Ok? ==> RootList(copy, block).value == 10
  {
    if RootList(copy, block).Ok? {
      var cmd := DecodeCommand(copy, block, 4).value;
      assert block[4] == Code(cmd.op);
      ListStartValues(copy, block, 4);
    } else if 10 <= |block| && block[4] == Code(ListStart) {
      ListStartValues(copy, block, 4);
    }
  }

  /** A block whose root command is some other command is refused with that reason. */
  lemma RootMustBeListStart(copy: Copy, block: bytes)
    requires 4 < |block| && block[4] != Code(ListStart)
    ensures RootList(copy, block).Err?
    ensures DecodeCommand(copy, block, 4).Ok? ==> RootList(copy, block) == Err(RootNotListStart)
  {
    if DecodeCommand(copy, block, 4).Ok? {
      var cmd := DecodeCommand(copy, block, 4).value;
      assert Code(cmd.op) == block[4];
    }
  }

  // ---------------------------------------------------------------------------
  // File name

  /** The name `FOX5` records: the lower-cased base name; `FOX5File` records none. */
  function FileNameOf(copy: Copy, path: string): Option<string>
  {
    if copy == FurcCopy then Some(Lowercase(GetBasename(path))) else None
  }

  /** The recorded name is the last path component, case-folded: no separators, no capitals. */
  lemma FileNameIsBasename(path: string)
    ensures var r := FileNameOf(FurcCopy, path).value;
            |r| <= |path| && r == Lowercase(path[|path| - |r|..]) &&
            (forall k :: 0 <= k < |r| ==> !IsSeparator(r[k]) && !IsUpper(r[k]))
    ensures FileNameOf(Fox5Copy, path) == None
  {
    var b := GetBasename(path);
    forall k | 0 <= k < |b|
      ensures !IsSeparator(Lowercase(b)[k])
    {
      assert !IsSeparator(b[k]);
    }
  }

  // ---------------------------------------------------------------------------
  // Loading

  /** What the constructor leaves in the object. */
  datatype Loaded = Loaded(
    compression: uint8,
    encryption: uint8,
    seed: bytes,
    imageStart: nat,
    contents: Contents,
    fileName: Option<string>,
    failed: bool)

  /** The contents before `parseData`: no generator, no images, no objects. */
  const Empty := Contents(None, [], [])

  /** The footer, the seed and the unpacked command block. */
  datatype Header = Header(footer: Footer, seed: bytes, block: bytes)

  /** The constructor up to the command block: footer, seed, `read`, decryption, decompression. */
  function ReadHeader(file: bytes, cipher: Option<Cipher>, lzma: Lzma): Result<Header, Error>
  {
    var footer :- ReadFooter(file);
    var seed :- ReadSeed(file, footer.encryption);
    var raw :- ReadInto(file, false, 0, footer.compressedSize, footer.uncompressedSize);
    var plain :- Decrypt(footer.encryption, cipher, seed, raw, footer.compressedSize);
    var block :- Decompress(footer.compression, lzma, plain, footer.uncompressedSize);
    Ok(Header(footer, seed, block))
  }

  /** The constructor after the command block is unpacked: the root list, then `parseData` from empty contents. */
  function LoadBlock(cfg: Config, block: bytes): Result<Contents, Error>
  {
    var start :- RootList(cfg.copy, block);
    var parsed :- FileLoop(cfg, block, start, Empty);
    Ok(parsed.value)
  }

  /** The constructor, from the file's bytes to the loaded object or the exception it throws. */
  function Load(cfg: Config, path: string, file: bytes, cipher: Option<Cipher>, lzma: Lzma): Result<Loaded, Error>
  {
    var h :- ReadHeader(file, cipher, lzma);
    var contents :- LoadBlock(cfg, h.block);
    Ok(Loaded(h.footer.compression, h.footer.encryption, h.seed, h.footer.compressedSize, contents,
              FileNameOf(cfg.copy, path), FailsAfter(file, false, 0, h.footer.compressedSize)))
  }

  /**
   * What a loaded file guarantees: a valid footer, a seed when encrypted,
   * an available cipher when encrypted, a known compression, images placed
   * after the command block, and a stream that failed only on a short
   * command block.
   */
  lemma LoadedFile(cfg: Config, path: string, file: bytes, cipher: Option<Cipher>, lzma: Lzma)
    requires Load(cfg, path, file, cipher, lzma).Ok?
    ensures var l := Load(cfg, path, file, cipher, lzma).value;
            var footer := ReadFooter(file);
            footer.Ok? && |file| >= FOOTER_SIZE && file[|file| - 8..] == MAGIC &&
            l.compression == footer.value.compression && l.encryption == footer.value.encryption &&
            (l.encryption == ENCRYPTED ==> cipher.Some? && |file| >= SEED_FROM_END) &&
            (l.compression == COMPRESSION_NOT || l.compression == COMPRESSION_LZMA) &&
            l.imageStart == footer.value.compressedSize &&
            (l.failed <==> footer.value.compressedSize > |file|) &&
            |l.seed| == SEED_SIZE && l.fileName == FileNameOf(cfg.copy, path)
  {
  }

  /** A file shorter than its footer, or with another magic, is not loaded. */
  lemma LoadRejectsNonFox5(cfg: Config, path: string, file: bytes, cipher: Option<Cipher>, lzma: Lzma)
    requires |file| < FOOTER_SIZE || file[|file| - 8..] != MAGIC
    ensures Load(cfg, path, file, cipher, lzma) == Err(if |file| < FOOTER_SIZE then TooSmall else NotAFox5File)
  {
  }

  /**
   * A file that is its command block followed by a footer declaring it
   * neither compressed nor encrypted yields that block, with a zero seed.
   */
  lemma PlainHeader(block: bytes, r0: uint8, r1: uint8, cipher: Option<Cipher>, lzma: Lzma)
    requires |block| < TWO_32
    ensures var footer := Footer(COMPRESSION_NOT, 0, |block|, |block|);
            ReadHeader(block + FooterBytes(footer, r0, r1), cipher, lzma) == Ok(Header(footer, Zeros(SEED_SIZE), block))
  {
    var footer := Footer(COMPRESSION_NOT, 0, |block|, |block|);
    var file := block + FooterBytes(footer, r0, r1);
    FooterRoundTrip(block, footer, r0, r1);
    ReadWithinFile(file, 0, |block|, |block|);
    assert file[0..|block|] + Zeros(0) == block;
  }

  /** The root list followed by `FILE_GENERATOR g`: the contents hold generator `g` and nothing else. */
  lemma GeneratorBlock(cfg: Config, block: bytes)
    requires |block| == 12 && block[4] == Code(ListStart) && block[5] == 0
    requires Be32(block[6], block[7], block[8], block[9]) == 1 && block[10] == Code(FileGenerator)
    ensures LoadBlock(cfg, block) == Ok(Contents(Some(block[11]), [], []))
  {
    RootAccepted(cfg.copy, block);
    GeneratorValues(cfg.copy, block, 10);
    FileCommandApplied(cfg, block, 10, Empty);
    var g := Contents(Some(block[11]), [], []);
    assert ApplyFile(Empty, FileGenerator, [U8(block[11])]) == Ok(g);
    assert FileLoop(cfg, block, 12, g) == Ok(Parsed(g, 12));
  }

  /**
   * A container that is a command block followed by a footer declaring it
   * neither compressed nor encrypted loads to what the block parses to, with
   * a zero seed, images starting right after the block and a good stream.
   */
  lemma PlainFileLoads(cfg: Config, path: string, cipher: Option<Cipher>, lzma: Lzma, block: bytes, r0: uint8, r1: uint8)
    requires |block| < TWO_32
    ensures var footer := Footer(COMPRESSION_NOT, 0, |block|, |block|);
            var contents := LoadBlock(cfg, block);
            Load(cfg, path, block + FooterBytes(footer, r0, r1), cipher, lzma) ==
              if contents.Err? then Err(contents.error)
              else Ok(Loaded(COMPRESSION_NOT, 0, Zeros(SEED_SIZE), |block|, contents.value, FileNameOf(cfg.copy, path), false))
  {
    PlainHeader(block, r0, r1, cipher, lzma);
  }

  // ---------------------------------------------------------------------------
  // Images

  /** `getMemSize`: width times height, times four for 32-bit images, as a `uint32_t`. */
  function MemSize(im: Image): (r: uint32)
    ensures im.format != FORMAT_32BIT ==> r == im.width * im.height
    ensures im.format == FORMAT_32BIT ==> r == (4 * (im.width * im.height)) % TWO_32
  {
    ProductBound(im.width, im.height);
    var s := im.width * im.height;
    if im.format == FORMAT_32BIT then Wrap32(s * 4) else s
  }

  lemma ProductBound(w: uint16, h: uint16)
    ensures w * h < TWO_32
  {
    MulMonotone(w, 0xFFFF, h);
    MulMonotone(h, 0xFFFF, 0xFFFF);
  }

  lemma {:induction false} MulMonotone(a: nat, b: nat, c: nat)
    requires a <= b
    ensures a * c <= b * c
  {
    if c > 0 {
      MulMonotone(a, b, c - 1);
    }
  }

  /** A 32-bit image of 32768 by 32768 pixels needs 2^32 bytes, which the `uint32_t` size truncates to 0. */
  lemma MemSizeWraps()
    ensures MemSize(Image(0, 0, 0x8000, 0x8000, FORMAT_32BIT)) == 0
    ensures MemSize(Image(0, 0, 64, 32, FORMAT_32BIT)) == 8192
    ensures MemSize(Image(0, 0, 64, 32, 0)) == 2048
  {
    assert 0x8000 * 0x8000 == 0x4000_0000;
  }

  /** `FOX5Image` with its data. */
  datatype Picture = Picture(image: Image, data: bytes)

  /**
   * `getImage(id)` on a loaded file: the image's bytes, read from `imageStart + offset`
   * (a 32-bit `size_t` sum on the 3DS, so it wraps), decrypted and decompressed.
   */
  function ImageOf(l: Loaded, file: bytes, cipher: Option<Cipher>, lzma: Lzma, id: uint32): Result<Picture, Error>
  {
    if id >= |l.contents.images| then Err(ImageIndexOutOfBounds)
    else
      var im := l.contents.images[id];
      var raw :- ReadInto(file, l.failed, Wrap32(l.imageStart + im.offset), im.compressedSize, MemSize(im));
      var plain :- Decrypt(l.encryption, cipher, l.seed, raw, im.compressedSize);
      var data :- Decompress(l.compression, lzma, plain, |plain|);
      Ok(Picture(im, data))
  }

  /** The stream's state after `getImage(id)`. */
  function FailedAfter(l: Loaded, file: bytes, id: uint32): bool
  {
    if id >= |l.contents.images| then l.failed
    else
      var im := l.contents.images[id];
      FailsAfter(file, l.failed, Wrap32(l.imageStart + im.offset), im.compressedSize)
  }

  /** An index past the image list is refused, and leaves the stream as it was. */
  lemma ImageIndexChecked(l: Loaded, file: bytes, cipher: Option<Cipher>, lzma: Lzma, id: uint32)
    requires id >= |l.contents.images|
    ensures ImageOf(l, file, cipher, lzma, id) == Err(ImageIndexOutOfBounds)
    ensures FailedAfter(l, file, id) == l.failed
  {
  }

  /**
   * On an unencrypted, uncompressed file with a good stream, image `id` is
   * the `compressedSize` bytes at `imageStart + offset` (modulo 2^32), zero-padded to its
   * memory size, when they lie in the file and fit the buffer.
   */
  lemma PlainImage(l: Loaded, file: bytes, cipher: Option<Cipher>, lzma: Lzma, id: uint32)
    requires id < |l.contents.images| && !l.failed
    requires l.encryption != ENCRYPTED && l.compression == COMPRESSION_NOT
    requires var im := l.contents.images[id];
             Wrap32(l.imageStart + im.offset) + im.compressedSize <= |file| && im.compressedSize <= MemSize(im)
    ensures var im := l.contents.images[id];
            var at := Wrap32(l.imageStart + im.offset);
            ImageOf(l, file, cipher, lzma, id) ==
              Ok(Picture(im, file[at..at + im.compressedSize] + Zeros(MemSize(im) - im.compressedSize)))
    ensures !FailedAfter(l, file, id)
  {
    var im := l.contents.images[id];
    ReadWithinFile(file, Wrap32(l.imageStart + im.offset), im.compressedSize, MemSize(im));
  }

  /**
   * The seek position wraps: after a 16-byte command block, an image at
   * offset 0xFFFFFFF8 is read from byte 8 of the file, not past its end.
   */
  lemma ImageSeekWraps(l: Loaded, file: bytes, cipher: Option<Cipher>, lzma: Lzma, id: uint32)
    requires id < |l.contents.images| && !l.failed
    requires l.encryption != ENCRYPTED && l.compression == COMPRESSION_NOT
    requires l.imageStart == 0x10 && l.contents.images[id].offset == 0xFFFF_FFF8
    requires var im := l.contents.images[id];
             8 + im.compressedSize <= |file| && im.compressedSize <= MemSize(im)
    ensures var im := l.contents.images[id];
            ImageOf(l, file, cipher, lzma, id) ==
              Ok(Picture(im, file[8..8 + im.compressedSize] + Zeros(MemSize(im) - im.compressedSize)))
  {
    assert Wrap32(l.imageStart + l.contents.images[id].offset) == 8;
    PlainImage(l, file, cipher, lzma, id);
  }

  /** Once the stream has failed it stays failed, and an uncompressed, unencrypted image then reads as zeros. */
  lemma FailedStreamReadsZeros(l: Loaded, file: bytes, cipher: Option<Cipher>, lzma: Lzma, id: uint32)
    requires l.failed
    ensures FailedAfter(l, file, id)
    ensures id < |l.contents.images| && l.encryption != ENCRYPTED && l.compression == COMPRESSION_NOT ==>
              ImageOf(l, file, cipher, lzma, id) ==
                Ok(Picture(l.contents.images[id], Zeros(MemSize(l.contents.images[id]))))
  {
  }

  // ---------------------------------------------------------------------------
  // The reader object

  /** The footer read through the stream: seek to 20 from the end, then read field by field. */
  method ReadFooterFrom(file: bytes) returns (r: Result<Footer, Error>)
    ensures r == ReadFooter(file)
  {
    if |file| < FOOTER_SIZE {
      return Err(TooSmall);
    }
    var cur := new Cursor(file, |file| - FOOTER_SIZE);
    var compression := cur.NextUint8();
    var encryption := cur.NextUint8();
    cur.pos := cur.pos + 2;
    var compressedSize := cur.NextUint32();
    var uncompressedSize := cur.NextUint32();
    var magic := cur.NextBytes(8);
    if magic.value != MAGIC {
      return Err(NotAFox5File);
    }
    return Ok(Footer(compression.value, encryption.value, compressedSize.value, uncompressedSize.value));
  }

  /** The first command of the block, read at offset 4 and checked to be the root list. */
  method ReadRoot(copy: Copy, cur: Cursor) returns (r: Result<(), Error>)
    requires cur.pos == 4
    modifies cur
    ensures RootList(copy, cur.data) == (if r.Ok? then Ok(cur.pos) else Err(r.error))
  {
    var cmd := new Command();
    var parsed := cmd.ParseData(copy, cur);
    if parsed.Err? {
      return Err(parsed.error);
    }
    if cmd.op != ListStart {
      return Err(RootNotListStart);
    }
    var level :- cmd.GetU8();
    if level != 0 {
      return Err(RootLevelNotZero(level));
    }
    var count :- cmd.GetU32();
    if count != 1 {
      return Err(RootCountNotOne(count));
    }
    return Ok(());
  }

  /** `FOX5File` / `FOX5`: the reader over one file's bytes. */
  class Fox5File {
    const cfg: Config
    const file: bytes
    const cipher: Option<Cipher>
    const lzma: Lzma

    var fileName: Option<string>
    var compression: uint8
    var encryption: uint8
    var seed: bytes
    var imageStart: nat
    var generator: Option<uint8>
    var images: seq<Image>
    var objects: seq<Object>
    /** The stream's failbit, which stays set once a read comes up short. */
    var failed: bool

    function Tree(): Contents
      reads this
    {
      Contents(generator, images, objects)
    }

    function State(): Loaded
      reads this
    {
      Loaded(compression, encryption, seed, imageStart, Tree(), fileName, failed)
    }

    /** The object before its constructor body runs: member initialisers only. */
    constructor (cfg: Config, file: bytes, cipher: Option<Cipher>, lzma: Lzma)
      ensures this.cfg == cfg && this.file == file && this.cipher == cipher && this.lzma == lzma
      ensures Tree() == Empty && seed == Zeros(SEED_SIZE) && fileName == None && !failed
    {
      this.cfg := cfg;
      this.file := file;
      this.cipher := cipher;
      this.lzma := lzma;
      fileName := None;
      compression := 0;
      encryption := 0;
      seed := Zeros(SEED_SIZE);
      imageStart := 0;
      generator := None;
      images := [];
      objects := [];
      failed := false;
    }

    /** The constructor body: footer, seed, command block, root list, then `parseData`. */
    method Open(path: string) returns (r: Result<(), Error>)
      modifies this
      ensures Load(cfg, path, file, cipher, lzma) == (if r.Ok? then Ok(State()) else Err(r.error))
    {
      SetFileName(path);
      var block :- ReadHeaderIn();
      r := ParseBlock(block);
    }

    /** The root list at offset 4 of the block, then `parseData` on the rest. */
    method ParseBlock(block: bytes) returns (r: Result<(), Error>)
      modifies this`generator, this`images, this`objects
      ensures LoadBlock(cfg, block) == (if r.Ok? then Ok(Tree()) else Err(r.error))
    {
      generator, images, objects := None, [], [];
      var cur := new Cursor(block, 4);
      var root := ReadRoot(cfg.copy, cur);
      if root.Err? {
        return Err(root.error);
      }
      r := ParseData(cur);
    }

    /** `FOX5` records the lower-cased base name of the path; `FOX5File` none. */
    method SetFileName(path: string)
      modifies this`fileName
      ensures fileName == FileNameOf(cfg.copy, path)
    {
      fileName := None;
      if cfg.copy == FurcCopy {
        var name := LowerInPlace(GetBasename(path));
        fileName := Some(name);
      }
    }

    /** The constructor up to the command block, storing the footer's types, the seed and the stream state. */
    method ReadHeaderIn() returns (r: Result<bytes, Error>)
      modifies this`compression, this`encryption, this`seed, this`imageStart, this`failed
      ensures var h := ReadHeader(file, cipher, lzma);
              h.Ok? == r.Ok? && (h.Err? ==> h.error == r.error) &&
              (h.Ok? ==>
                 r.value == h.value.block && seed == h.value.seed &&
                 compression == h.value.footer.compression && encryption == h.value.footer.encryption &&
                 imageStart == h.value.footer.compressedSize &&
                 failed == FailsAfter(file, false, 0, h.value.footer.compressedSize))
    {
      seed := Zeros(SEED_SIZE);
      failed := false;
      var footer :- ReadFooterFrom(file);
      compression := footer.compression;
      encryption := footer.encryption;
      if encryption == ENCRYPTED {
        if |file| < SEED_FROM_END {
          return Err(SeedReadFailed);
        }
        seed := file[|file| - SEED_FROM_END..|file| - FOOTER_SIZE];
      }
      var raw :- ReadInto(file, false, 0, footer.compressedSize, footer.uncompressedSize);
      failed := FailsAfter(file, false, 0, footer.compressedSize);
      var plain :- Decrypt(encryption, cipher, seed, raw, footer.compressedSize);
      var block :- Decompress(compression, lzma, plain, footer.uncompressedSize);
      imageStart := footer.compressedSize;
      return Ok(block);
    }

    /** `FOX5File::parseData`: turn after turn, the contents updated in place. */
    method ParseData(cur: Cursor) returns (r: Result<(), Error>)
      modifies this`generator, this`images, this`objects, cur
      ensures FileLoop(cfg, cur.data, old(cur.pos), old(Tree())) ==
                (if r.Ok? then Ok(Parsed(Tree(), cur.pos)) else Err(r.error))
    {
      ghost var d := cur.data;
      ghost var whole := FileLoop(cfg, d, cur.pos, Tree());
      while cur.pos < |cur.data|
        invariant cur.data == d
        invariant whole == FileLoop(cfg, d, cur.pos, Tree())
        decreases |d| - cur.pos
      {
        var t := FileTurn(cur);
        if t.Err? {
          return Err(t.error);
        }
        if t.value {
          return Ok(());
        }
      }
      return Ok(());
    }

    /** One turn of `parseData`: one command and its `switch`; `true` at `LIST_END`. */
    method FileTurn(cur: Cursor) returns (r: Result<bool, Error>)
      modifies this`generator, this`images, this`objects, cur
      ensures FileStep(cfg, cur.data, old(cur.pos), old(Tree())) ==
                (if r.Err? then Err(r.error)
                 else Ok(Parsed(if r.value then Stop(Tree()) else Next(Tree()), cur.pos)))
    {
      var cmd := new Command();
      var parsed := cmd.ParseData(cfg.copy, cur);
      if parsed.Err? {
        return Err(parsed.error);
      }
      if cmd.op == ListStart {
        var level :- cmd.GetU8();
        if level != 1 {
          return Err(UnexpectedLevel(FileLevel, level));
        }
        var count :- cmd.GetU32();
        var kids :- ParseObjects(cfg, cur, count);
        objects := kids;
        return Ok(false);
      } else if cmd.op == ListEnd {
        return Ok(true);
      }
      var applied := Apply(cmd);
      if applied.Err? {
        return Err(applied.error);
      }
      return Ok(false);
    }

    /** The `FILE_IMAGE_LIST` and `FILE_GENERATOR` cases; other commands change nothing. */
    method Apply(cmd: Command) returns (r: Result<(), Error>)
      requires cmd.index == 0
      modifies this`generator, this`images, cmd
      ensures cmd.op == old(cmd.op) && cmd.values == old(cmd.values)
      ensures ApplyFile(old(Tree()), cmd.op, cmd.values) == (if r.Ok? then Ok(Tree()) else Err(r.error))
    {
      match cmd.op
      case FileImageList =>
        var count :- cmd.GetU32();
        var list :- ReadImages(cmd, count);
        images := list;
        r := Ok(());
      case FileGenerator =>
        var v :- cmd.GetU8();
        generator := Some(v);
        r := Ok(());
      case _ =>
        r := Ok(());
    }

    /** `getImage(id)`: the image's descriptor with its bytes; the stream may fail on the way. */
    method GetImage(id: uint32) returns (r: Result<Picture, Error>)
      modifies this`failed
      ensures r == ImageOf(old(State()), file, cipher, lzma, id)
      ensures failed == FailedAfter(old(State()), file, id)
    {
      if id >= |images| {
        return Err(ImageIndexOutOfBounds);
      }
      var im := images[id];
      var at := Wrap32(imageStart + im.offset);
      var raw := ReadInto(file, failed, at, im.compressedSize, MemSize(im));
      failed := FailsAfter(file, failed, at, im.compressedSize);
      if raw.Err? {
        return Err(raw.error);
      }
      var plain :- Decrypt(encryption, cipher, seed, raw.value, im.compressedSize);
      var data :- Decompress(compression, lzma, plain, |plain|);
      return Ok(Picture(im, data));
    }
  }
}
