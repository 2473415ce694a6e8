/**
 * The texture cache: textures built from FOX5 images, kept per container
 * name and image index together with the age at which they were last used.
 */
module TextureCacheModel {
  import opened Wrappers
  import opened Common
  import opened Fox5File
  import Texture3ds

  /** What `getFromFox` can throw: `getImage`'s errors and those of the `Texture(FOX5Image)` constructor. */
  datatype CacheError =
    | LoadFailed(load: Error)                     // fox.getImage threw
    | BuildFailed(build: Texture3ds.TextureError) // padImage or reverse_morton_order threw
    | ImageTooShort                               // padImage would read past the image's data

  /**
   * A texture made from one image: the image itself, the padded power-of-two
   * size and the pixels handed to the GPU. Every construction is a new object,
   * shared by reference.
   */
  class Texture {
    const picture: Picture
    const width: uint16
    const height: uint16
    const pixels: bytes

    constructor (picture: Picture, width: uint16, height: uint16, pixels: bytes)
      ensures this.picture == picture && this.width == width && this.height == height && this.pixels == pixels
    {
      this.picture := picture;
      this.width := width;
      this.height := height;
      this.pixels := pixels;
    }
  }

  /** `nextPowerOf2` of an image side, stored into the `uint16_t` field `mWidth` or `mHeight`. */
  function Side(n: uint16): uint16
  {
    (Texture3ds.NextPowerOf2(n as bv32) as int) % TWO_16
  }

  /** Sides of at most 4 pixels pad to 1, 2 or 4: no larger than 4 and never whole 8x8 tiles. */
  lemma SmallSide(n: uint16)
    requires n <= 4
    ensures n <= Side(n) <= 4 && Side(n) % 8 != 0
  {
    if n == 0 {
    } else if n == 1 {
    } else if n == 2 {
    } else if n == 3 {
    } else {
    }
  }

  /** The padded buffer of a `tw` by `th` RGBA texture is exactly the bytes the reorder covers, whole pixels. */
  lemma PaddedExtent(tw: nat, th: nat)
    ensures Texture3ds.Rows(th, tw * 4) == Texture3ds.Extent(tw, th, 4)
    ensures Texture3ds.Rows(th, tw * 4) % 4 == 0
  {
    Texture3ds.RowsIs(th, tw * 4);
    Texture3ds.RowsIs(th, tw);
    Texture3ds.RowsIs(th * tw, 4);
    assert th * (tw * 4) == (th * tw) * 4;
  }

  /**
   * What `Texture(FOX5Image)` computes on the CPU: the image padded with
   * 0xFF to the power-of-two size, every pixel rotated, then the Morton
   * reorder; or the error that stops it.
   */
  function TexturePixels(image: Picture): Result<bytes, CacheError>
  {
    var w: nat := image.image.width;
    var h: nat := image.image.height;
    var tw: nat := Side(w);
    var th: nat := Side(h);
    if w > tw || h > th then Err(BuildFailed(Texture3ds.TargetTooSmall))
    else if |image.data| < Texture3ds.Rows(h, w * 4) then Err(ImageTooShort)
    else
      var padded := Texture3ds.Padded(image.data, w * 4, h, tw * 4, th, 0xFF);
      PaddedExtent(tw, th);
      var rotated := Texture3ds.Rotated(padded);
      if !Texture3ds.Tiled(tw, th) then Err(BuildFailed(Texture3ds.NotMultipleOf8))
      else Ok(Texture3ds.Swizzled(rotated, tw, th, 4))
  }

  /**
   * An image with a side of at most 4 pixels never becomes a texture; a
   * texture that is built holds the padded image's bytes, reordered.
   */
  lemma TextureBuilds(image: Picture)
    ensures image.image.width <= 4 || image.image.height <= 4 ==> TexturePixels(image).Err?
    ensures var w, h := image.image.width, image.image.height;
            TexturePixels(image).Ok? ==>
              4 < w && 4 < h && Texture3ds.Rows(h, w * 4) <= |image.data| &&
              multiset(TexturePixels(image).value) ==
              multiset(Texture3ds.Padded(image.data, w * 4, h, Side(w) * 4, Side(h), 0xFF))
  {
    var w: nat, h: nat := image.image.width, image.image.height;
    if w <= 4 {
      SmallSide(w);
    }
    if h <= 4 {
      SmallSide(h);
    }
    if TexturePixels(image).Ok? {
      var padded := Texture3ds.Padded(image.data, w * 4, h, Side(w) * 4, Side(h), 0xFF);
      PaddedExtent(Side(w), Side(h));
      Texture3ds.RotatedPermutes(padded);
      Texture3ds.SwizzledPermutes(Texture3ds.Rotated(padded), Side(w), Side(h), 4);
    }
  }

  /** A 2x2 image pads to 2x2, which `reverse_morton_order` rejects. */
  lemma TinyImageRejected(image: Picture)
    requires image.image.width == 2 && image.image.height == 2 && |image.data| >= 16
    ensures TexturePixels(image) == Err(BuildFailed(Texture3ds.NotMultipleOf8))
  {
    assert Side(2) == 2;
    Texture3ds.RowsIs(2, 8);
  }

  /** A side of 40000 pads to 65536, which is 0 in `uint16_t`, so `padImage` rejects the target. */
  lemma WideImageRejected(image: Picture)
    requires image.image.width == 40000
    ensures TexturePixels(image) == Err(BuildFailed(Texture3ds.TargetTooSmall))
  {
    WideSide();
  }

  /** `nextPowerOf2(40000)` is 65536, which does not fit in `uint16_t`. */
  lemma WideSide()
    ensures Side(40000) == 0
  {
    assert 40000 as bv32 == 0x9C40;
    var p := Texture3ds.NextPowerOf2(40000 as bv32);
    assert p == Texture3ds.NextPowerOf2(0x9C40) == 0x1_0000;
    assert p as int == 0x1_0000;
  }

  /**
   * `Texture(FOX5Image)`: `nextPowerOf2` for both sides, `padImage` with
   * 0xFF, the rotation loop over `mWidth * mHeight * 4` bytes, and
   * `reverse_morton_order`; an exception stops it before a texture exists.
   */
  method Build(image: Picture) returns (r: Result<Texture, CacheError>)
    ensures r.Err? <==> TexturePixels(image).Err?
    ensures r.Err? ==> r.error == TexturePixels(image).error
    ensures r.Ok? ==> fresh(r.value) && r.value.picture == image &&
                      r.value.width == Side(image.image.width) && r.value.height == Side(image.image.height) &&
                      r.value.pixels == TexturePixels(image).value
  {
    var w := image.image.width;
    var h := image.image.height;
    var tw := Side(w);
    var th := Side(h);
    if |image.data| < Texture3ds.Rows(h, w as nat * 4) {
      if w > tw || h > th {
        return Err(BuildFailed(Texture3ds.TargetTooSmall));
      }
      return Err(ImageTooShort);
    }
    var padding := Texture3ds.PadImage(image.data, w, h, 4, tw, th, 0xFF);
    if padding.Err? {
      return Err(BuildFailed(padding.error));
    }
    var padded := padding.value;
    ghost var filled := padded[..];
    PaddedExtent(tw, th);
    assert padded[..padded.Length] == filled && padded[padded.Length..] == [];
    Texture3ds.RotatePixels(padded, padded.Length);
    ghost var rotated := padded[..];
    assert rotated == Texture3ds.Rotated(filled);
    assert padded[..padded.Length] == rotated && padded[padded.Length..] == [];
    var swizzled := Texture3ds.ReverseMortonOrder(padded, tw, th, 4);
    if swizzled.Err? {
      return Err(BuildFailed(swizzled.error));
    }
    assert padded[..] == Texture3ds.Swizzled(rotated, tw, th, 4);
    var texture := new Texture(image, tw, th, padded[..]);
    r := Ok(texture);
  }

  /** `TextureEntry`: the shared texture and the age of its last use. */
  datatype Entry = Entry(texture: Texture, lastUse: uint32)

  /** The nested map: container name, then image index. */
  type Textures = map<string, map<uint32, Entry>>

  /** The entry under `(name, ptr)`, if there is one. */
  function Cached(m: Textures, name: string, ptr: uint32): Option<Entry>
  {
    if name in m && ptr in m[name] then Some(m[name][ptr]) else None
  }

  /** The inner map under `name`; `operator[]` makes an empty one when there is none. */
  function Inner(m: Textures, name: string): map<uint32, Entry>
  {
    if name in m then m[name] else map[]
  }

  /** A hit: the entry under `(name, ptr)` gets last-use age `age`. */
  function Touched(m: Textures, name: string, ptr: uint32, age: uint32): Textures
    requires Cached(m, name, ptr).Some?
  {
    m[name := m[name][ptr := m[name][ptr].(lastUse := age)]]
  }

  /** A miss: `e` goes under `(name, ptr)`. */
  function Inserted(m: Textures, name: string, ptr: uint32, e: Entry): Textures
  {
    m[name := Inner(m, name)[ptr := e]]
  }

  /** A hit changes the age of that one entry and nothing else. */
  lemma TouchedAt(m: Textures, name: string, ptr: uint32, age: uint32, n: string, p: uint32)
    requires Cached(m, name, ptr).Some?
    ensures Cached(Touched(m, name, ptr, age), n, p) ==
            if n == name && p == ptr then Some(Cached(m, name, ptr).value.(lastUse := age))
            else Cached(m, n, p)
  {
  }

  /** A miss adds that one entry and leaves every other key as it was. */
  lemma InsertedAt(m: Textures, name: string, ptr: uint32, e: Entry, n: string, p: uint32)
    ensures Cached(Inserted(m, name, ptr, e), n, p) == if n == name && p == ptr then Some(e) else Cached(m, n, p)
  {
  }

  /** A miss adds at most one container name, the one it inserts under. */
  lemma InsertedKeys(m: Textures, name: string, ptr: uint32, e: Entry)
    ensures name in Inserted(m, name, ptr, e)
    ensures Inserted(m, name, ptr, e).Keys == m.Keys + {name}
  {
  }

  /** `TextureCache`: the map and the current age. */
  class TextureCache {
    var textures: Textures
    var currentAge: uint32

    constructor (age: uint32)
      ensures textures == map[] && currentAge == age
    {
      textures := map[];
      currentAge := age;
    }

    /**
     * `getFromFox(fox, ptr)` for a container named `name`, with `load`
     * standing for `fox.getImage`: on a hit the cached texture, with its
     * age refreshed; on a miss the image is loaded, a new texture is made
     * from it and cached. A failing load or a failing construction throws
     * before the `emplace` and changes nothing.
     */
    method GetFromFox(name: string, ptr: uint32, load: uint32 -> Result<Picture, Error>)
      returns (r: Result<Texture, CacheError>)
      modifies this`textures
      ensures old(Cached(textures, name, ptr)).Some? ==>
                r == Ok(old(Cached(textures, name, ptr)).value.texture) &&
                textures == Touched(old(textures), name, ptr, currentAge)
      ensures old(Cached(textures, name, ptr)).None? && load(ptr).Err? ==>
                r == Err(LoadFailed(load(ptr).error)) && textures == old(textures)
      ensures old(Cached(textures, name, ptr)).None? && load(ptr).Ok? && TexturePixels(load(ptr).value).Err? ==>
                r == Err(TexturePixels(load(ptr).value).error) && textures == old(textures)
      ensures old(Cached(textures, name, ptr)).None? && load(ptr).Ok? && TexturePixels(load(ptr).value).Ok? ==>
                r.Ok? && fresh(r.value) && r.value.picture == load(ptr).value &&
                r.value.pixels == TexturePixels(load(ptr).value).value &&
                textures == Inserted(old(textures), name, ptr, Entry(r.value, currentAge))
    {
      if name in textures {
        var inner := textures[name];
        if ptr in inner {
          var entry := inner[ptr].(lastUse := currentAge);
          textures := textures[name := inner[ptr := entry]];
          return Ok(entry.texture);
        }
      }
      var loaded := load(ptr);
      if loaded.Err? {
        return Err(LoadFailed(loaded.error));
      }
      var texture :- Build(loaded.value);
      var newEntry := Entry(texture, currentAge);
      var inner := if name in textures then textures[name] else map[];
      textures := textures[name := inner[ptr := newEntry]];
      r := Ok(texture);
    }
  }
}
