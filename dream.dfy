/**
 * The Dream (`.map`) reader, as built without the cipher library.
 *
 * A map file starts with a magic line `MAP V<major>.<minor> Furcadia`.
 * Then come up to 32 header lines `key=value`, ended by a line `BODY`.
 * After that come the tile planes: floors, objects and walls, then
 * regions and effects from version 1.30 on, then lighting and ambient
 * from version 1.50 on. Each plane holds two bytes per tile.
 */
module DreamFile {
  import opened Wrappers
  import opened Common
  import opened FileCommon

  /** The exceptions the `Dream` constructor and `Dream::get` throw, one per throw site. */
  datatype DreamError =
    | TooSmallForDream           // shorter than the smallest map, "MAP V##.## Furcadia\nBODY\n"
    | NotAMap                    // the magic line does not scan as two version numbers
    | InvalidNumber              // std::stoi found no digits (std::invalid_argument)
    | NumberOutOfRange           // std::stoi read a value outside int (std::out_of_range)
    | NoBody                     // no BODY line among the first 32 header lines
    | ReadFailed                 // the stream cannot deliver the bytes the planes need
    | EncodedMap                 // an encoded map, and no cipher built in
    | NotEnoughData(plane: Plane) // a plane that does not fit in the data read
    | CoordinatesOutOfBounds     // get(x, y) outside the map

  /** The length of "MAP V##.## Furcadia\nBODY\n". */
  const MIN_SIZE: nat := 25
  /** `getline(magic, 20)` stores at most 19 characters. */
  const MAGIC_LIMIT: nat := 19
  /** `getline(line, 255)` stores at most 254 characters. */
  const LINE_LIMIT: nat := 254
  /** The header loop reads at most this many lines. */
  const MAX_HEADER_LINES: nat := 32

  const INT_MIN: int := -0x8000_0000
  const INT_MAX: int := 0x7FFF_FFFF

  // ---------------------------------------------------------------------------
  // The input stream: std::istream::getline and C strings
  // ---------------------------------------------------------------------------

  /**
   * The part of the `std::ifstream` state that the constructor observes:
   * the read position, and whether the stream has stopped being good
   * (`eofbit` or `failbit` set). Once it is not good, every later read fails.
   */
  datatype Stream = Stream(pos: nat, bad: bool)

  /** The characters one `getline` stored, and the stream after it. */
  datatype Line = Line(text: string, after: Stream)

  /**
   * `getline` on a good stream at `p`. It stores up to `left` characters.
   * Reaching the end of the file sets `eofbit`. A '\n' is consumed but not
   * stored. Storing `left` characters with no '\n' after them sets `failbit`.
   */
  function TakeLine(d: string, p: nat, left: nat): (r: Line)
    requires p <= |d|
    ensures |r.text| <= left && p + |r.text| <= |d| && r.text == d[p..p + |r.text|]
    ensures forall k :: 0 <= k < |r.text| ==> r.text[k] != '\n'
    ensures !r.after.bad ==> p + |r.text| < |d| && d[p + |r.text|] == '\n' && r.after.pos == p + |r.text| + 1
    ensures r.after.bad ==> r.after.pos == p + |r.text| &&
                            (p + |r.text| == |d| || (|r.text| == left && d[p + left] != '\n'))
    decreases left
  {
    if p == |d| then Line("", Stream(p, true))
    else if d[p] == '\n' then Line("", Stream(p + 1, false))
    else if left == 0 then Line("", Stream(p, true))
    else
      var rest := TakeLine(d, p + 1, left - 1);
      Line([d[p]] + rest.text, rest.after)
  }

  /** `std::istream::getline(buffer, limit + 1)`: on a stream that is not good it stores nothing. */
  function GetLine(d: string, s: Stream, limit: nat): (r: Line)
    requires s.pos <= |d|
    ensures s.pos <= r.after.pos <= |d|
    ensures s.bad ==> r == Line("", s)
  {
    if s.bad then Line("", s) else TakeLine(d, s.pos, limit)
  }

  /** A line that ends in '\n' within the limit is read whole, and the stream stays good. */
  lemma {:induction false} LineRead(d: string, p: nat, left: nat, k: nat)
    requires p + k < |d| && k <= left && d[p + k] == '\n'
    requires forall j :: p <= j < p + k ==> d[j] != '\n'
    ensures TakeLine(d, p, left) == Line(d[p..p + k], Stream(p + k + 1, false))
    decreases k
  {
    if k > 0 {
      LineRead(d, p + 1, left - 1, k - 1);
      assert [d[p]] + d[p + 1..p + k] == d[p..p + k];
    }
  }

  /** A line longer than the limit stops the stream: everything read after it is empty. */
  lemma LongLineStops(d: string, p: nat, left: nat)
    requires p + left < |d|
    requires forall j :: p <= j <= p + left ==> d[j] != '\n'
    ensures TakeLine(d, p, left).after.bad
    ensures GetLine(d, TakeLine(d, p, left).after, LINE_LIMIT).text == ""
  {
  }

  /** `std::string(buffer)`: the characters before the first NUL. */
  function CStr(s: string): (r: string)
    ensures |r| <= |s| && r == s[..|r|]
    ensures forall k :: 0 <= k < |r| ==> r[k] != '\0'
    ensures |r| < |s| ==> s[|r|] == '\0'
  {
    if |s| == 0 || s[0] == '\0' then "" else [s[0]] + CStr(s[1..])
  }

  /** A buffer without NUL is copied whole. */
  lemma {:induction false} CStrWhole(s: string)
    requires forall k :: 0 <= k < |s| ==> s[k] != '\0'
    ensures CStr(s) == s
  {
    if |s| > 0 {
      CStrWhole(s[1..]);
    }
  }

  // ---------------------------------------------------------------------------
  // Numbers: sscanf's %d and std::stoi, decimal only
  // ---------------------------------------------------------------------------

  /** `isspace` in the "C" locale. */
  predicate IsSpace(c: char)
  {
    c == ' ' || c == '\t' || c == '\n' || c == '\U{0B}' || c == '\U{0C}' || c == '\r'
  }

  predicate IsDigit(c: char)
  {
    '0' <= c <= '9'
  }

  function DigitValue(c: char): nat
    requires IsDigit(c)
  {
    c as int - '0' as int
  }

  /** The first position at or after `i` that does not hold a space. */
  function SkipSpaces(s: string, i: nat): (r: nat)
    requires i <= |s|
    ensures i <= r <= |s| && (r < |s| ==> !IsSpace(s[r]))
    ensures forall k :: i <= k < r ==> IsSpace(s[k])
    decreases |s| - i
  {
    if i == |s| || !IsSpace(s[i]) then i else SkipSpaces(s, i + 1)
  }

  /** The end of the run of digits that starts at `i`. */
  function DigitsEnd(s: string, i: nat): (r: nat)
    requires i <= |s|
    ensures i <= r <= |s| && (r < |s| ==> !IsDigit(s[r]))
    ensures forall k :: i <= k < r ==> IsDigit(s[k])
    decreases |s| - i
  {
    if i == |s| || !IsDigit(s[i]) then i else DigitsEnd(s, i + 1)
  }

  /** The value of a run of decimal digits, most significant first. */
  function DigitsValue(ds: string): nat
    requires forall k :: 0 <= k < |ds| ==> IsDigit(ds[k])
  {
    if |ds| == 0 then 0 else DigitsValue(ds[..|ds| - 1]) * 10 + DigitValue(ds[|ds| - 1])
  }

  /** A scanned number and the position just after its last digit. */
  datatype Scanned = Scanned(value: int, end: nat)

  /**
   * A decimal integer as `%d` and `std::stoi` read it. Leading spaces are
   * skipped, then one optional sign, then at least one digit. The value is
   * exact: `std::stoi` checks its range, `%d` does not.
   */
  function ScanInt(s: string, i: nat): (r: Option<Scanned>)
    requires i <= |s|
    ensures r.Some? ==> i < r.value.end <= |s| && IsDigit(s[r.value.end - 1]) &&
                        (r.value.end < |s| ==> !IsDigit(s[r.value.end]))
  {
    var j := SkipSpaces(s, i);
    var signed := j < |s| && (s[j] == '-' || s[j] == '+');
    var k := if signed then j + 1 else j;
    var e := DigitsEnd(s, k);
    if e == k then None
    else
      var v: int := DigitsValue(s[k..e]);
      Some(Scanned(if signed && s[j] == '-' then -v else v, e))
  }

  /** The decimal digits of `n`, the inverse of `DigitsValue`. */
  function Decimal(n: nat): (r: string)
    ensures |r| > 0 && forall k :: 0 <= k < |r| ==> IsDigit(r[k])
  {
    var last := ['0' + (n % 10) as char];
    if n < 10 then last else Decimal(n / 10) + last
  }

  /** `std::to_string` of an integer: a '-' and the digits for a negative one. */
  function Signed(v: int): string
  {
    if v < 0 then "-" + Decimal(-v) else Decimal(v)
  }

  lemma {:induction false} DecimalValue(n: nat)
    ensures DigitsValue(Decimal(n)) == n
  {
    var r := Decimal(n);
    if n >= 10 {
      DecimalValue(n / 10);
      assert r[..|r| - 1] == Decimal(n / 10);
    }
  }

  lemma {:induction false} DigitsEndOf(s: string, i: nat, m: nat)
    requires i + m <= |s| && forall k :: i <= k < i + m ==> IsDigit(s[k])
    requires i + m == |s| || !IsDigit(s[i + m])
    ensures DigitsEnd(s, i) == i + m
    decreases m
  {
    if m > 0 {
      DigitsEndOf(s, i + 1, m - 1);
    }
  }

  /** A run of digits in `s` at `k`, with no digit after it, ends where the run does. */
  lemma DigitsAt(s: string, k: nat, ds: string)
    requires k + |ds| <= |s| && s[k..k + |ds|] == ds
    requires forall j :: 0 <= j < |ds| ==> IsDigit(ds[j])
    requires k + |ds| == |s| || !IsDigit(s[k + |ds|])
    ensures DigitsEnd(s, k) == k + |ds|
  {
    assert forall j :: k <= j < k + |ds| ==> s[j] == ds[j - k];
    DigitsEndOf(s, k, |ds|);
  }

  /** Digits at `k` after the sign or space test at `i` scan as their value. */
  lemma ScanDigitsAt(s: string, i: nat, k: nat, n: nat)
    requires i <= k && k + |Decimal(n)| <= |s| && s[k..k + |Decimal(n)|] == Decimal(n)
    requires k + |Decimal(n)| == |s| || !IsDigit(s[k + |Decimal(n)|])
    requires SkipSpaces(s, i) == i
    requires (k == i + 1 && s[i] == '-') || (k == i && IsDigit(s[i]))
    ensures ScanInt(s, i) == Some(Scanned(if k == i then n as int else -(n as int), k + |Decimal(n)|))
  {
    DigitsAt(s, k, Decimal(n));
    DecimalValue(n);
  }

  /** The decimal text of `v`, wherever it stands in `s`, scans as `v` when no digit follows it. */
  lemma ScanSignedAt(s: string, i: nat, v: int)
    requires i + |Signed(v)| <= |s| && s[i..i + |Signed(v)|] == Signed(v)
    requires i + |Signed(v)| == |s| || !IsDigit(s[i + |Signed(v)|])
    ensures ScanInt(s, i) == Some(Scanned(v, i + |Signed(v)|))
  {
    var t := Signed(v);
    assert s[i] == t[0];
    if v < 0 {
      var ds := Decimal(-v);
      assert t == "-" + ds && t[0] == '-';
      assert s[i + 1..i + |t|] == t[1..] == ds;
      ScanDigitsAt(s, i, i + 1, -v);
    } else {
      assert t == Decimal(v) && IsDigit(t[0]);
      ScanDigitsAt(s, i, i, v);
    }
  }

  /** Scanning the decimal text of `v` gives `v` back, when no digit follows it. */
  lemma ScanSigned(v: int, rest: string)
    requires |rest| == 0 || !IsDigit(rest[0])
    ensures ScanInt(Signed(v) + rest, 0) == Some(Scanned(v, |Signed(v)|))
  {
    var s := Signed(v) + rest;
    assert s[0..|Signed(v)|] == Signed(v);
    ScanSignedAt(s, 0, v);
  }

  /** `std::stoi`: no digits throw `invalid_argument`, a value outside `int` throws `out_of_range`. */
  function StoI(s: string): (r: Result<int, DreamError>)
    ensures r == Err(InvalidNumber) <==> ScanInt(s, 0).None?
    ensures r.Ok? <==> ScanInt(s, 0).Some? && INT_MIN <= ScanInt(s, 0).value.value <= INT_MAX
    ensures r.Ok? ==> r.value == ScanInt(s, 0).value.value
  {
    match ScanInt(s, 0)
    case None => Err(InvalidNumber)
    case Some(n) => if INT_MIN <= n.value <= INT_MAX then Ok(n.value) else Err(NumberOutOfRange)
  }

  /** `std::stoi` reads back the decimal text of every `int`. */
  lemma StoISigned(v: int, rest: string)
    requires INT_MIN <= v <= INT_MAX
    requires |rest| == 0 || !IsDigit(rest[0])
    ensures StoI(Signed(v) + rest) == Ok(v)
  {
    ScanSigned(v, rest);
  }

  /**
   * `sscanf(magic, "MAP V%d.%d Furcadia", ...)` with both conversions done.
   * The space in the format matches any run of spaces, even an empty one.
   * Nothing after the second number is compared, because the count of
   * conversions is all the caller checks.
   */
  function ScanVersion(s: string): (r: Option<(int, int)>)
  {
    if |s| < 3 || s[0] != 'M' || s[1] != 'A' || s[2] != 'P' then None
    else
      var j := SkipSpaces(s, 3);
      if j == |s| || s[j] != 'V' then None else ScanNumbers(s, j + 1)
  }

  /** The `%d.%d` part of the version: two numbers with a '.' between them. */
  function ScanNumbers(s: string, i: nat): (r: Option<(int, int)>)
    requires i <= |s|
  {
    match ScanInt(s, i)
    case None => None
    case Some(major) =>
      if major.end == |s| || s[major.end] != '.' then None
      else
        match ScanInt(s, major.end + 1)
        case None => None
        case Some(minor) => Some((major.value, minor.value))
  }

  /** The magic line a map of version `major.minor` starts with. */
  function MagicLine(major: nat, minor: nat): string
  {
    "MAP V" + Decimal(major) + "." + Decimal(minor) + " Furcadia"
  }

  /** The version scanner accepts any text laid out as "MAP V", a number, '.', and a number. */
  lemma ScanVersionParts(s: string, x: int, e: nat, y: int)
    requires |s| >= 5 && s[0] == 'M' && s[1] == 'A' && s[2] == 'P' && s[3] == ' ' && s[4] == 'V'
    requires ScanInt(s, 5) == Some(Scanned(x, e)) && e < |s| && s[e] == '.'
    requires ScanInt(s, e + 1).Some? && ScanInt(s, e + 1).value.value == y
    ensures ScanVersion(s) == Some((x, y))
  {
    NumbersRead(s, 5, x, e, y);
    assert SkipSpaces(s, 4) == 4;
  }

  lemma NumbersRead(s: string, i: nat, x: int, e: nat, y: int)
    requires i <= |s| && ScanInt(s, i) == Some(Scanned(x, e)) && e < |s| && s[e] == '.'
    requires ScanInt(s, e + 1).Some? && ScanInt(s, e + 1).value.value == y
    ensures ScanNumbers(s, i) == Some((x, y))
  {
  }

  /** Where the parts of a magic line sit. */
  lemma MagicLayout(a: string, b: string)
    ensures var s := "MAP V" + a + "." + b + " Furcadia";
      |s| == |a| + |b| + 15 &&
      s[0] == 'M' && s[1] == 'A' && s[2] == 'P' && s[3] == ' ' && s[4] == 'V' &&
      s[5..5 + |a|] == a && s[5 + |a|] == '.' &&
      s[6 + |a|..6 + |a| + |b|] == b && s[6 + |a| + |b|] == ' '
  {
    var s := "MAP V" + a + "." + b + " Furcadia";
    assert s == ("MAP V" + a) + ("." + b + " Furcadia");
    assert s[5..5 + |a|] == a by {
      assert forall j :: 0 <= j < |a| ==> s[5 + j] == a[j];
    }
    assert s[6 + |a|..6 + |a| + |b|] == b by {
      assert forall j :: 0 <= j < |b| ==> s[6 + |a| + j] == b[j];
    }
  }

  /** The version scanner reads back the version written in a magic line. */
  lemma ScanMagic(major: nat, minor: nat)
    ensures ScanVersion(MagicLine(major, minor)) == Some((major, minor))
  {
    var s := MagicLine(major, minor);
    var e := 5 + |Decimal(major)|;
    MagicLayout(Decimal(major), Decimal(minor));
    assert s[5..e] == Signed(major);
    ScanSignedAt(s, 5, major);
    assert s[e + 1..e + 1 + |Decimal(minor)|] == Signed(minor);
    ScanSignedAt(s, e + 1, minor);
    ScanVersionParts(s, major, e, minor);
  }

  // ---------------------------------------------------------------------------
  // Header attributes
  // ---------------------------------------------------------------------------

  /**
   * The map attributes that the header lines set, with the member
   * initialisers of `Dream` as defaults. The header loop assigns them
   * one at a time, so they are kept together in one record.
   */
  datatype Attributes = Attributes(
    width: uint16, height: uint16, revision: uint32, encoded: bool, patcht: bool,
    sfxLayerMode: string, sfxOpacity: uint8, name: string, patchs: string,
    noLoad: bool, allowJS: bool, allowLF: bool, allowFURL: bool, allowShouts: bool,
    allowLarge: bool, swearFilter: uint8, noWho: bool, forceSittable: bool, noTab: bool,
    noNovelty: bool, rating: string, allow32BitArt: bool, isModern: bool,
    parentalControls: bool)

  /** The attributes before any header line: a 52 x 100 map named after its file. */
  function Defaults(name: string): Attributes
  {
    Attributes(52, 100, 0, false, false, "", 0, name, "", false, false, false, false, false,
               false, 0, false, false, false, false, "", false, false, false)
  }

  /** The conversions of an `int` when it is assigned to a narrower member. */
  function ToUint8(v: int): uint8 { v % 0x100 }
  function ToUint16(v: int): uint16 { v % TWO_16 }
  function ToBool(v: int): bool { v != 0 }

  /** The last position of `c` in `s`, as `std::string::rfind`. */
  function FindLast(s: string, c: char): (r: Option<nat>)
    ensures r.Some? ==> r.value < |s| && s[r.value] == c && forall k :: r.value < k < |s| ==> s[k] != c
    ensures r.None? ==> forall k :: 0 <= k < |s| ==> s[k] != c
  {
    if |s| == 0 then None
    else if s[|s| - 1] == c then Some(|s| - 1)
    else FindLast(s[..|s| - 1], c)
  }

  /**
   * A header line split at its last '='. A line without '=' gives an `npos`
   * offset, which the `int` conversion turns into -1. Then both `substr`
   * calls return the whole line, so it serves as key and value alike.
   */
  function SplitKey(line: string): (string, string)
  {
    match FindLast(line, '=')
    case None => (line, line)
    case Some(k) => (line[..k], line[k + 1..])
  }

  /** A key, '=', and a value without '=' split back into that key and value. */
  lemma SplitKeyValue(key: string, value: string)
    requires forall k :: 0 <= k < |value| ==> value[k] != '='
    ensures SplitKey(key + "=" + value) == (key, value)
  {
    var line := key + "=" + value;
    assert line[|key|] == '=';
    assert forall k :: |key| < k < |line| ==> line[k] == value[k - |key| - 1];
    assert line[..|key|] == key && line[|key| + 1..] == value;
  }

  /** A line without '=' is its own key and its own value. */
  lemma SplitNoEquals(line: string)
    requires forall k :: 0 <= k < |line| ==> line[k] != '='
    ensures SplitKey(line) == (line, line)
  {
  }

  /** The keys whose value is kept as text. */
  datatype TextKey = SfxLayerMode | Name | Patchs | Rating

  /** The keys whose value goes through `std::stoi`. */
  datatype NumberKey =
    | Width | Height | Revision | Encoded | Patcht | SfxOpacity | NoLoad | AllowJS | AllowLF
    | AllowFURL | AllowShouts | AllowLarge | SwearFilter | NoWho | ForceSittable | NoTab
    | NoNovelty | Allow32BitArt | IsModern | ParentalControls

  /** The keys the header loop recognises. Any other key is only reported. */
  datatype Key = Text(text: TextKey) | Number(number: NumberKey)

  function TextKeyName(t: TextKey): string
  {
    match t
    case SfxLayerMode => "sfxlayermode"
    case Name => "name"
    case Patchs => "patchs"
    case Rating => "rating"
  }

  function NumberKeyName(n: NumberKey): string
  {
    match n
    case Width => "width"
    case Height => "height"
    case Revision => "revision"
    case Encoded => "encoded"
    case Patcht => "patcht"
    case SfxOpacity => "sfxopacity"
    case NoLoad => "noload"
    case AllowJS => "allowjs"
    case AllowLF => "allowlf"
    case AllowFURL => "allowfurl"
    case AllowShouts => "allowshouts"
    case AllowLarge => "allowlarge"
    case SwearFilter => "swearfilter"
    case NoWho => "nowho"
    case ForceSittable => "forcesittable"
    case NoTab => "notab"
    case NoNovelty => "nonovelty"
    case Allow32BitArt => "allow32bitart"
    case IsModern => "ismodern"
    case ParentalControls => "parentalcontrols"
  }

  /** The lower-case spelling of each key in a map header. */
  function KeyName(k: Key): (r: string)
    ensures |r| > 0
  {
    match k
    case Text(t) => TextKeyName(t)
    case Number(n) => NumberKeyName(n)
  }

  /** The keys in the order of the `key.compare(...) == 0` tests. */
  const KEY_ORDER: seq<Key> := [
    Number(Width), Number(Height), Number(Revision), Number(Encoded), Number(Patcht),
    Text(SfxLayerMode), Number(SfxOpacity), Text(Name), Text(Patchs), Number(NoLoad),
    Number(AllowJS), Number(AllowLF), Number(AllowFURL), Number(AllowShouts), Number(AllowLarge),
    Number(SwearFilter), Number(NoWho), Number(ForceSittable), Number(NoTab), Number(NoNovelty),
    Text(Rating), Number(Allow32BitArt), Number(IsModern), Number(ParentalControls)]

  /** The first key in `keys` spelled `s`. */
  function FindKey(s: string, keys: seq<Key>): (r: Option<Key>)
    ensures r.Some? ==> KeyName(r.value) == s && r.value in keys
    ensures r.None? ==> forall j :: 0 <= j < |keys| ==> KeyName(keys[j]) != s
  {
    if |keys| == 0 then None
    else if KeyName(keys[0]) == s then Some(keys[0])
    else FindKey(s, keys[1..])
  }

  /** A text that spells no key in `keys` is not found. */
  lemma {:induction false} FindKeyNone(s: string, keys: seq<Key>)
    requires forall j :: 0 <= j < |keys| ==> KeyName(keys[j]) != s
    ensures FindKey(s, keys) == None
  {
    if |keys| > 0 {
      FindKeyNone(s, keys[1..]);
    }
  }

  /** The chain of key comparisons: the key spelled `s`, if there is one. */
  function ParseKey(s: string): (r: Option<Key>)
    ensures r.Some? ==> KeyName(r.value) == s
  {
    FindKey(s, KEY_ORDER)
  }

  /** Distinct keys have distinct spellings. */
  lemma KeyNameInjective(k1: Key, k2: Key)
    requires KeyName(k1) == KeyName(k2)
    ensures k1 == k2
  {
  }

  /** The position of each key in the chain of tests. */
  function KeyIndex(k: Key): (j: nat)
    ensures j < |KEY_ORDER| && KEY_ORDER[j] == k
  {
    match k
    case Number(Width) => 0
    case Number(Height) => 1
    case Number(Revision) => 2
    case Number(Encoded) => 3
    case Number(Patcht) => 4
    case Text(SfxLayerMode) => 5
    case Number(SfxOpacity) => 6
    case Text(Name) => 7
    case Text(Patchs) => 8
    case Number(NoLoad) => 9
    case Number(AllowJS) => 10
    case Number(AllowLF) => 11
    case Number(AllowFURL) => 12
    case Number(AllowShouts) => 13
    case Number(AllowLarge) => 14
    case Number(SwearFilter) => 15
    case Number(NoWho) => 16
    case Number(ForceSittable) => 17
    case Number(NoTab) => 18
    case Number(NoNovelty) => 19
    case Text(Rating) => 20
    case Number(Allow32BitArt) => 21
    case Number(IsModern) => 22
    case Number(ParentalControls) => 23
  }

  /** The search finds the first key in `keys` spelled `s`. */
  lemma {:induction false} FindKeyAt(s: string, keys: seq<Key>, j: nat)
    requires j < |keys| && KeyName(keys[j]) == s
    requires forall i :: 0 <= i < j ==> KeyName(keys[i]) != s
    ensures FindKey(s, keys) == Some(keys[j])
  {
    if j > 0 {
      FindKeyAt(s, keys[1..], j - 1);
    }
  }

  /** Every key's spelling is recognised as that key, so no test in the chain shadows a later one. */
  lemma ParseKeyName(k: Key)
    ensures ParseKey(KeyName(k)) == Some(k)
  {
    var j := KeyIndex(k);
    forall i | 0 <= i < j
      ensures KeyName(KEY_ORDER[i]) != KeyName(k)
    {
      if KeyName(KEY_ORDER[i]) == KeyName(k) {
        KeyNameInjective(KEY_ORDER[i], k);
      }
    }
    FindKeyAt(KeyName(k), KEY_ORDER, j);
  }

  /** A text key's member set to the value. */
  function SetText(a: Attributes, t: TextKey, value: string): Attributes
  {
    match t
    case SfxLayerMode => a.(sfxLayerMode := value)
    case Name => a.(name := value)
    case Patchs => a.(patchs := value)
    case Rating => a.(rating := value)
  }

  /** A numeric key's member set to `v`, converted to the member's type. */
  function SetNumber(a: Attributes, n: NumberKey, v: int): Attributes
  {
    match n
    case Width => a.(width := ToUint16(v))
    case Height => a.(height := ToUint16(v))
    case Revision => a.(revision := Wrap32(v))
    case Encoded => a.(encoded := ToBool(v))
    case Patcht => a.(patcht := ToBool(v))
    case SfxOpacity => a.(sfxOpacity := ToUint8(v))
    case NoLoad => a.(noLoad := ToBool(v))
    case AllowJS => a.(allowJS := ToBool(v))
    case AllowLF => a.(allowLF := ToBool(v))
    case AllowFURL => a.(allowFURL := ToBool(v))
    case AllowShouts => a.(allowShouts := ToBool(v))
    case AllowLarge => a.(allowLarge := ToBool(v))
    case SwearFilter => a.(swearFilter := ToUint8(v))
    case NoWho => a.(noWho := ToBool(v))
    case ForceSittable => a.(forceSittable := ToBool(v))
    case NoTab => a.(noTab := ToBool(v))
    case NoNovelty => a.(noNovelty := ToBool(v))
    case Allow32BitArt => a.(allow32BitArt := ToBool(v))
    case IsModern => a.(isModern := ToBool(v))
    case ParentalControls => a.(parentalControls := ToBool(v))
  }

  /** One header line's effect on the attributes: a known key sets its member. */
  function ApplyKey(a: Attributes, key: string, value: string): (r: Result<Attributes, DreamError>)
  {
    match ParseKey(key)
    case None => Ok(a)
    case Some(Text(t)) => Ok(SetText(a, t, value))
    case Some(Number(n)) =>
      var v :- StoI(value);
      Ok(SetNumber(a, n, v))
  }

  /** Text keys never fail, unknown keys change nothing, and numeric keys fail exactly when `std::stoi` does. */
  lemma ApplyKeyOutcome(a: Attributes, key: string, value: string)
    ensures ParseKey(key).None? ==> ApplyKey(a, key, value) == Ok(a)
    ensures ParseKey(key).Some? && ParseKey(key).value.Text? ==> ApplyKey(a, key, value).Ok?
    ensures ParseKey(key).Some? && ParseKey(key).value.Number? ==>
              (ApplyKey(a, key, value).Err? <==> StoI(value).Err?) &&
              (StoI(value).Err? ==> ApplyKey(a, key, value) == Err(StoI(value).error))
  {
  }

  /** A numeric key changes its own member and no dimension unless it is `width` or `height`. */
  lemma SetNumberSize(a: Attributes, n: NumberKey, v: int)
    ensures SetNumber(a, n, v).width == if n == Width then ToUint16(v) else a.width
    ensures SetNumber(a, n, v).height == if n == Height then ToUint16(v) else a.height
  {
    match n
    case Width =>
    case Height =>
    case _ =>
  }

  /** A text key leaves the dimensions alone. */
  lemma SetTextKeepsSize(a: Attributes, t: TextKey, value: string)
    ensures SetText(a, t, value).width == a.width && SetText(a, t, value).height == a.height
  {
    match t
    case SfxLayerMode =>
    case _ =>
  }

  /** Only the `width` and `height` keys change the map's dimensions. */
  lemma ApplyKeyKeepsSize(a: Attributes, key: string, value: string)
    requires key != "width" && key != "height"
    requires ApplyKey(a, key, value).Ok?
    ensures ApplyKey(a, key, value).value.width == a.width
    ensures ApplyKey(a, key, value).value.height == a.height
  {
    match ParseKey(key)
    case None =>
    case Some(Text(t)) =>
      assert ApplyKey(a, key, value) == Ok(SetText(a, t, value));
      SetTextKeepsSize(a, t, value);
    case Some(Number(n)) =>
      assert n != Width && n != Height by { assert NumberKeyName(n) == key; }
      assert ApplyKey(a, key, value) == Ok(SetNumber(a, n, StoI(value).value));
      SetNumberSize(a, n, StoI(value).value);
  }

  /** A `width=<n>` line splits into the key `width` and the number's text. */
  lemma WidthSplit(n: int)
    ensures SplitKey("width=" + Signed(n)) == ("width", Signed(n))
  {
    assert forall k :: 0 <= k < |Signed(n)| ==> Signed(n)[k] != '=';
    SplitKeyValue("width", Signed(n));
    assert "width" + "=" + Signed(n) == "width=" + Signed(n);
  }

  /** A `width=<n>` line sets the width to `n` modulo 2^16; other attributes stay as they were. */
  lemma WidthLine(a: Attributes, n: int)
    requires INT_MIN <= n <= INT_MAX
    ensures SplitKey("width=" + Signed(n)) == ("width", Signed(n))
    ensures ApplyKey(a, "width", Signed(n)) == Ok(a.(width := n % TWO_16))
  {
    WidthSplit(n);
    assert StoI(Signed(n)) == Ok(n) by {
      StoISigned(n, "");
      assert Signed(n) + "" == Signed(n);
    }
    ParseKeyName(Number(Width));
  }

  // ---------------------------------------------------------------------------
  // The header loop
  // ---------------------------------------------------------------------------

  /** The attributes after the header, and the stream just after its `BODY` line. */
  datatype Header = Header(attrs: Attributes, after: Stream)

  /** One header line: `BODY` ends the header, any other line is applied as `key=value`. */
  datatype HeaderTurn = Body(after: Stream) | Next(attrs: Attributes, after: Stream)

  function HeaderStep(d: string, s: Stream, a: Attributes): (r: Result<HeaderTurn, DreamError>)
    requires s.pos <= |d|
    ensures r.Ok? ==> s.pos <= r.value.after.pos <= |d|
  {
    var line := GetLine(d, s, LINE_LIMIT);
    var text := CStr(line.text);
    if text == "BODY" then Ok(Body(line.after))
    else
      var (key, value) := SplitKey(text);
      var a' :- ApplyKey(a, Lowercase(key), value);
      Ok(Next(a', line.after))
  }

  /** The header loop: at most 32 lines, then "Map has no body!". */
  function HeaderLoop(d: string, s: Stream, a: Attributes, i: nat): (r: Result<Header, DreamError>)
    requires s.pos <= |d| && i <= MAX_HEADER_LINES
    ensures r.Ok? ==> s.pos <= r.value.after.pos <= |d|
    decreases MAX_HEADER_LINES - i
  {
    if i == MAX_HEADER_LINES then Err(NoBody)
    else
      var turn :- HeaderStep(d, s, a);
      match turn
      case Body(after) => Ok(Header(a, after))
      case Next(a', after) => HeaderLoop(d, after, a', i + 1)
  }

  /** A `BODY` line ends the header at once and keeps the attributes. */
  lemma BodyEndsHeader(d: string, p: nat, a: Attributes, i: nat)
    requires p + 4 < |d| && d[p..p + 5] == "BODY\n" && i < MAX_HEADER_LINES
    ensures HeaderLoop(d, Stream(p, false), a, i) == Ok(Header(a, Stream(p + 5, false)))
  {
    BodyStep(d, p, a);
  }

  lemma BodyStep(d: string, p: nat, a: Attributes)
    requires p + 4 < |d| && d[p..p + 5] == "BODY\n"
    ensures HeaderStep(d, Stream(p, false), a) == Ok(Body(Stream(p + 5, false)))
  {
    assert d[p..p + 4] == "BODY" && d[p + 4] == '\n' by {
      assert d[p..p + 4] == d[p..p + 5][..4];
      assert d[p + 4] == d[p..p + 5][4];
    }
    assert forall j :: p <= j < p + 4 ==> d[j] != '\n' by {
      assert forall j :: p <= j < p + 4 ==> d[j] == d[p..p + 4][j - p];
    }
    LineRead(d, p, LINE_LIMIT, 4);
    CStrWhole("BODY");
  }

  /** On a stopped stream a header line is empty, and the empty key changes nothing. */
  lemma StoppedStep(d: string, s: Stream, a: Attributes)
    requires s.pos <= |d| && s.bad
    ensures HeaderStep(d, s, a) == Ok(Next(a, s))
  {
    assert GetLine(d, s, LINE_LIMIT) == Line("", s);
    assert CStr("") == "" && "" != "BODY";
    assert SplitKey("") == ("", "");
    assert ApplyKey(a, Lowercase(""), "") == Ok(a) by {
      assert Lowercase("") == "";
      FindKeyNone("", KEY_ORDER);
    }
  }

  /** On a stopped stream a header line passes without effect. */
  lemma StoppedTurn(d: string, s: Stream, a: Attributes, i: nat)
    requires s.pos <= |d| && s.bad && i < MAX_HEADER_LINES
    ensures HeaderLoop(d, s, a, i) == HeaderLoop(d, s, a, i + 1)
  {
    StoppedStep(d, s, a);
  }

  /** Once the stream has stopped, every line is empty and no `BODY` can follow. */
  lemma {:induction false} StoppedStreamHasNoBody(d: string, s: Stream, a: Attributes, i: nat)
    requires s.pos <= |d| && s.bad && i <= MAX_HEADER_LINES
    ensures HeaderLoop(d, s, a, i) == Err(NoBody)
    decreases MAX_HEADER_LINES - i, 1
  {
    if i < MAX_HEADER_LINES {
      StoppedLinesLeft(d, s, a, i);
    }
  }

  lemma {:induction false} StoppedLinesLeft(d: string, s: Stream, a: Attributes, i: nat)
    requires s.pos <= |d| && s.bad && i < MAX_HEADER_LINES
    ensures HeaderLoop(d, s, a, i) == Err(NoBody)
    decreases MAX_HEADER_LINES - i, 0
  {
    StoppedTurn(d, s, a, i);
    StoppedStreamHasNoBody(d, s, a, i + 1);
  }

  // ---------------------------------------------------------------------------
  // Tile planes
  // ---------------------------------------------------------------------------

  /** One map cell, `DreamTile_t`. */
  datatype Tile = Tile(floor: uint16, obj: uint16, neWall: uint8, nwWall: uint8,
                       region: uint16, effect: uint16, lighting: uint16, ambient: uint16)

  const BLANK: Tile := Tile(0, 0, 0, 0, 0, 0, 0, 0)

  /** The sections of the map body, in file order. */
  datatype Plane = Floors | Objects | Walls | Regions | Effects | Lighting | Ambient

  predicate HasRegions(major: uint8, minor: uint8) { major >= 1 && minor >= 30 }
  predicate HasLighting(major: uint8, minor: uint8) { major >= 1 && minor >= 50 }

  /** `nChannels`: the number of planes the constructor reserves bytes for. */
  function PlaneCount(major: uint8, minor: uint8): nat
  {
    3 + (if HasRegions(major, minor) then 2 else 0) + (if HasLighting(major, minor) then 2 else 0)
  }

  /** The planes the constructor reads, in order. */
  function PlanesOf(major: uint8, minor: uint8): (r: seq<Plane>)
    ensures |r| == PlaneCount(major, minor)
  {
    [Floors, Objects, Walls] + (if HasRegions(major, minor) then [Regions, Effects] else []) +
    (if HasLighting(major, minor) then [Lighting, Ambient] else [])
  }

  /**
   * The reserved byte count matches the planes: there are exactly as many
   * planes as `nChannels`, and no plane is read twice. The version test
   * looks at the minor number only, so 2.10 has three planes.
   */
  lemma PlaneCountMatches(major: uint8, minor: uint8)
    ensures |PlanesOf(major, minor)| == PlaneCount(major, minor)
    ensures forall i, j :: 0 <= i < j < |PlanesOf(major, minor)| ==> PlanesOf(major, minor)[i] != PlanesOf(major, minor)[j]
    ensures PlaneCount(1, 50) == 7 && PlaneCount(1, 30) == 5 && PlaneCount(1, 29) == 3
    ensures PlaneCount(2, 10) == 3 && PlaneCount(0, 99) == 3
  {
  }

  /**
   * `expectedBytes`: the product of `int`s, stored into a `uint32_t`.
   * The model wraps it modulo 2^32.
   */
  function ExpectedBytes(major: uint8, minor: uint8, width: uint16, height: uint16): uint32
  {
    Wrap32(width * height * 2 * PlaneCount(major, minor))
  }

  /** `tmp[2i] | tmp[2i + 1] << 8`: the little-endian 16-bit value of tile `i`. */
  function Le16(tmp: bytes, i: nat): uint16
    requires 2 * i + 1 < |tmp|
  {
    tmp[2 * i] as int + tmp[2 * i + 1] as int * 0x100
  }

  /** The two bytes whose little-endian reading is `v`. */
  function EncodeLe16(v: uint16): (r: bytes)
    ensures |r| == 2 && Le16(r, 0) == v
  {
    [v % 0x100, v / 0x100]
  }

  /** The bytes of a plane that holds the 16-bit values `vs`. */
  function EncodePlane(vs: seq<uint16>): (r: bytes)
    ensures |r| == 2 * |vs|
    ensures forall i :: 0 <= i < |vs| ==> r[2 * i] == vs[i] % 0x100 && r[2 * i + 1] == vs[i] / 0x100
  {
    if |vs| == 0 then [] else EncodePlane(vs[..|vs| - 1]) + EncodeLe16(vs[|vs| - 1])
  }

  /** Decoding an encoded plane gives its values back. */
  lemma PlaneRoundTrip(vs: seq<uint16>)
    ensures forall i :: 0 <= i < |vs| ==> Le16(EncodePlane(vs), i) == vs[i]
  {
  }

  /**
   * Whether a plane's bytes reach the tiles. Without the cipher library,
   * floors, objects and lighting are copied. Walls, regions, effects and
   * ambient are copied only under `if (mEncoded)`. An encoded map has
   * already been rejected by then, so those four stay zero.
   */
  predicate CopiesPlane(plane: Plane, encoded: bool)
  {
    plane == Floors || plane == Objects || plane == Lighting || encoded
  }

  /** The plane's source buffer: its bytes, or the zero-filled vector the code leaves unchanged. */
  function PlaneSource(plane: Plane, encoded: bool, tmp: bytes): (r: bytes)
    ensures |r| == |tmp|
  {
    if CopiesPlane(plane, encoded) then tmp else Zeros(|tmp|)
  }

  /** The tile with the 16-bit field of `plane` set to `v`; the wall plane has two 8-bit fields instead. */
  function SetValue(t: Tile, plane: Plane, v: uint16): Tile
    requires plane != Walls
  {
    match plane
    case Floors => t.(floor := v)
    case Objects => t.(obj := v)
    case Walls => t
    case Regions => t.(region := v)
    case Effects => t.(effect := v)
    case Lighting => t.(lighting := v)
    case Ambient => t.(ambient := v)
  }

  /** Tile `i` with its `plane` field set from the source buffer. */
  function SetPlane(t: Tile, plane: Plane, src: bytes, i: nat): Tile
    requires 2 * i + 1 < |src|
  {
    if plane == Walls then t.(neWall := src[2 * i], nwWall := src[2 * i + 1])
    else SetValue(t, plane, Le16(src, i))
  }

  /** Every tile with its `plane` field set from `src`, two bytes per tile. */
  function WithPlane(tiles: seq<Tile>, plane: Plane, src: bytes): (r: seq<Tile>)
    requires |src| == 2 * |tiles|
    ensures |r| == |tiles|
  {
    seq(|tiles|, i requires 0 <= i < |tiles| => SetPlane(tiles[i], plane, src, i))
  }

  /** One plane block: the bounds check, then the tiles updated, then the offset advanced. */
  function PlaneStep(tiles: seq<Tile>, plane: Plane, encoded: bool, data: bytes, offset: nat)
    : (r: Result<(seq<Tile>, nat), DreamError>)
    ensures r.Err? <==> offset + 2 * |tiles| > |data|
    ensures r.Err? ==> r.error == NotEnoughData(plane)
    ensures r.Ok? ==> |r.value.0| == |tiles| && r.value.1 == offset + 2 * |tiles|
  {
    var size := 2 * |tiles|;
    if offset + size > |data| then Err(NotEnoughData(plane))
    else Ok((WithPlane(tiles, plane, PlaneSource(plane, encoded, data[offset..offset + size])), offset + size))
  }

  /** The plane blocks in order, each starting where the previous one ended. */
  function ReadPlanes(planes: seq<Plane>, encoded: bool, data: bytes, offset: nat, tiles: seq<Tile>)
    : (r: Result<seq<Tile>, DreamError>)
    decreases |planes|
  {
    if |planes| == 0 then Ok(tiles)
    else
      match PlaneStep(tiles, planes[0], encoded, data, offset)
      case Err(e) => Err(e)
      case Ok(step) => ReadPlanes(planes[1..], encoded, data, step.1, step.0)
  }

  /** The 16-bit value of tile `i` in the plane that starts at byte `offset`. */
  function Le16At(data: bytes, offset: nat, i: nat): uint16
    requires offset + 2 * i + 1 < |data|
  {
    data[offset + 2 * i] as int + data[offset + 2 * i + 1] as int * 0x100
  }

  /**
   * Tile `i` of an unencoded map of `n` tiles. Floor and object come from
   * the first two planes, and lighting from the sixth plane when the
   * version has one. The walls, regions, effects and ambient stay zero.
   */
  function UnencodedTile(major: uint8, minor: uint8, n: nat, data: bytes, i: nat): Tile
    requires i < n && |data| == 2 * n * PlaneCount(major, minor)
  {
    Tile(Le16At(data, 0, i), Le16At(data, 2 * n, i), 0, 0, 0, 0,
         if HasLighting(major, minor) then Le16At(data, 10 * n, i) else 0, 0)
  }

  // ---------------------------------------------------------------------------
  // The whole constructor
  // ---------------------------------------------------------------------------

  /** What a constructed `Dream` holds. */
  datatype DreamState = DreamState(versionMajor: uint8, versionMinor: uint8, attrs: Attributes, tiles: seq<Tile>)

  /** `mFile.read(data, expectedBytes)`: it fails on a stopped stream or with too few bytes left. */
  function ReadBody(file: bytes, s: Stream, count: nat): (r: Result<bytes, DreamError>)
    requires s.pos <= |file|
    ensures r.Ok? <==> !s.bad && s.pos + count <= |file|
    ensures r.Ok? ==> r.value == file[s.pos..s.pos + count]
  {
    if s.bad || s.pos + count > |file| then Err(ReadFailed) else Ok(file[s.pos..s.pos + count])
  }

  /**
   * The scanned version: the two numbers as `sscanf` wrote them, and the
   * stream after the magic line. `%d` writes a whole 32-bit `int` through
   * each `uint8_t*`; on the little-endian 3DS each field keeps the low
   * byte of its number, and the other bytes land on the fields after it.
   */
  datatype Version = Version(major: uint8, minor: uint8, minorWord: uint32, after: Stream)

  /**
   * The fields `sscanf` overwrites past `mVersionMinor`. dreamfile.h:35-39
   * lays out the major and minor bytes and then the 16-bit width and
   * height. The write of the major number covers the minor byte and the
   * width; the write of the minor number that follows covers the width
   * and the low byte of the height. So the width is bytes 1 and 2 of the
   * minor number, the height's low byte is its byte 3, and nothing else
   * changes.
   */
  function Overwritten(a: Attributes, minorWord: uint32): (r: Attributes)
    ensures r.(width := a.width, height := a.height) == a
  {
    a.(width := (minorWord / 0x100) % TWO_16, height := a.height - a.height % 0x100 + minorWord / 0x100_0000)
  }

  /** Naming the defaults before or after the overwrite is the same. */
  lemma NamedOverwritten(name: string, minorWord: uint32)
    ensures Overwritten(Defaults("").(name := name), minorWord) == Overwritten(Defaults(name), minorWord)
  {
  }

  /**
   * The overwrite puts the minor number's four bytes in place: its low
   * byte is the minor version, the next two the width and the top one the
   * height's low byte, whose high byte is untouched. For a minor version
   * below 256, as every real map has, a 52 x 100 default becomes 0 x 0.
   */
  lemma OverwrittenBytes(a: Attributes, minorWord: uint32)
    ensures var r := Overwritten(a, minorWord);
            r.height / 0x100 == a.height / 0x100 &&
            minorWord % 0x100 + 0x100 * r.width + 0x100_0000 * (r.height % 0x100) == minorWord
    ensures minorWord < 0x100 ==> Overwritten(a, minorWord).width == 0 &&
                                  Overwritten(a, minorWord).height == a.height - a.height % 0x100
    ensures minorWord < 0x100 && a == Defaults(a.name) ==>
              Overwritten(a, minorWord).width == 0 && Overwritten(a, minorWord).height == 0
  {
  }

  /** The `uint8_t` that `%d` names is the low byte of the 32-bit `int` it writes. */
  lemma LowByteOfWord(v: int)
    ensures Wrap32(v) % 0x100 == ToUint8(v)
  {
    var q := v / TWO_32;
    assert v == q * TWO_32 + Wrap32(v);
    assert q * TWO_32 == (q * 0x100_0000) * 0x100;
  }

  /** The size check and the magic line. */
  function ReadMagic(file: bytes): (r: Result<Version, DreamError>)
    ensures |file| < MIN_SIZE <==> r == Err(TooSmallForDream)
    ensures r.Ok? ==> r.value.after.pos <= |file| && r.value.minorWord % 0x100 == r.value.minor
  {
    if |file| < MIN_SIZE then Err(TooSmallForDream)
    else
      var magic := GetLine(AsChars(file), Stream(0, false), MAGIC_LIMIT);
      match ScanVersion(CStr(magic.text))
      case None => Err(NotAMap)
      case Some(v) =>
        LowByteOfWord(v.1);
        Ok(Version(ToUint8(v.0), ToUint8(v.1), Wrap32(v.1), magic.after))
  }

  /** The body of the constructor after the header: the read, the cipher test and the planes. */
  function ReadTiles(major: uint8, minor: uint8, a: Attributes, s: Stream, file: bytes)
    : (r: Result<seq<Tile>, DreamError>)
    requires s.pos <= |file|
  {
    var data :- ReadBody(file, s, ExpectedBytes(major, minor, a.width, a.height));
    if a.encoded then Err(EncodedMap)
    else ReadPlanes(PlanesOf(major, minor), a.encoded, data, 0, seq(a.width * a.height, _ => BLANK))
  }

  /** `Dream::Dream(filename)` on the bytes of the file. */
  function LoadDream(path: string, file: bytes): (r: Result<DreamState, DreamError>)
  {
    LoadNamed(Lowercase(GetBasename(path)), file)
  }

  /** The constructor once the lower-cased file name is known: the magic line, then the rest. */
  function LoadNamed(name: string, file: bytes): (r: Result<DreamState, DreamError>)
  {
    var v :- ReadMagic(file);
    LoadAfterMagic(v, Overwritten(Defaults(name), v.minorWord), file)
  }

  /** The constructor after the magic line: the header from attributes `a`, then the tiles. */
  function LoadAfterMagic(v: Version, a: Attributes, file: bytes): (r: Result<DreamState, DreamError>)
    requires v.after.pos <= |file|
  {
    var h :- HeaderLoop(AsChars(file), v.after, a, 0);
    var tiles :- ReadTiles(v.major, v.minor, h.attrs, h.after, file);
    Ok(DreamState(v.major, v.minor, h.attrs, tiles))
  }

  // ---------------------------------------------------------------------------
  // What the planes put in the tiles
  // ---------------------------------------------------------------------------

  /**
   * Tile `i` after one plane block at `offset`: the block's two bytes for
   * the tile when the plane is copied, zeros otherwise. (Only blocks that
   * lie within `data` are ever applied; past its end the bytes read as zero.)
   */
  function TileWith(t: Tile, p: Plane, e: bool, data: bytes, offset: nat, i: nat): Tile
  {
    var copied := CopiesPlane(p, e) && offset + 2 * i + 1 < |data|;
    var lo: uint8 := if copied then data[offset + 2 * i] else 0;
    var hi: uint8 := if copied then data[offset + 2 * i + 1] else 0;
    if p == Walls then t.(neWall := lo, nwWall := hi)
    else SetValue(t, p, lo as int + hi as int * 0x100)
  }

  /** The bytes that `k` plane blocks of `n` tiles take, counted block by block. */
  function Span(n: nat, k: nat): nat
  {
    if k == 0 then 0 else 2 * n + Span(n, k - 1)
  }

  lemma {:induction false} SpanIs(n: nat, k: nat)
    ensures Span(n, k) == 2 * n * k
  {
    if k > 0 {
      SpanIs(n, k - 1);
      assert 2 * n * k == 2 * n + 2 * n * (k - 1);
    }
  }

  /** Tile `i` of `n` after the plane blocks `planes`, the first at `offset`. */
  function TileAfter(planes: seq<Plane>, t: Tile, e: bool, data: bytes, offset: nat, n: nat, i: nat): Tile
    decreases |planes|
  {
    if |planes| == 0 then t
    else TileAfter(planes[1..], TileWith(t, planes[0], e, data, offset, i), e, data, offset + 2 * n, n, i)
  }

  /** One plane block changes each tile as `TileWith` says. */
  lemma PlaneAt(tiles: seq<Tile>, p: Plane, e: bool, data: bytes, offset: nat, i: nat)
    requires offset + 2 * |tiles| <= |data| && i < |tiles|
    ensures WithPlane(tiles, p, PlaneSource(p, e, data[offset..offset + 2 * |tiles|]))[i] ==
            TileWith(tiles[i], p, e, data, offset, i)
  {
    var src := PlaneSource(p, e, data[offset..offset + 2 * |tiles|]);
    assert src[2 * i] == (if CopiesPlane(p, e) then data[offset + 2 * i] else 0);
    assert src[2 * i + 1] == (if CopiesPlane(p, e) then data[offset + 2 * i + 1] else 0);
    match p
    case Floors =>
    case Objects =>
    case Walls =>
    case Regions =>
    case Effects =>
    case Lighting =>
    case Ambient =>
  }

  /** With the bytes of every block present, the planes succeed, and each tile is `TileAfter`. */
  lemma {:induction false} PlanesPerTile(planes: seq<Plane>, e: bool, data: bytes, offset: nat, tiles: seq<Tile>)
    requires offset + Span(|tiles|, |planes|) <= |data|
    ensures ReadPlanes(planes, e, data, offset, tiles).Ok?
    ensures var r := ReadPlanes(planes, e, data, offset, tiles).value;
            |r| == |tiles| &&
            forall i :: 0 <= i < |tiles| ==> r[i] == TileAfter(planes, tiles[i], e, data, offset, |tiles|, i)
    decreases |planes|
  {
    if |planes| > 0 {
      var n := |tiles|;
      var next := WithPlane(tiles, planes[0], PlaneSource(planes[0], e, data[offset..offset + 2 * n]));
      assert PlaneStep(tiles, planes[0], e, data, offset) == Ok((next, offset + 2 * n));
      PlanesPerTile(planes[1..], e, data, offset + 2 * n, next);
      forall i | 0 <= i < n
        ensures next[i] == TileWith(tiles[i], planes[0], e, data, offset, i)
      {
        PlaneAt(tiles, planes[0], e, data, offset, i);
      }
    }
  }

  /** The first plane block of a list, taken off the front. */
  lemma TileAfterCons(p: Plane, rest: seq<Plane>, t: Tile, data: bytes, offset: nat, n: nat, i: nat)
    ensures TileAfter([p] + rest, t, false, data, offset, n, i) ==
            TileAfter(rest, TileWith(t, p, false, data, offset, i), false, data, offset + 2 * n, n, i)
  {
    assert ([p] + rest)[0] == p && ([p] + rest)[1..] == rest;
  }

  /** Floors, objects and walls over a blank tile: floor and object set, the walls zero. */
  lemma BaseTile(rest: seq<Plane>, data: bytes, n: nat, i: nat)
    requires i < n && 4 * n <= |data|
    ensures TileAfter([Floors, Objects, Walls] + rest, BLANK, false, data, 0, n, i) ==
            TileAfter(rest, Tile(Le16At(data, 0, i), Le16At(data, 2 * n, i), 0, 0, 0, 0, 0, 0), false, data, 6 * n, n, i)
  {
    var t1 := TileWith(BLANK, Floors, false, data, 0, i);
    var t2 := TileWith(t1, Objects, false, data, 2 * n, i);
    assert [Floors, Objects, Walls] + rest == [Floors] + ([Objects] + ([Walls] + rest));
    TileAfterCons(Floors, [Objects] + ([Walls] + rest), BLANK, data, 0, n, i);
    TileAfterCons(Objects, [Walls] + rest, t1, data, 2 * n, n, i);
    TileAfterCons(Walls, rest, t2, data, 4 * n, n, i);
  }

  /** The region and effect planes of an unencoded map leave a tile's zero region and effect. */
  lemma RegionTile(rest: seq<Plane>, t: Tile, data: bytes, offset: nat, n: nat, i: nat)
    requires t.region == 0 && t.effect == 0
    ensures TileAfter([Regions, Effects] + rest, t, false, data, offset, n, i) ==
            TileAfter(rest, t, false, data, offset + 4 * n, n, i)
  {
    var t1 := TileWith(t, Regions, false, data, offset, i);
    assert [Regions, Effects] + rest == [Regions] + ([Effects] + rest);
    TileAfterCons(Regions, [Effects] + rest, t, data, offset, n, i);
    TileAfterCons(Effects, rest, t1, data, offset + 2 * n, n, i);
  }

  /** The lighting plane sets a tile's lighting, and the ambient plane keeps its zero ambient. */
  lemma LightingTile(t: Tile, data: bytes, offset: nat, n: nat, i: nat)
    requires offset + 4 * n <= |data| && i < n && t.ambient == 0
    ensures TileAfter([Lighting, Ambient], t, false, data, offset, n, i) ==
            t.(lighting := Le16At(data, offset, i))
  {
    var t1 := TileWith(t, Lighting, false, data, offset, i);
    assert [Lighting, Ambient] == [Lighting] + [Ambient];
    TileAfterCons(Lighting, [Ambient], t, data, offset, n, i);
    assert [Ambient] == [Ambient] + [];
    TileAfterCons(Ambient, [], t1, data, offset + 2 * n, n, i);
  }

  /** Each blank tile, after the plane blocks of its version, is `UnencodedTile`. */
  lemma DecodedTile(major: uint8, minor: uint8, n: nat, data: bytes, i: nat)
    requires i < n && |data| == 2 * n * PlaneCount(major, minor)
    ensures TileAfter(PlanesOf(major, minor), BLANK, false, data, 0, n, i) == UnencodedTile(major, minor, n, data, i)
  {
    var base := Tile(Le16At(data, 0, i), Le16At(data, 2 * n, i), 0, 0, 0, 0, 0, 0);
    if !HasRegions(major, minor) {
      assert PlanesOf(major, minor) == [Floors, Objects, Walls] + [];
      BaseTile([], data, n, i);
    } else if !HasLighting(major, minor) {
      assert PlanesOf(major, minor) == [Floors, Objects, Walls] + [Regions, Effects];
      BaseTile([Regions, Effects], data, n, i);
      assert [Regions, Effects] == [Regions, Effects] + [];
      RegionTile([], base, data, 6 * n, n, i);
    } else {
      assert PlanesOf(major, minor) == [Floors, Objects, Walls] + ([Regions, Effects] + [Lighting, Ambient]);
      BaseTile([Regions, Effects] + [Lighting, Ambient], data, n, i);
      RegionTile([Lighting, Ambient], base, data, 6 * n, n, i);
      LightingTile(base, data, 10 * n, n, i);
    }
  }

  /**
   * With all the bytes present, an unencoded map decodes plane by plane:
   * each tile is `UnencodedTile`, whatever the version.
   */
  lemma BodyDecoded(major: uint8, minor: uint8, n: nat, data: bytes)
    requires |data| == 2 * n * PlaneCount(major, minor)
    ensures ReadPlanes(PlanesOf(major, minor), false, data, 0, seq(n, _ => BLANK)) ==
            Ok(seq(n, i requires 0 <= i < n => UnencodedTile(major, minor, n, data, i)))
  {
    var blank: seq<Tile> := seq(n, _ => BLANK);
    SpanIs(n, PlaneCount(major, minor));
    PlanesPerTile(PlanesOf(major, minor), false, data, 0, blank);
    var r := ReadPlanes(PlanesOf(major, minor), false, data, 0, blank).value;
    var want := seq(n, i requires 0 <= i < n => UnencodedTile(major, minor, n, data, i));
    forall i | 0 <= i < n
      ensures r[i] == want[i]
    {
      DecodedTile(major, minor, n, data, i);
    }
    assert r == want;
  }

  /**
   * When `expectedBytes` wraps below one plane's size, the read succeeds
   * with too few bytes, and the floor plane is the first to notice.
   */
  lemma WrappedSizeRejectsFloors(major: uint8, minor: uint8, n: nat, data: bytes)
    requires |data| < 2 * n
    ensures ReadPlanes(PlanesOf(major, minor), false, data, 0, seq(n, _ => BLANK)) == Err(NotEnoughData(Floors))
  {
  }

  /** A 65535 x 65535 map of version 1.50 reserves fewer bytes than its floor plane alone. */
  lemma LargestMapWraps()
    ensures ExpectedBytes(1, 50, 65535, 65535) == 4293132302 < 2 * 65535 * 65535
  {
  }

  /** The tile at column `x` and row `y`, stored column by column. */
  function TileIndex(height: nat, x: nat, y: nat): nat
  {
    height * x + y
  }

  /** Every coordinate inside the map names a tile that exists. */
  lemma TileIndexInRange(width: nat, height: nat, x: nat, y: nat)
    requires x < width && y < height
    ensures TileIndex(height, x, y) < width * height
  {
    assert height * x + y < height * (x + 1);
    MulMonotoneLeft(height, x + 1, width);
  }

  lemma {:induction false} MulMonotoneLeft(h: nat, a: nat, b: nat)
    requires a <= b
    ensures h * a <= h * b
    decreases b - a
  {
    if a < b {
      MulMonotoneLeft(h, a + 1, b);
      assert h * (a + 1) == h * a + h;
    }
  }

  /** Different coordinates inside the map name different tiles. */
  lemma TileIndexInjective(height: nat, x1: nat, y1: nat, x2: nat, y2: nat)
    requires y1 < height && y2 < height
    requires TileIndex(height, x1, y1) == TileIndex(height, x2, y2)
    ensures x1 == x2 && y1 == y2
  {
    if x1 < x2 {
      MulMonotoneLeft(height, x1 + 1, x2);
    } else if x2 < x1 {
      MulMonotoneLeft(height, x2 + 1, x1);
    }
  }

  /** A column holds consecutive tiles, and the next column starts after the last row. */
  lemma TileIndexColumns(height: nat, x: nat, y: nat)
    requires y + 1 < height
    ensures TileIndex(height, x, y + 1) == TileIndex(height, x, y) + 1
    ensures TileIndex(height, x + 1, 0) == TileIndex(height, x, height - 1) + 1
  {
  }

  /**
   * What the constructor keeps after the header: with the size product
   * below 2^32, the read succeeds exactly when the stream is good, the file
   * still holds the whole body and the map is not encoded, and then every
   * tile is `UnencodedTile` of the body bytes.
   */
  lemma TilesDecoded(major: uint8, minor: uint8, a: Attributes, s: Stream, file: bytes)
    requires s.pos <= |file|
    requires ExpectedBytes(major, minor, a.width, a.height) == 2 * (a.width * a.height) * PlaneCount(major, minor)
    ensures var n := a.width * a.height;
            var size := ExpectedBytes(major, minor, a.width, a.height);
            (ReadTiles(major, minor, a, s, file).Ok? <==> !s.bad && s.pos + size <= |file| && !a.encoded) &&
            (ReadTiles(major, minor, a, s, file).Ok? ==>
               ReadTiles(major, minor, a, s, file).value ==
               seq(n, i requires 0 <= i < n => UnencodedTile(major, minor, n, file[s.pos..s.pos + size], i)))
  {
    var n := a.width * a.height;
    var size := ExpectedBytes(major, minor, a.width, a.height);
    if !s.bad && s.pos + size <= |file| && !a.encoded {
      var data := file[s.pos..s.pos + size];
      assert ReadBody(file, s, size) == Ok(data);
      BodyDecoded(major, minor, n, data);
    }
  }

  /** The plane blocks never change how many tiles there are. */
  lemma {:induction false} ReadPlanesLength(planes: seq<Plane>, encoded: bool, data: bytes, offset: nat, tiles: seq<Tile>)
    ensures ReadPlanes(planes, encoded, data, offset, tiles).Ok? ==>
              |ReadPlanes(planes, encoded, data, offset, tiles).value| == |tiles|
    decreases |planes|
  {
    if |planes| > 0 {
      match PlaneStep(tiles, planes[0], encoded, data, offset)
      case Err(_) =>
      case Ok(step) => ReadPlanesLength(planes[1..], encoded, data, step.1, step.0);
    }
  }

  /** The tiles read after the header are one per column and row of the header's size. */
  lemma ReadTilesCount(major: uint8, minor: uint8, a: Attributes, s: Stream, file: bytes)
    requires s.pos <= |file|
    ensures ReadTiles(major, minor, a, s, file).Ok? ==> |ReadTiles(major, minor, a, s, file).value| == a.width * a.height
  {
    var data := ReadBody(file, s, ExpectedBytes(major, minor, a.width, a.height));
    if data.Ok? && !a.encoded {
      ReadPlanesLength(PlanesOf(major, minor), a.encoded, data.value, 0, seq(a.width * a.height, _ => BLANK));
    }
  }

  /** A map that loads has one tile per column and row of its header's size, which `get` relies on. */
  lemma LoadedTileCount(v: Version, a: Attributes, file: bytes)
    requires v.after.pos <= |file|
    ensures LoadAfterMagic(v, a, file).Ok? ==>
              |LoadAfterMagic(v, a, file).value.tiles| ==
              LoadAfterMagic(v, a, file).value.attrs.width * LoadAfterMagic(v, a, file).value.attrs.height
  {
    var h := HeaderLoop(AsChars(file), v.after, a, 0);
    if h.Ok? {
      ReadTilesCount(v.major, v.minor, h.value.attrs, h.value.after, file);
    }
  }

  // ---------------------------------------------------------------------------
  // The Dream object
  // ---------------------------------------------------------------------------

  /** The wall block as the reader leaves it: copied byte for byte when encoded, zero-filled otherwise. */
  method ReadWalls(tmp: bytes, encoded: bool) returns (walls: bytes)
    ensures walls == PlaneSource(Walls, encoded, tmp)
  {
    walls := Zeros(|tmp|);
    if encoded {
      var i := 0;
      while i < |tmp|
        invariant i <= |tmp| == |walls|
        invariant forall k :: 0 <= k < i ==> walls[k] == tmp[k]
        invariant forall k :: i <= k < |tmp| ==> walls[k] == 0
      {
        walls := walls[i := tmp[i]];
        i := i + 1;
      }
    }
  }

  /** A 16-bit block decoded little-endian when the plane is read, all zeros otherwise. */
  method ReadValues(plane: Plane, encoded: bool, tmp: bytes) returns (values: seq<uint16>)
    requires |tmp| % 2 == 0
    ensures |values| == |tmp| / 2
    ensures forall k :: 0 <= k < |values| ==> values[k] == Le16(PlaneSource(plane, encoded, tmp), k)
  {
    var n := |tmp| / 2;
    values := seq(n, _ => 0);
    if CopiesPlane(plane, encoded) {
      var i := 0;
      while i < n
        invariant i <= n && |values| == n
        invariant forall k :: 0 <= k < i ==> values[k] == Le16(tmp, k)
        invariant forall k :: i <= k < n ==> values[k] == 0
      {
        values := values[i := tmp[2 * i] as int + tmp[2 * i + 1] as int * 0x100];
        i := i + 1;
      }
    }
  }

  /** A Dream map: the version, the header attributes and the tiles, column by column. */
  class Dream {
    const file: bytes

    var versionMajor: uint8
    var versionMinor: uint8
    var attrs: Attributes
    var tiles: seq<Tile>

    function State(): DreamState
      reads this
    {
      DreamState(versionMajor, versionMinor, attrs, tiles)
    }

    /** The object before its constructor body runs: the member initialisers. */
    constructor (file: bytes)
      ensures this.file == file && attrs == Defaults("") && tiles == []
    {
      this.file := file;
      versionMajor := 0;
      versionMinor := 0;
      attrs := Defaults("");
      tiles := [];
    }

    /** The constructor body: the name, the magic line, the header, then the planes. */
    method Open(path: string) returns (r: Result<(), DreamError>)
      requires attrs == Defaults("") && tiles == []
      modifies this
      ensures LoadDream(path, file) == (if r.Ok? then Ok(State()) else Err(r.error))
      ensures r.Ok? ==> |tiles| == attrs.width * attrs.height
    {
      var name := LowerInPlace(GetBasename(path));
      attrs := attrs.(name := name);
      r := ReadNamed(name);
    }

    /** The magic line over the named defaults, then the header and the tiles. */
    method ReadNamed(ghost name: string) returns (r: Result<(), DreamError>)
      requires attrs == Defaults("").(name := name) && tiles == []
      modifies this`versionMajor, this`versionMinor, this`attrs, this`tiles
      ensures LoadNamed(name, file) == (if r.Ok? then Ok(State()) else Err(r.error))
      ensures r.Ok? ==> |tiles| == attrs.width * attrs.height
    {
      var magic := ReadMagicIn();
      if magic.Err? {
        return Err(magic.error);
      }
      NamedOverwritten(name, magic.value.minorWord);
      r := ReadAfterMagic(magic.value, attrs);
    }

    /** The attributes as the magic line left them, then the header lines, then the tiles. */
    method ReadAfterMagic(v: Version, named: Attributes) returns (r: Result<(), DreamError>)
      requires v.after.pos <= |file| && v.major == versionMajor && v.minor == versionMinor && tiles == []
      modifies this`attrs, this`tiles
      ensures LoadAfterMagic(v, named, file) == (if r.Ok? then Ok(State()) else Err(r.error))
      ensures r.Ok? ==> |tiles| == attrs.width * attrs.height
    {
      attrs := named;
      var body :- ReadHeaderIn(AsChars(file), v.after);
      r := ReadTilesIn(body);
      LoadedTileCount(v, named, file);
    }

    /** The size check, then the magic line scanned for the version. */
    method ReadMagicIn() returns (r: Result<Version, DreamError>)
      modifies this`versionMajor, this`versionMinor, this`attrs
      ensures r == ReadMagic(file)
      ensures r.Ok? ==> versionMajor == r.value.major && versionMinor == r.value.minor &&
                        attrs == Overwritten(old(attrs), r.value.minorWord)
      ensures r.Err? ==> attrs == old(attrs)
    {
      if |file| < MIN_SIZE {
        return Err(TooSmallForDream);
      }
      var magic := GetLine(AsChars(file), Stream(0, false), MAGIC_LIMIT);
      var version := ScanVersion(CStr(magic.text));
      if version.None? {
        return Err(NotAMap);
      }
      versionMajor := ToUint8(version.value.0);
      versionMinor := ToUint8(version.value.1);
      attrs := Overwritten(attrs, Wrap32(version.value.1));
      r := Ok(Version(versionMajor, versionMinor, Wrap32(version.value.1), magic.after));
    }

    /** At most 32 header lines: `BODY` ends the header, any other line is applied as `key=value`. */
    method ReadHeaderIn(d: string, s: Stream) returns (r: Result<Stream, DreamError>)
      requires s.pos <= |d|
      modifies this`attrs
      ensures HeaderLoop(d, s, old(attrs), 0) == (if r.Ok? then Ok(Header(attrs, r.value)) else Err(r.error))
    {
      var cur := s;
      var i := 0;
      while i < MAX_HEADER_LINES
        invariant i <= MAX_HEADER_LINES && cur.pos <= |d|
        invariant HeaderLoop(d, s, old(attrs), 0) == HeaderLoop(d, cur, attrs, i)
        decreases MAX_HEADER_LINES - i
      {
        var line := GetLine(d, cur, LINE_LIMIT);
        var text := CStr(line.text);
        if text == "BODY" {
          return Ok(line.after);
        }
        var (key, value) := SplitKey(text);
        var lower := LowerInPlace(key);
        var next := ApplyKey(attrs, lower, value);
        if next.Err? {
          return Err(next.error);
        }
        attrs := next.value;
        cur := line.after;
        i := i + 1;
      }
      r := Err(NoBody);
    }

    /** The body read, the cipher test, the tiles allocated, then the planes in order. */
    method ReadTilesIn(s: Stream) returns (r: Result<(), DreamError>)
      requires s.pos <= |file| && tiles == []
      modifies this`tiles
      ensures ReadTiles(versionMajor, versionMinor, attrs, s, file) == (if r.Ok? then Ok(tiles) else Err(r.error))
    {
      var data :- ReadBody(file, s, ExpectedBytes(versionMajor, versionMinor, attrs.width, attrs.height));
      if attrs.encoded {
        return Err(EncodedMap);
      }
      tiles := seq(attrs.width * attrs.height, _ => BLANK);
      r := ReadPlanesIn(data);
    }

    /** The floor, object and wall planes, then regions and effects from 1.30, then lighting and ambient from 1.50. */
    method ReadPlanesIn(data: bytes) returns (r: Result<(), DreamError>)
      modifies this`tiles
      ensures ReadPlanes(PlanesOf(versionMajor, versionMinor), attrs.encoded, data, 0, old(tiles)) ==
              (if r.Ok? then Ok(tiles) else Err(r.error))
    {
      ghost var planes := PlanesOf(versionMajor, versionMinor);
      var offset :- ReadPlane(Floors, data, 0, planes, 0);
      offset :- ReadPlane(Objects, data, offset, planes, 1);
      offset :- ReadPlane(Walls, data, offset, planes, 2);
      r := ReadLaterPlanes(data, offset, planes);
    }

    /** Regions and effects from 1.30, then the rest. */
    method ReadLaterPlanes(data: bytes, offset: nat, ghost planes: seq<Plane>) returns (r: Result<(), DreamError>)
      requires planes == PlanesOf(versionMajor, versionMinor)
      modifies this`tiles
      ensures ReadPlanes(planes[3..], attrs.encoded, data, offset, old(tiles)) ==
              (if r.Ok? then Ok(tiles) else Err(r.error))
    {
      var at := offset;
      if HasRegions(versionMajor, versionMinor) {
        at :- ReadPlane(Regions, data, at, planes, 3);
        at :- ReadPlane(Effects, data, at, planes, 4);
      }
      r := ReadLightingPlanes(data, at, planes, if HasRegions(versionMajor, versionMinor) then 5 else 3);
    }

    /** Lighting and ambient from 1.50; then no plane is left. */
    method ReadLightingPlanes(data: bytes, offset: nat, ghost planes: seq<Plane>, ghost i: nat)
      returns (r: Result<(), DreamError>)
      requires planes == PlanesOf(versionMajor, versionMinor)
      requires i == if HasRegions(versionMajor, versionMinor) then 5 else 3
      modifies this`tiles
      ensures ReadPlanes(planes[i..], attrs.encoded, data, offset, old(tiles)) ==
              (if r.Ok? then Ok(tiles) else Err(r.error))
    {
      var at := offset;
      if HasLighting(versionMajor, versionMinor) {
        at :- ReadPlane(Lighting, data, at, planes, i);
        at :- ReadPlane(Ambient, data, at, planes, i + 1);
        assert i + 2 == |planes|;
      } else {
        assert i == |planes|;
      }
      r := Ok(());
    }

    /**
     * One plane block: the bounds check, the block's bytes decoded (or the
     * zero-filled vector the code leaves in place), then copied into the
     * tiles. `planes[i..]` are this plane and the ones still to come.
     */
    method ReadPlane(plane: Plane, data: bytes, offset: nat, ghost planes: seq<Plane>, ghost i: nat)
      returns (r: Result<nat, DreamError>)
      requires i < |planes| && planes[i] == plane
      modifies this`tiles
      ensures PlaneStep(old(tiles), plane, attrs.encoded, data, offset) ==
              (if r.Ok? then Ok((tiles, r.value)) else Err(r.error))
      ensures ReadPlanes(planes[i..], attrs.encoded, data, offset, old(tiles)) ==
              (if r.Ok? then ReadPlanes(planes[i + 1..], attrs.encoded, data, r.value, tiles) else Err(r.error))
    {
      assert planes[i..][0] == plane && planes[i..][1..] == planes[i + 1..];
      var size := 2 * |tiles|;
      if offset + size > |data| {
        return Err(NotEnoughData(plane));
      }
      var tmp := data[offset..offset + size];
      if plane == Walls {
        var walls := ReadWalls(tmp, attrs.encoded);
        StoreWalls(walls);
      } else {
        var values := ReadValues(plane, attrs.encoded, tmp);
        StoreValues(plane, values, PlaneSource(plane, attrs.encoded, tmp));
      }
      r := Ok(offset + size);
    }

    /** Each tile's two wall bytes taken from `walls`. */
    method StoreWalls(walls: bytes)
      requires |walls| == 2 * |tiles|
      modifies this`tiles
      ensures tiles == WithPlane(old(tiles), Walls, walls)
    {
      var i := 0;
      while i < |tiles|
        invariant i <= |tiles| == |old(tiles)|
        invariant forall k :: 0 <= k < i ==> tiles[k] == SetPlane(old(tiles)[k], Walls, walls, k)
        invariant forall k :: i <= k < |tiles| ==> tiles[k] == old(tiles)[k]
      {
        tiles := tiles[i := tiles[i].(neWall := walls[2 * i], nwWall := walls[2 * i + 1])];
        i := i + 1;
      }
    }

    /** Each tile's `plane` field set to the decoded value at its index. */
    method StoreValues(plane: Plane, values: seq<uint16>, ghost src: bytes)
      requires plane != Walls && |values| == |tiles| && |src| == 2 * |tiles|
      requires forall k :: 0 <= k < |values| ==> values[k] == Le16(src, k)
      modifies this`tiles
      ensures tiles == WithPlane(old(tiles), plane, src)
    {
      var i := 0;
      while i < |tiles|
        invariant i <= |tiles| == |old(tiles)|
        invariant forall k :: 0 <= k < i ==> tiles[k] == SetPlane(old(tiles)[k], plane, src, k)
        invariant forall k :: i <= k < |tiles| ==> tiles[k] == old(tiles)[k]
      {
        tiles := tiles[i := SetValue(tiles[i], plane, values[i])];
        i := i + 1;
      }
    }

    /** `get(x, y)`: the tile at column `x` and row `y`, or out of range. */
    function Get(x: uint16, y: uint16): (r: Result<Tile, DreamError>)
      reads this
      requires |tiles| == attrs.width * attrs.height
      ensures r.Err? <==> x >= attrs.width || y >= attrs.height
      ensures r.Err? ==> r.error == CoordinatesOutOfBounds
      ensures r.Ok? ==> TileIndex(attrs.height, x, y) < |tiles| && r.value == tiles[TileIndex(attrs.height, x, y)]
    {
      if x >= attrs.width || y >= attrs.height then Err(CoordinatesOutOfBounds)
      else
        TileIndexInRange(attrs.width, attrs.height, x, y);
        Ok(tiles[TileIndex(attrs.height, x, y)])
    }
  }
}
