/** The TIFF strip-metadata reader: header and one IFD, as laid out in section 2 of TIFF Revision 6.0. */
module Tiff {
  import opened Common

  type Byte = b: int | 0 <= b < 256

  datatype Endian = Little | Big

  /** One decoded element of an IFD field. FLOAT elements keep their bits. */
  datatype Value = Num(n: int) | Chr(c: Byte) | Flt(bits: nat)

  datatype ParseError =
    | IncompleteHeader | BadByteOrder | BadMagic | IncompleteEntryCount | TruncatedEntry
    | NotAnInteger | MissingStripOffsets | MissingStripByteCounts

  datatype StripInfo = StripInfo(stripOffsets: seq<int>, stripByteCounts: seq<int>, rowsPerStrip: int, endian: Endian,
                                 width: int, height: int, bitsPerSample: int, compression: int, sampleFormat: int)

  type Tags = map<int, seq<Value>>

  const TYPE_BYTE := 1
  const TYPE_ASCII := 2
  const TYPE_SHORT := 3
  const TYPE_LONG := 4
  const TYPE_FLOAT := 11

  const TAG_WIDTH := 256
  const TAG_HEIGHT := 257
  const TAG_BITS_PER_SAMPLE := 258
  const TAG_COMPRESSION := 259
  const TAG_STRIP_OFFSETS := 273
  const TAG_ROWS_PER_STRIP := 278
  const TAG_STRIP_BYTE_COUNTS := 279
  const TAG_SAMPLE_FORMAT := 339

  // ---------------------------------------------------------------- reading bytes

  function U16(e: Endian, s: seq<Byte>): (n: nat)
    requires |s| == 2
    ensures n < 0x1_0000
  {
    var lo, hi: int := if e.Little? then s[0] else s[1], if e.Little? then s[1] else s[0];
    lo + 0x100 * hi
  }

  function Weighed(a: Byte, b: Byte, c: Byte, d: Byte): (n: nat)
    ensures n < 0x1_0000_0000
  {
    var x, y: int := b, c;
    var z: int := d;
    a + 0x100 * x + 0x1_0000 * y + 0x100_0000 * z
  }

  function U32(e: Endian, s: seq<Byte>): (n: nat)
    requires |s| == 4
    ensures n < 0x1_0000_0000
  {
    if e.Little? then Weighed(s[0], s[1], s[2], s[3]) else Weighed(s[3], s[2], s[1], s[0])
  }

  /** `seek(pos)` then `read(n)`: short or empty past the end of the file. */
  function Read(file: seq<Byte>, pos: nat, n: nat): seq<Byte> {
    if pos + n <= |file| then file[pos..pos + n]
    else if pos <= |file| then file[pos..]
    else []
  }

  function TypeSize(fieldType: int): nat {
    if fieldType == TYPE_BYTE || fieldType == TYPE_ASCII then 1
    else if fieldType == TYPE_SHORT then 2
    else if fieldType == TYPE_LONG || fieldType == TYPE_FLOAT then 4
    else 0
  }

  function UnpackOne(e: Endian, fieldType: int, s: seq<Byte>): Value
    requires |s| == TypeSize(fieldType) > 0
  {
    if fieldType == TYPE_SHORT then Num(U16(e, s))
    else if fieldType == TYPE_LONG then Num(U32(e, s))
    else if fieldType == TYPE_FLOAT then Flt(U32(e, s))
    else Num(s[0])
  }

  function Unpack(e: Endian, fieldType: int, payload: seq<Byte>): seq<Value>
    requires TypeSize(fieldType) > 0
  {
    var size := TypeSize(fieldType);
    if |payload| < size then []
    else [UnpackOne(e, fieldType, payload[..size])] + Unpack(e, fieldType, payload[size..])
  }

  function StripZeros(s: seq<Byte>): seq<Byte> {
    if s != [] && s[|s| - 1] == 0 then StripZeros(s[..|s| - 1]) else s
  }

  /** ASCII text with the bytes outside the character set ignored. */
  function AsciiChars(s: seq<Byte>): seq<Value> {
    if s == [] then [] else (if s[0] < 128 then [Chr(s[0])] else []) + AsciiChars(s[1..])
  }

  /** One field's values; an unknown type or a payload running past the file yields none. */
  function DecodeIfdValues(file: seq<Byte>, e: Endian, fieldType: int, count: nat, valueField: seq<Byte>): seq<Value>
    requires |valueField| == 4
  {
    var size := TypeSize(fieldType);
    if size == 0 then []
    else
      var total := size * count;
      var payload := if total <= 4 then valueField[..total] else Read(file, U32(e, valueField), total);
      if |payload| != total then []
      else if fieldType == TYPE_ASCII then AsciiChars(StripZeros(payload))
      else Unpack(e, fieldType, payload)
  }

  // ---------------------------------------------------------------- integers out of values

  datatype Float = Finite(x: real) | NonFinite

  function PowerOfTwo(k: int): real
    decreases if k < 0 then -k else k
  {
    if k == 0 then 1.0 else if k > 0 then 2.0 * PowerOfTwo(k - 1) else PowerOfTwo(k + 1) / 2.0
  }

  /** The number an IEEE 754 single-precision bit pattern denotes. */
  function Float32(bits: nat): Float {
    var exponent, fraction := bits / 0x80_0000 % 256, bits % 0x80_0000;
    var magnitude :=
      if exponent == 0 then fraction as real * PowerOfTwo(-149)
      else (0x80_0000 + fraction) as real * PowerOfTwo(exponent - 150);
    if exponent == 255 then NonFinite else Finite(if bits / 0x8000_0000 % 2 == 1 then -magnitude else magnitude)
  }

  function Truncate(x: real): int {
    if x < 0.0 then -((-x).Floor) else x.Floor
  }

  /** `int(v)`: only digits among characters and only finite floats convert. */
  function IntOf(v: Value): Option<int> {
    match v
    case Num(n) => Some(n)
    case Chr(c) => if 48 <= c <= 57 then Some(c - 48) else None
    case Flt(bits) => if Float32(bits).Finite? then Some(Truncate(Float32(bits).x)) else None
  }

  function IntsOf(vs: seq<Value>): Option<seq<int>> {
    if vs == [] then Some([])
    else
      var head, rest := IntOf(vs[0]), IntsOf(vs[1..]);
      if head.Some? && rest.Some? then Some([head.value] + rest.value) else None
  }

  function ValuesOf(tags: Tags, tag: int): seq<Value> {
    if tag in tags then tags[tag] else []
  }

  /** First value of a tag, or the default when the tag is missing or empty. */
  function FirstOf(tags: Tags, tag: int, default: int): Option<int> {
    var vs := ValuesOf(tags, tag);
    if vs == [] then Some(default) else IntOf(vs[0])
  }

  function InfoOf(tags: Tags, e: Endian): Result<StripInfo, ParseError> {
    var offsets, counts := IntsOf(ValuesOf(tags, TAG_STRIP_OFFSETS)), IntsOf(ValuesOf(tags, TAG_STRIP_BYTE_COUNTS));
    var rows := FirstOf(tags, TAG_ROWS_PER_STRIP, 1);
    var width, height := FirstOf(tags, TAG_WIDTH, 0), FirstOf(tags, TAG_HEIGHT, 0);
    var bits, compression := FirstOf(tags, TAG_BITS_PER_SAMPLE, 0), FirstOf(tags, TAG_COMPRESSION, 1);
    var format := FirstOf(tags, TAG_SAMPLE_FORMAT, 0);
    if offsets.None? || counts.None? || rows.None? || width.None? || height.None?
       || bits.None? || compression.None? || format.None? then Err(NotAnInteger)
    else if offsets.value == [] then Err(MissingStripOffsets)
    else if counts.value == [] then Err(MissingStripByteCounts)
    else Ok(StripInfo(offsets.value, counts.value, rows.value, e, width.value, height.value,
                      bits.value, compression.value, format.value))
  }

  // ---------------------------------------------------------------- the parser

  /** The entry at pos: its tag and its decoded values. */
  function ParseEntry(file: seq<Byte>, e: Endian, pos: nat): Option<(int, seq<Value>)> {
    var raw := Read(file, pos, 12);
    if |raw| != 12 then None
    else Some((U16(e, raw[..2]), DecodeIfdValues(file, e, U16(e, raw[2..4]), U32(e, raw[4..8]), raw[8..12])))
  }

  function ParseEntries(file: seq<Byte>, e: Endian, pos: nat, n: nat, tags: Tags): Result<Tags, ParseError>
    decreases n
  {
    if n == 0 then Ok(tags)
    else
      var entry := ParseEntry(file, e, pos);
      if entry.None? then Err(TruncatedEntry)
      else ParseEntries(file, e, pos + 12, n - 1, tags[entry.value.0 := entry.value.1])
  }

  function Parse(file: seq<Byte>): Result<StripInfo, ParseError> {
    var header := Read(file, 0, 8);
    if |header| != 8 then Err(IncompleteHeader)
    else if header[..2] != [0x49, 0x49] && header[..2] != [0x4D, 0x4D] then Err(BadByteOrder)
    else
      var e := if header[..2] == [0x49, 0x49] then Little else Big;
      if U16(e, header[2..4]) != 42 then Err(BadMagic)
      else ParseIfd(file, e, U32(e, header[4..8]))
  }

  function ParseIfd(file: seq<Byte>, e: Endian, ifd: nat): Result<StripInfo, ParseError> {
    var countRaw := Read(file, ifd, 2);
    if |countRaw| != 2 then Err(IncompleteEntryCount)
    else
      var tags := ParseEntries(file, e, ifd + 2, U16(e, countRaw), map[]);
      if tags.Err? then Err(tags.error) else InfoOf(tags.value, e)
  }

  /** Reads the header, seeks to the IFD and collects its tags, then picks the strip metadata. */
  method DetectStripOffset(file: seq<Byte>) returns (r: Result<StripInfo, ParseError>)
    ensures r == Parse(file)
  {
    var header := Read(file, 0, 8);
    if |header| != 8 {
      return Err(IncompleteHeader);
    }
    var e;
    if header[..2] == [0x49, 0x49] {
      e := Little;
    } else if header[..2] == [0x4D, 0x4D] {
      e := Big;
    } else {
      return Err(BadByteOrder);
    }
    if U16(e, header[2..4]) != 42 {
      return Err(BadMagic);
    }
    var ifd := U32(e, header[4..8]);
    var countRaw := Read(file, ifd, 2);
    if |countRaw| != 2 {
      return Err(IncompleteEntryCount);
    }
    var tags := ReadEntries(file, e, ifd + 2, U16(e, countRaw));
    if tags.Err? {
      return Err(tags.error);
    }
    r := InfoOf(tags.value, e);
  }

  method ReadEntry(file: seq<Byte>, e: Endian, pos: nat) returns (entry: Option<(int, seq<Value>)>)
    ensures entry == ParseEntry(file, e, pos)
  {
    var raw := Read(file, pos, 12);
    if |raw| != 12 {
      return None;
    }
    var tag, fieldType, count := U16(e, raw[..2]), U16(e, raw[2..4]), U32(e, raw[4..8]);
    var values := DecodeIfdValues(file, e, fieldType, count, raw[8..12]);
    entry := Some((tag, values));
  }

  method ReadEntries(file: seq<Byte>, e: Endian, start: nat, entryCount: nat) returns (r: Result<Tags, ParseError>)
    ensures r == ParseEntries(file, e, start, entryCount, map[])
  {
    var tags: Tags := map[];
    var pos := start;
    for i := 0 to entryCount
      invariant pos == start + 12 * i
      invariant ParseEntries(file, e, pos, entryCount - i, tags) == ParseEntries(file, e, start, entryCount, map[])
    {
      var entry := ReadEntry(file, e, pos);
      if entry.None? {
        return Err(TruncatedEntry);
      }
      tags := tags[entry.value.0 := entry.value.1];
      pos := pos + 12;
    }
    r := Ok(tags);
  }

  // ---------------------------------------------------------------- files that hold given fields

  /**
   * What an entry holds: SHORT or LONG numbers, BYTE octets, ASCII text before its closing NULs, FLOAT bit patterns,
   * something of a type the reader does not know, or a payload that runs past the end of the file.
   */
  datatype Content =
    | Numbers(isLong: bool, values: seq<int>)
    | Octets(octets: seq<Byte>)
    | Text(text: seq<Byte>, nuls: nat)
    | Floats(patterns: seq<int>)
    | Unknown(fieldType: int, count: int)
    | Cut(fieldType: int, count: int)

  datatype Field = Field(tag: int, content: Content)

  function FieldType(c: Content): int {
    match c
    case Octets(_) => 1
    case Text(_, _) => 2
    case Numbers(isLong, _) => if isLong then 4 else 3
    case Floats(_) => 11
    case Unknown(t, _) => t
    case Cut(t, _) => t
  }

  function CountOf(c: Content): int {
    match c
    case Octets(s) => |s|
    case Text(s, nuls) => |s| + nuls
    case Numbers(_, values) => |values|
    case Floats(patterns) => |patterns|
    case Unknown(_, n) => n
    case Cut(_, n) => n
  }

  /** The bytes so many items of a known type take. */
  function PayloadSize(fieldType: int, count: int): int {
    if fieldType == 1 || fieldType == 2 then count else if fieldType == 3 then 2 * count else 4 * count
  }

  function Width(isLong: bool): nat {
    if isLong then 4 else 2
  }

  /** The bytes taken by so many numbers. */
  function Size(isLong: bool, count: nat): nat {
    if isLong then 4 * count else 2 * count
  }

  /** The number of the two bytes at p. */
  function ShortAt(file: seq<Byte>, e: Endian, p: nat): nat
    requires p + 2 <= |file|
  {
    var x, y: int := file[p], file[p + 1];
    if e.Little? then x + 0x100 * y else y + 0x100 * x
  }

  /** The number of the four bytes at p. */
  function LongAt(file: seq<Byte>, e: Endian, p: nat): nat
    requires p + 4 <= |file|
  {
    if e.Little? then Weighed(file[p], file[p + 1], file[p + 2], file[p + 3])
    else Weighed(file[p + 3], file[p + 2], file[p + 1], file[p])
  }

  lemma SliceReads(file: seq<Byte>, e: Endian, p: nat)
    ensures p + 2 <= |file| ==> U16(e, file[p..p + 2]) == ShortAt(file, e, p)
    ensures p + 4 <= |file| ==> U32(e, file[p..p + 4]) == LongAt(file, e, p)
  {
  }

  /** The 2 or 4 bytes at p are the number n in byte order e. */
  predicate NumberAt(file: seq<Byte>, e: Endian, p: nat, isLong: bool, n: int) {
    p + Width(isLong) <= |file|
    && n == if isLong then LongAt(file, e, p) else ShortAt(file, e, p)
  }

  /** The byte of weight 256^k of n. */
  function ByteOf(n: int, k: nat): int
    requires k < 4
  {
    match k case 0 => n % 0x100 case 1 => n / 0x100 % 0x100 case 2 => n / 0x1_0000 % 0x100 case _ => n / 0x100_0000
  }

  /** Byte by byte: least significant first in a little-endian file, most significant first in a big-endian one. */
  predicate Spells(s: seq<Byte>, e: Endian, n: int)
    requires |s| == 2 || |s| == 4
  {
    forall k: nat | k < |s| :: s[if e.Little? then k else |s| - 1 - k] as int == ByteOf(n, k)
  }

  lemma TwoBytesSpell(s: seq<Byte>, e: Endian, n: int)
    requires |s| == 2 && 0 <= n < 0x1_0000
    ensures U16(e, s) == n <==> Spells(s, e, n)
  {
    var lo, hi := if e.Little? then s[0] else s[1], if e.Little? then s[1] else s[0];
    assert Spells(s, e, n) <==> lo as int == ByteOf(n, 0) && hi as int == ByteOf(n, 1);
  }

  lemma FourBytesSpell(s: seq<Byte>, e: Endian, n: int)
    requires |s| == 4 && 0 <= n < 0x1_0000_0000
    ensures U32(e, s) == n <==> Spells(s, e, n)
  {
    var a, b, c, d := if e.Little? then s[0] else s[3], if e.Little? then s[1] else s[2],
      if e.Little? then s[2] else s[1], if e.Little? then s[3] else s[0];
    FourDigits(a, b, c, d, n);
  }

  lemma FourDigits(a: Byte, b: Byte, c: Byte, d: Byte, n: int)
    requires 0 <= n < 0x1_0000_0000
    ensures n == Weighed(a, b, c, d)
       <==> a == ByteOf(n, 0) && b == ByteOf(n, 1) && c == ByteOf(n, 2) && d == ByteOf(n, 3)
  {
    var q := n / 0x100;
    TopDigits(b, c, d, q);
    assert n / 0x1_0000 == q / 0x100 && n / 0x100_0000 == q / 0x1_0000;
  }

  lemma TopDigits(b: int, c: int, d: int, q: int)
    requires 0 <= b < 0x100 && 0 <= c < 0x100 && 0 <= d < 0x100 && 0 <= q < 0x100_0000
    ensures q == b + 0x100 * c + 0x1_0000 * d <==> b == q % 0x100 && c == q / 0x100 % 0x100 && d == q / 0x1_0000
  {
  }

  /** What a file of either byte order spells at p, byte by byte. */
  lemma NumberAtSpells(file: seq<Byte>, e: Endian, p: nat, isLong: bool, n: int)
    requires p + Width(isLong) <= |file| && 0 <= n < (if isLong then 0x1_0000_0000 else 0x1_0000)
    ensures NumberAt(file, e, p, isLong, n) <==> Spells(file[p..p + Width(isLong)], e, n)
  {
    SliceReads(file, e, p);
    if isLong { FourBytesSpell(file[p..p + 4], e, n); } else { TwoBytesSpell(file[p..p + 2], e, n); }
  }

  /** Consecutive numbers from p on are these values. */
  predicate NumbersAt(file: seq<Byte>, e: Endian, p: nat, isLong: bool, values: seq<int>)
    decreases |values|
  {
    p <= |file| &&
    (values != [] ==>
       NumberAt(file, e, p, isLong, values[0]) && NumbersAt(file, e, p + Width(isLong), isLong, values[1..]))
  }

  /** The bytes s stand in the file at p. */
  predicate At(file: seq<Byte>, p: nat, s: seq<Byte>) {
    p + |s| <= |file| && file[p..p + |s|] == s
  }

  function Nuls(n: nat): (s: seq<Byte>)
    ensures |s| == n && (forall i | 0 <= i < n :: s[i] == 0)
  {
    if n == 0 then [] else Nuls(n - 1) + [0]
  }

  /** The payload of this content stands at p; text ends before its closing NULs. */
  predicate HoldsContent(file: seq<Byte>, e: Endian, p: nat, c: Content) {
    match c
    case Numbers(isLong, values) => NumbersAt(file, e, p, isLong, values)
    case Octets(s) => At(file, p, s)
    case Text(s, nuls) => At(file, p, s + Nuls(nuls)) && (s == [] || s[|s| - 1] != 0)
    case Floats(patterns) => NumbersAt(file, e, p, true, patterns)
    case Unknown(t, _) => t !in {1, 2, 3, 4, 11}
    case Cut(t, n) => t in {1, 2, 3, 4, 11} && PayloadSize(t, n) > 4 && p + PayloadSize(t, n) > |file|
  }

  /**
   * The 12 bytes at p are the entry of this field: its payload left-justified in the value field when it takes at
   * most 4 bytes, otherwise anywhere in the file, at the offset the value field gives. Padding is free.
   */
  predicate HoldsField(file: seq<Byte>, e: Endian, p: nat, f: Field) {
    var t, n := FieldType(f.content), CountOf(f.content);
    && p + 12 <= |file|
    && NumberAt(file, e, p, false, f.tag)
    && NumberAt(file, e, p + 2, false, t)
    && NumberAt(file, e, p + 4, true, n)
    && HoldsContent(file, e, if PayloadSize(t, n) <= 4 then p + 8 else LongAt(file, e, p + 8), f.content)
  }

  /** Consecutive 12-byte entries from p on hold these fields. */
  predicate HoldsFields(file: seq<Byte>, e: Endian, p: nat, fields: seq<Field>)
    decreases |fields|
  {
    fields != [] ==> HoldsField(file, e, p, fields[0]) && HoldsFields(file, e, p + 12, fields[1..])
  }

  function OrderMark(e: Endian): seq<Byte> {
    if e.Little? then [0x49, 0x49] else [0x4D, 0x4D]
  }

  /** The file is a TIFF whose IFD, at any offset, has exactly these fields in order; other bytes are free. */
  predicate HoldsTiff(file: seq<Byte>, e: Endian, fields: seq<Field>) {
    && |file| >= 8
    && file[..2] == OrderMark(e)
    && NumberAt(file, e, 2, false, 42)
    && NumberAt(file, e, LongAt(file, e, 4), false, |fields|)
    && HoldsFields(file, e, LongAt(file, e, 4) + 2, fields)
  }

  function Nums(values: seq<int>): seq<Value> {
    if values == [] then [] else [Num(values[0])] + Nums(values[1..])
  }

  function Flts(patterns: seq<int>): seq<Value>
    requires forall i | 0 <= i < |patterns| :: patterns[i] >= 0
  {
    if patterns == [] then [] else [Flt(patterns[0])] + Flts(patterns[1..])
  }

  /** What an entry contributes. */
  function Decoded(c: Content): seq<Value> {
    match c
    case Numbers(_, values) => Nums(values)
    case Octets(s) => Nums(s)
    case Text(s, _) => AsciiChars(s)
    case Floats(patterns) => if forall i | 0 <= i < |patterns| :: patterns[i] >= 0 then Flts(patterns) else []
    case Unknown(_, _) => []
    case Cut(_, _) => []
  }

  /** The tag table after reading these fields; a repeated tag keeps its last field. */
  function AddFields(tags: Tags, fields: seq<Field>): Tags
    decreases |fields|
  {
    if fields == [] then tags else AddFields(tags[fields[0].tag := Decoded(fields[0].content)], fields[1..])
  }

  // ---------------------------------------------------------------- slices

  lemma SliceOfSlice<T>(s: seq<T>, p: nat, n: nat, i: nat, j: nat)
    requires p + n <= |s| && i <= j <= n
    ensures s[p..p + n][i..j] == s[p + i..p + j]
  {
    var a := s[p..p + n];
    forall k | 0 <= k < j - i ensures a[i..j][k] == s[p + i..p + j][k] {
      assert a[i..j][k] == a[i + k] == s[p + (i + k)];
    }
  }

  lemma SliceOfRead(file: seq<Byte>, p: nat, n: nat, i: nat, j: nat)
    requires p + n <= |file| && i <= j <= n
    ensures |Read(file, p, n)| == n && Read(file, p, n)[i..j] == file[p + i..p + j]
  {
    SliceOfSlice(file, p, n, i, j);
  }

  // ---------------------------------------------------------------- parsing what a file holds

  lemma {:induction false} NumbersEnd(file: seq<Byte>, e: Endian, p: nat, isLong: bool, values: seq<int>)
    requires NumbersAt(file, e, p, isLong, values)
    ensures p + Size(isLong, |values|) <= |file|
    decreases |values|
  {
    if values != [] { NumbersEnd(file, e, p + Width(isLong), isLong, values[1..]); }
  }

  lemma {:induction false} UnpackNumbers(file: seq<Byte>, e: Endian, p: nat, isLong: bool, values: seq<int>, n: nat)
    requires NumbersAt(file, e, p, isLong, values) && n == Size(isLong, |values|) && p + n <= |file|
    ensures Unpack(e, if isLong then TYPE_LONG else TYPE_SHORT, file[p..p + n]) == Nums(values)
    decreases |values|
  {
    if values != [] {
      var w := Width(isLong);
      SliceOfSlice(file, p, n, 0, w);
      SliceOfSlice(file, p, n, w, n);
      SliceReads(file, e, p);
      UnpackNumbers(file, e, p + w, isLong, values[1..], n - w);
    }
  }

  lemma {:induction false} NumbersNonnegative(file: seq<Byte>, e: Endian, p: nat, isLong: bool, values: seq<int>)
    requires NumbersAt(file, e, p, isLong, values)
    ensures forall i | 0 <= i < |values| :: values[i] >= 0
    decreases |values|
  {
    if values != [] { NumbersNonnegative(file, e, p + Width(isLong), isLong, values[1..]); }
  }

  lemma {:induction false} UnpackFloats(file: seq<Byte>, e: Endian, p: nat, patterns: seq<int>, n: nat)
    requires NumbersAt(file, e, p, true, patterns) && n == 4 * |patterns| && p + n <= |file|
    requires forall i | 0 <= i < |patterns| :: patterns[i] >= 0
    ensures Unpack(e, 11, file[p..p + n]) == Flts(patterns)
    decreases |patterns|
  {
    if patterns != [] {
      SliceOfSlice(file, p, n, 0, 4);
      SliceOfSlice(file, p, n, 4, n);
      SliceReads(file, e, p);
      UnpackFloats(file, e, p + 4, patterns[1..], n - 4);
    }
  }

  lemma {:induction false} UnpackOctets(e: Endian, s: seq<Byte>)
    ensures Unpack(e, 1, s) == Nums(s)
    decreases |s|
  {
    if s != [] { UnpackOctets(e, s[1..]); }
  }

  lemma {:induction false} StripNuls(s: seq<Byte>, n: nat)
    requires s == [] || s[|s| - 1] != 0
    ensures StripZeros(s + Nuls(n)) == s
    decreases n
  {
    if n == 0 {
      assert s + Nuls(0) == s;
    } else {
      StripNuls(s, n - 1);
      assert (s + Nuls(n))[..|s| + n - 1] == s + Nuls(n - 1);
    }
  }

  /** What the reader makes of a payload it has in full. */
  function Interpreted(e: Endian, fieldType: int, payload: seq<Byte>): seq<Value>
    requires TypeSize(fieldType) > 0
  {
    if fieldType == 2 then AsciiChars(StripZeros(payload)) else Unpack(e, fieldType, payload)
  }

  lemma PayloadInterprets(file: seq<Byte>, e: Endian, p: nat, c: Content, n: nat)
    requires HoldsContent(file, e, p, c) && !c.Unknown? && !c.Cut? && n == PayloadSize(FieldType(c), CountOf(c))
    ensures p + n <= |file| && Interpreted(e, FieldType(c), file[p..p + n]) == Decoded(c)
  {
    match c
    case Numbers(isLong, values) =>
      NumbersEnd(file, e, p, isLong, values);
      UnpackNumbers(file, e, p, isLong, values, n);
    case Floats(patterns) =>
      NumbersEnd(file, e, p, true, patterns);
      NumbersNonnegative(file, e, p, true, patterns);
      UnpackFloats(file, e, p, patterns, n);
    case Octets(s) => UnpackOctets(e, s);
    case Text(s, nuls) => StripNuls(s, nuls);
  }

  lemma DecodeInterprets(file: seq<Byte>, e: Endian, t: int, count: nat, valueField: seq<Byte>, payload: seq<Byte>)
    requires |valueField| == 4 && t in {1, 2, 3, 4, 11}
    requires var n := PayloadSize(t, count);
             && payload == (if n <= 4 then valueField[..n] else Read(file, U32(e, valueField), n)) && |payload| == n
    ensures DecodeIfdValues(file, e, t, count, valueField) == Interpreted(e, t, payload)
  {
  }

  lemma DecodeYieldsNothing(file: seq<Byte>, e: Endian, t: int, count: nat, valueField: seq<Byte>)
    requires |valueField| == 4
    requires t !in {1, 2, 3, 4, 11}
          || (PayloadSize(t, count) > 4 && U32(e, valueField) + PayloadSize(t, count) > |file|)
    ensures DecodeIfdValues(file, e, t, count, valueField) == []
  {
  }

  lemma DecodeHeldValues(file: seq<Byte>, e: Endian, p: nat, f: Field)
    requires HoldsField(file, e, p, f)
    ensures DecodeIfdValues(file, e, FieldType(f.content), CountOf(f.content), file[p + 8..p + 12])
         == Decoded(f.content)
  {
    var c := f.content;
    var t, count := FieldType(c), CountOf(c);
    SliceReads(file, e, p + 8);
    if c.Unknown? || c.Cut? {
      DecodeYieldsNothing(file, e, t, count, file[p + 8..p + 12]);
    } else {
      var n := PayloadSize(t, count);
      var at := if n <= 4 then p + 8 else LongAt(file, e, p + 8);
      PayloadInterprets(file, e, at, c, n);
      if n <= 4 { SliceOfSlice(file, p + 8, 4, 0, n); }
      DecodeInterprets(file, e, t, count, file[p + 8..p + 12], file[at..at + n]);
    }
  }

  lemma EntryParts(file: seq<Byte>, e: Endian, p: nat)
    requires p + 12 <= |file|
    ensures ParseEntry(file, e, p)
         == Some((ShortAt(file, e, p),
                  DecodeIfdValues(file, e, ShortAt(file, e, p + 2), LongAt(file, e, p + 4), file[p + 8..p + 12])))
  {
    SliceReads(file, e, p);
    SliceReads(file, e, p + 2);
    SliceReads(file, e, p + 4);
    SliceOfRead(file, p, 12, 0, 2);
    SliceOfRead(file, p, 12, 2, 4);
    SliceOfRead(file, p, 12, 4, 8);
    SliceOfRead(file, p, 12, 8, 12);
  }

  lemma ParseHeldField(file: seq<Byte>, e: Endian, p: nat, f: Field)
    requires HoldsField(file, e, p, f)
    ensures ParseEntry(file, e, p) == Some((f.tag, Decoded(f.content)))
  {
    EntryParts(file, e, p);
    DecodeHeldValues(file, e, p, f);
  }

  /** Reading consecutive entries from p on yields these fields. */
  ghost predicate Yields(file: seq<Byte>, e: Endian, p: nat, fields: seq<Field>)
    decreases |fields|
  {
    fields != [] ==>
      ParseEntry(file, e, p) == Some((fields[0].tag, Decoded(fields[0].content)))
      && Yields(file, e, p + 12, fields[1..])
  }

  lemma {:induction false} HeldFieldsYield(file: seq<Byte>, e: Endian, p: nat, fields: seq<Field>)
    requires HoldsFields(file, e, p, fields)
    ensures Yields(file, e, p, fields)
    decreases |fields|
  {
    if fields != [] {
      ParseHeldField(file, e, p, fields[0]);
      HeldFieldsYield(file, e, p + 12, fields[1..]);
    }
  }

  lemma {:induction false} ParseYielded(file: seq<Byte>, e: Endian, p: nat, fields: seq<Field>, tags: Tags)
    requires Yields(file, e, p, fields)
    ensures ParseEntries(file, e, p, |fields|, tags) == Ok(AddFields(tags, fields))
    decreases |fields|
  {
    if fields != [] {
      ParseYielded(file, e, p + 12, fields[1..], tags[fields[0].tag := Decoded(fields[0].content)]);
    }
  }

  // ---------------------------------------------------------------- what the parser reports

  /** The last field with this tag. */
  function LastWith(fields: seq<Field>, tag: int): Option<Content> {
    if fields == [] then None
    else
      var later := LastWith(fields[1..], tag);
      if later.Some? then later else if fields[0].tag == tag then Some(fields[0].content) else None
  }

  /** What is held under a tag: the contribution of its last entry, nothing when there is none. */
  function Held(fields: seq<Field>, tag: int): seq<Value> {
    var last := LastWith(fields, tag);
    if last.Some? then Decoded(last.value) else []
  }

  lemma {:induction false} AddFieldsLookup(tags: Tags, fields: seq<Field>, tag: int)
    ensures ValuesOf(AddFields(tags, fields), tag)
         == if LastWith(fields, tag).Some? then Decoded(LastWith(fields, tag).value) else ValuesOf(tags, tag)
    decreases |fields|
  {
    if fields != [] {
      AddFieldsLookup(tags[fields[0].tag := Decoded(fields[0].content)], fields[1..], tag);
    }
  }

  lemma {:induction false} IntsPointwise(vs: seq<Value>)
    ensures IntsOf(vs).None? <==> (exists i :: 0 <= i < |vs| && IntOf(vs[i]).None?)
    ensures var r := IntsOf(vs);
            r.Some? ==> |r.value| == |vs| && (forall i | 0 <= i < |vs| :: IntOf(vs[i]) == Some(r.value[i]))
  {
    if vs != [] {
      IntsPointwise(vs[1..]);
      if i :| 0 <= i < |vs| && IntOf(vs[i]).None? {
        if i > 0 { assert vs[1..][i - 1] == vs[i]; }
      }
    }
  }

  /** Every value held under the tag converts to an integer. */
  ghost predicate AllInts(vs: seq<Value>) {
    forall i | 0 <= i < |vs| :: IntOf(vs[i]).Some?
  }

  /** The first value held under the tag, if there is one, converts to an integer. */
  predicate FirstInt(vs: seq<Value>) {
    vs == [] || IntOf(vs[0]).Some?
  }

  /** These are the integers of these values, in order. */
  ghost predicate AreInts(ns: seq<int>, vs: seq<Value>) {
    |ns| == |vs| && (forall i | 0 <= i < |vs| :: IntOf(vs[i]) == Some(ns[i]))
  }

  /** n is the first of these values, or the default when there is none. */
  predicate IsFirst(n: int, vs: seq<Value>, default: int) {
    if vs == [] then n == default else IntOf(vs[0]) == Some(n)
  }

  /** Everything the reader converts is an integer. */
  ghost predicate Readable(fields: seq<Field>) {
    && AllInts(Held(fields, 273)) && AllInts(Held(fields, 279)) && FirstInt(Held(fields, 278))
    && FirstInt(Held(fields, 256)) && FirstInt(Held(fields, 257)) && FirstInt(Held(fields, 258))
    && FirstInt(Held(fields, 259)) && FirstInt(Held(fields, 339))
  }

  /** The strip metadata as the fields hold it: tags 273, 279, 278, 256, 257, 258, 259 and 339, with their defaults. */
  ghost predicate Reports(info: StripInfo, fields: seq<Field>, e: Endian) {
    && AreInts(info.stripOffsets, Held(fields, 273)) && AreInts(info.stripByteCounts, Held(fields, 279))
    && IsFirst(info.rowsPerStrip, Held(fields, 278), 1) && info.endian == e
    && IsFirst(info.width, Held(fields, 256), 0) && IsFirst(info.height, Held(fields, 257), 0)
    && IsFirst(info.bitsPerSample, Held(fields, 258), 0) && IsFirst(info.compression, Held(fields, 259), 1)
    && IsFirst(info.sampleFormat, Held(fields, 339), 0)
  }

  lemma TagHeld(fields: seq<Field>, tag: int)
    ensures ValuesOf(AddFields(map[], fields), tag) == Held(fields, tag)
  {
    AddFieldsLookup(map[], fields, tag);
  }

  lemma AllTagsHeld(fields: seq<Field>, tags: Tags)
    requires tags == AddFields(map[], fields)
    ensures ValuesOf(tags, 273) == Held(fields, 273) && ValuesOf(tags, 279) == Held(fields, 279)
    ensures ValuesOf(tags, 278) == Held(fields, 278) && ValuesOf(tags, 256) == Held(fields, 256)
    ensures ValuesOf(tags, 257) == Held(fields, 257) && ValuesOf(tags, 258) == Held(fields, 258)
    ensures ValuesOf(tags, 259) == Held(fields, 259) && ValuesOf(tags, 339) == Held(fields, 339)
  {
    TagHeld(fields, 273);
    TagHeld(fields, 279);
    TagHeld(fields, 278);
    TagHeld(fields, 256);
    TagHeld(fields, 257);
    TagHeld(fields, 258);
    TagHeld(fields, 259);
    TagHeld(fields, 339);
  }

  /** How a parse of these fields ends. */
  ghost predicate EndsAs(r: Result<StripInfo, ParseError>, fields: seq<Field>, e: Endian) {
    && (r == Err(NotAnInteger) <==> !Readable(fields))
    && (r == Err(MissingStripOffsets) <==> Readable(fields) && Held(fields, 273) == [])
    && (r == Err(MissingStripByteCounts) <==> Readable(fields) && Held(fields, 273) != [] && Held(fields, 279) == [])
    && (r.Ok? <==> Readable(fields) && Held(fields, 273) != [] && Held(fields, 279) != [])
    && (r.Ok? ==> Reports(r.value, fields, e))
  }

  lemma InfoOfTags(fields: seq<Field>, e: Endian)
    ensures EndsAs(InfoOf(AddFields(map[], fields), e), fields, e)
  {
    AllTagsHeld(fields, AddFields(map[], fields));
    IntsPointwise(Held(fields, 273));
    IntsPointwise(Held(fields, 279));
  }

  lemma HeaderParses(file: seq<Byte>, e: Endian)
    requires |file| >= 8 && NumberAt(file, e, 2, false, 42)
    requires file[..2] == if e.Little? then [0x49, 0x49] else [0x4D, 0x4D]
    ensures Parse(file) == ParseIfd(file, e, LongAt(file, e, 4))
  {
    SliceReads(file, e, 2);
    SliceReads(file, e, 4);
    SliceOfRead(file, 0, 8, 0, 2);
    SliceOfRead(file, 0, 8, 2, 4);
    SliceOfRead(file, 0, 8, 4, 8);
    assert file[..2][0] != 0x4D || e.Big?;
  }

  lemma ParseHeldIfd(file: seq<Byte>, e: Endian, ifd: nat, fields: seq<Field>)
    requires NumberAt(file, e, ifd, false, |fields|) && HoldsFields(file, e, ifd + 2, fields)
    ensures ParseIfd(file, e, ifd) == InfoOf(AddFields(map[], fields), e)
  {
    SliceOfRead(file, ifd, 2, 0, 2);
    SliceReads(file, e, ifd);
    HeldFieldsYield(file, e, ifd + 2, fields);
    ParseYielded(file, e, ifd + 2, fields, map[]);
  }

  /**
   * For every file whose IFD has these fields, of whatever types and in either byte order: parsing ends as what they
   * hold says. It fails exactly when a value it converts is no integer, or StripOffsets, else StripByteCounts, holds
   * nothing.
   */
  lemma ParseReportsHeld(file: seq<Byte>, e: Endian, fields: seq<Field>)
    requires HoldsTiff(file, e, fields)
    ensures EndsAs(Parse(file), fields, e)
  {
    HeaderParses(file, e);
    ParseHeldIfd(file, e, LongAt(file, e, 4), fields);
    InfoOfTags(fields, e);
  }

  // ---------------------------------------------------------------- what an entry contributes, value by value

  /** A number is itself, a character its digit, a finite float is cut toward zero, and nothing else is an integer. */
  lemma IntsTold(v: Value)
    ensures v.Num? ==> IntOf(v) == Some(v.n)
    ensures v.Chr? ==> (IntOf(v).Some? <==> '0' as int <= v.c <= '9' as int)
    ensures v.Chr? && IntOf(v).Some? ==> IntOf(v).value == v.c - '0' as int
    ensures v.Flt? ==> (IntOf(v).Some? <==> Float32(v.bits).Finite?)
    ensures v.Flt? && IntOf(v).Some? ==>
              var x, n := Float32(v.bits).x, IntOf(v).value as real;
              if x >= 0.0 then 0.0 <= n <= x < n + 1.0 else n - 1.0 < x <= n <= 0.0
  {
  }

  /** Plain text contributes its characters one by one. */
  lemma {:induction false} PlainTextTold(s: seq<Byte>)
    requires forall i | 0 <= i < |s| :: s[i] < 128
    ensures |AsciiChars(s)| == |s| && (forall i | 0 <= i < |s| :: AsciiChars(s)[i] == Chr(s[i]))
  {
    if s != [] { PlainTextTold(s[1..]); }
  }

  /** A byte outside the character set contributes nothing, wherever it stands. */
  lemma {:induction false} OtherByteIgnored(a: seq<Byte>, c: Byte, b: seq<Byte>)
    requires c >= 128
    ensures AsciiChars(a + [c] + b) == AsciiChars(a + b)
  {
    if a == [] {
      assert [] + [c] + b == [c] + b && [] + b == b && ([c] + b)[1..] == b;
    } else {
      OtherByteIgnored(a[1..], c, b);
      assert (a + [c] + b)[1..] == a[1..] + [c] + b && (a + b)[1..] == a[1..] + b;
    }
  }

  lemma {:induction false} NumsTold(values: seq<int>)
    ensures |Nums(values)| == |values| && (forall i | 0 <= i < |values| :: Nums(values)[i] == Num(values[i]))
  {
    if values != [] { NumsTold(values[1..]); }
  }

  lemma {:induction false} FltsTold(patterns: seq<int>)
    requires forall i | 0 <= i < |patterns| :: patterns[i] >= 0
    ensures |Flts(patterns)| == |patterns| && (forall i | 0 <= i < |patterns| :: Flts(patterns)[i] == Flt(patterns[i]))
  {
    if patterns != [] { FltsTold(patterns[1..]); }
  }

  /** What each kind of entry contributes. */
  lemma ContributionTold(c: Content)
    ensures c.Numbers?
       ==> |Decoded(c)| == |c.values| && (forall i | 0 <= i < |c.values| :: Decoded(c)[i] == Num(c.values[i]))
    ensures c.Octets?
       ==> |Decoded(c)| == |c.octets| && (forall i | 0 <= i < |c.octets| :: Decoded(c)[i] == Num(c.octets[i]))
    ensures c.Floats? && (forall i | 0 <= i < |c.patterns| :: c.patterns[i] >= 0) ==>
              |Decoded(c)| == |c.patterns| && (forall i | 0 <= i < |c.patterns| :: Decoded(c)[i] == Flt(c.patterns[i]))
    ensures c.Text? && (forall i | 0 <= i < |c.text| :: c.text[i] < 128) ==>
              |Decoded(c)| == |c.text| && (forall i | 0 <= i < |c.text| :: Decoded(c)[i] == Chr(c.text[i]))
    ensures c.Unknown? || c.Cut? ==> Decoded(c) == []
  {
    match c
    case Numbers(_, values) => NumsTold(values);
    case Octets(s) => NumsTold(s);
    case Floats(patterns) => if forall i | 0 <= i < |patterns| :: patterns[i] >= 0 { FltsTold(patterns); }
    case Text(s, _) => if forall i | 0 <= i < |s| :: s[i] < 128 { PlainTextTold(s); }
    case _ =>
  }

  // ---------------------------------------------------------------- entries the reader does not use

  predicate Used(tag: int) {
    tag in {256, 257, 258, 259, 273, 278, 279, 339}
  }

  lemma {:induction false} LastWithout(before: seq<Field>, f: Field, after: seq<Field>, tag: int)
    requires f.tag != tag
    ensures LastWith(before + [f] + after, tag) == LastWith(before + after, tag)
    decreases |before|
  {
    if before == [] {
      assert [] + [f] + after == [f] + after && ([f] + after)[1..] == after && [] + after == after;
    } else {
      LastWithout(before[1..], f, after, tag);
      assert (before + [f] + after)[1..] == before[1..] + [f] + after && (before + after)[1..] == before[1..] + after;
    }
  }

  /** What is reported is decided by what is held. */
  lemma ReportIsUnique(fields: seq<Field>, others: seq<Field>, e: Endian, r: Result<StripInfo, ParseError>,
                       s: Result<StripInfo, ParseError>)
    requires forall tag | Used(tag) :: Held(fields, tag) == Held(others, tag)
    requires EndsAs(r, fields, e) && EndsAs(s, others, e)
    ensures r == s
  {
    assert Used(256) && Used(257) && Used(258) && Used(259) && Used(273) && Used(278) && Used(279) && Used(339);
    if r.Ok? && s.Ok? {
      assert r.value.stripOffsets == s.value.stripOffsets;
      assert r.value.stripByteCounts == s.value.stripByteCounts;
    }
  }

  /**
   * An entry under a tag the reader does not use, of whatever type and wherever it stands, changes nothing: a file with
   * it and one without it, otherwise holding the same fields, parse alike.
   */
  lemma UnusedEntryChangesNothing(file: seq<Byte>, other: seq<Byte>, e: Endian, before: seq<Field>, f: Field,
                                  after: seq<Field>)
    requires HoldsTiff(file, e, before + [f] + after) && HoldsTiff(other, e, before + after)
    requires f.tag !in {256, 257, 258, 259, 273, 278, 279, 339}
    ensures Parse(file) == Parse(other)
  {
    ParseReportsHeld(file, e, before + [f] + after);
    ParseReportsHeld(other, e, before + after);
    forall tag | Used(tag) ensures Held(before + [f] + after, tag) == Held(before + after, tag) {
      LastWithout(before, f, after, tag);
    }
    ReportIsUnique(before + [f] + after, before + after, e, Parse(file), Parse(other));
  }

  // ---------------------------------------------------------------- every file

  /** The file starts with a TIFF header in this byte order. */
  predicate HasHeader(file: seq<Byte>, e: Endian) {
    |file| >= 8 && file[..2] == OrderMark(e) && NumberAt(file, e, 2, false, 42)
  }

  /** The IFD's count is within the file. */
  predicate HasCount(file: seq<Byte>, e: Endian) {
    HasHeader(file, e) && LongAt(file, e, 4) + 2 <= |file|
  }

  /** All of the IFD's entries are within the file. */
  predicate HasEntries(file: seq<Byte>, e: Endian) {
    HasCount(file, e) && LongAt(file, e, 4) + 2 + 12 * ShortAt(file, e, LongAt(file, e, 4)) <= |file|
  }

  lemma {:induction false} EntriesFitIff(file: seq<Byte>, e: Endian, p: nat, n: nat, tags: Tags)
    ensures ParseEntries(file, e, p, n, tags).Ok? <==> (n == 0 || p + 12 * n <= |file|)
    ensures ParseEntries(file, e, p, n, tags).Err? ==> ParseEntries(file, e, p, n, tags).error == TruncatedEntry
    decreases n
  {
    if n > 0 {
      var entry := ParseEntry(file, e, p);
      EntryFitsIff(file, e, p);
      if entry.Some? { EntriesFitIff(file, e, p + 12, n - 1, tags[entry.value.0 := entry.value.1]); }
    }
  }

  lemma EntryFitsIff(file: seq<Byte>, e: Endian, p: nat)
    ensures ParseEntry(file, e, p).Some? <==> p + 12 <= |file|
  {
  }

  lemma IfdFailsEarlyIff(file: seq<Byte>, e: Endian, ifd: nat)
    ensures ParseIfd(file, e, ifd) == Err(IncompleteEntryCount) <==> ifd + 2 > |file|
    ensures ifd + 2 <= |file| ==>
              (ParseIfd(file, e, ifd) == Err(TruncatedEntry) <==> ifd + 2 + 12 * ShortAt(file, e, ifd) > |file|)
    ensures ParseIfd(file, e, ifd) !in {Err(IncompleteHeader), Err(BadByteOrder), Err(BadMagic)}
  {
    if ifd + 2 <= |file| {
      SliceReads(file, e, ifd);
      EntriesFitIff(file, e, ifd + 2, ShortAt(file, e, ifd), map[]);
    }
  }

  /** The errors before any value is converted, each exactly when the bytes call for it. */
  lemma FailsEarlyIff(file: seq<Byte>)
    ensures Parse(file) == Err(IncompleteHeader) <==> |file| < 8
    ensures Parse(file) == Err(BadByteOrder) <==> |file| >= 8 && file[..2] != [0x49, 0x49] && file[..2] != [0x4D, 0x4D]
    ensures Parse(file) == Err(BadMagic)
       <==> |file| >= 8 && ((file[..2] == [0x49, 0x49] && file[2..4] != [42, 0])
                            || (file[..2] == [0x4D, 0x4D] && file[2..4] != [0, 42]))
    ensures Parse(file) == Err(IncompleteEntryCount) <==> (exists e :: HasHeader(file, e) && !HasCount(file, e))
    ensures Parse(file) == Err(TruncatedEntry) <==> (exists e :: HasCount(file, e) && !HasEntries(file, e))
  {
    if |file| >= 8 {
      SliceOfRead(file, 0, 8, 0, 2);
      SliceOfRead(file, 0, 8, 2, 4);
      SliceOfRead(file, 0, 8, 4, 8);
      var e := if file[..2] == [0x49, 0x49] then Little else Big;
      MagicIs(file[2..4], e);
      SliceReads(file, e, 2);
      SliceReads(file, e, 4);
      IfdFailsEarlyIff(file, e, LongAt(file, e, 4));
      OneOrder(file);
      assert HasHeader(file, e) <==> file[..2] == OrderMark(e) && U16(e, file[2..4]) == 42;
    }
  }

  lemma MagicIs(s: seq<Byte>, e: Endian)
    requires |s| == 2
    ensures U16(e, s) == 42 <==> s == (if e.Little? then [42, 0] else [0, 42])
  {
    var lo, hi: int := if e.Little? then s[0] else s[1], if e.Little? then s[1] else s[0];
    assert U16(e, s) == lo + 0x100 * hi;
  }

  lemma OneOrder(file: seq<Byte>)
    ensures !(HasHeader(file, Little) && HasHeader(file, Big))
  {
    if HasHeader(file, Little) { assert file[..2][0] == 0x49; }
  }

  lemma {:induction false} NumbersExist(file: seq<Byte>, e: Endian, p: nat, isLong: bool, n: nat)
    returns (values: seq<int>)
    requires p + Size(isLong, n) <= |file|
    ensures |values| == n && NumbersAt(file, e, p, isLong, values)
    decreases n
  {
    if n == 0 {
      values := [];
    } else {
      var rest := NumbersExist(file, e, p + Width(isLong), isLong, n - 1);
      values := [if isLong then LongAt(file, e, p) else ShortAt(file, e, p)] + rest;
    }
  }

  lemma {:induction false} TextExists(s: seq<Byte>) returns (text: seq<Byte>, nuls: nat)
    ensures s == text + Nuls(nuls) && (text == [] || text[|text| - 1] != 0)
    decreases |s|
  {
    if s == [] || s[|s| - 1] != 0 {
      text, nuls := s, 0;
    } else {
      text, nuls := TextExists(s[..|s| - 1]);
      nuls := nuls + 1;
      assert s == s[..|s| - 1] + [0];
    }
  }

  lemma ContentExists(file: seq<Byte>, e: Endian, p: nat, t: int, n: nat) returns (c: Content)
    requires t !in {1, 2, 3, 4, 11} || PayloadSize(t, n) > 4 || p + PayloadSize(t, n) <= |file|
    ensures FieldType(c) == t && CountOf(c) == n && HoldsContent(file, e, p, c)
  {
    if t !in {1, 2, 3, 4, 11} {
      c := Unknown(t, n);
    } else if p + PayloadSize(t, n) > |file| {
      c := Cut(t, n);
    } else if t == 1 {
      c := Octets(file[p..p + n]);
    } else if t == 2 {
      var text, nuls := TextExists(file[p..p + n]);
      c := Text(text, nuls);
    } else {
      var values := NumbersExist(file, e, p, t != 3, n);
      c := if t == 11 then Floats(values) else Numbers(t == 4, values);
    }
  }

  lemma {:induction false} FieldsExist(file: seq<Byte>, e: Endian, p: nat, n: nat) returns (fields: seq<Field>)
    requires p + 12 * n <= |file|
    ensures |fields| == n && HoldsFields(file, e, p, fields)
    decreases n
  {
    if n == 0 {
      fields := [];
    } else {
      var t, count := ShortAt(file, e, p + 2), LongAt(file, e, p + 4);
      var c := ContentExists(file, e, if PayloadSize(t, count) <= 4 then p + 8 else LongAt(file, e, p + 8), t, count);
      var rest := FieldsExist(file, e, p + 12, n - 1);
      fields := [Field(ShortAt(file, e, p), c)] + rest;
    }
  }

  /** Every file the parser does not reject early holds some fields, so what it answers is told by them. */
  lemma EveryIfdHolds(file: seq<Byte>, e: Endian) returns (fields: seq<Field>)
    requires HasEntries(file, e)
    ensures HoldsTiff(file, e, fields) && EndsAs(Parse(file), fields, e)
  {
    var ifd := LongAt(file, e, 4);
    fields := FieldsExist(file, e, ifd + 2, ShortAt(file, e, ifd));
    ParseReportsHeld(file, e, fields);
  }

  // ---------------------------------------------------------------- files of numbers

  /** The numbers of the last entry with this tag; none when it holds something else. */
  function Written(fields: seq<Field>, tag: int): seq<int> {
    var last := LastWith(fields, tag);
    if last.Some? && last.value.Numbers? then last.value.values else []
  }

  function FirstWritten(fields: seq<Field>, tag: int, default: int): int {
    var vs := Written(fields, tag);
    if vs == [] then default else vs[0]
  }

  function InfoWritten(fields: seq<Field>, e: Endian): StripInfo {
    StripInfo(Written(fields, 273), Written(fields, 279), FirstWritten(fields, 278, 1), e,
              FirstWritten(fields, 256, 0), FirstWritten(fields, 257, 0), FirstWritten(fields, 258, 0),
              FirstWritten(fields, 259, 1), FirstWritten(fields, 339, 0))
  }

  /** The tags the reader uses hold SHORT or LONG numbers, if anything. */
  ghost predicate UsedHoldNumbers(fields: seq<Field>) {
    forall tag | Used(tag) :: LastWith(fields, tag).None? || LastWith(fields, tag).value.Numbers?
  }

  lemma HeldNumbers(fields: seq<Field>, tag: int)
    requires UsedHoldNumbers(fields) && Used(tag)
    ensures |Held(fields, tag)| == |Written(fields, tag)|
    ensures forall i | 0 <= i < |Held(fields, tag)| :: Held(fields, tag)[i] == Num(Written(fields, tag)[i])
  {
    NumsTold(Written(fields, tag));
  }

  function WrittenResult(fields: seq<Field>, e: Endian): Result<StripInfo, ParseError> {
    if Written(fields, 273) == [] then Err(MissingStripOffsets)
    else if Written(fields, 279) == [] then Err(MissingStripByteCounts)
    else Ok(InfoWritten(fields, e))
  }

  lemma WrittenReadable(fields: seq<Field>, tag: int, default: int)
    requires UsedHoldNumbers(fields) && Used(tag)
    ensures AllInts(Held(fields, tag)) && FirstInt(Held(fields, tag))
    ensures AreInts(Written(fields, tag), Held(fields, tag))
    ensures IsFirst(FirstWritten(fields, tag, default), Held(fields, tag), default)
    ensures Held(fields, tag) == [] <==> Written(fields, tag) == []
  {
    HeldNumbers(fields, tag);
  }

  lemma NumbersEndAs(fields: seq<Field>, e: Endian)
    requires UsedHoldNumbers(fields)
    ensures EndsAs(WrittenResult(fields, e), fields, e)
  {
    WrittenReadable(fields, 273, 0);
    WrittenReadable(fields, 279, 0);
    WrittenReadable(fields, 278, 1);
    WrittenReadable(fields, 256, 0);
    WrittenReadable(fields, 257, 0);
    WrittenReadable(fields, 258, 0);
    WrittenReadable(fields, 259, 1);
    WrittenReadable(fields, 339, 0);
  }

  /**
   * Round trip, for every layout section 2 of TIFF Revision 6.0 allows, in either byte order and among whatever other
   * entries: when the tags the reader uses hold SHORT or LONG numbers, parsing gives back exactly these, and fails only
   * when StripOffsets or StripByteCounts holds none.
   */
  lemma ParseReturnsWritten(file: seq<Byte>, e: Endian, fields: seq<Field>)
    requires HoldsTiff(file, e, fields) && UsedHoldNumbers(fields)
    ensures Parse(file)
         == if Written(fields, 273) == [] then Err(MissingStripOffsets)
            else if Written(fields, 279) == [] then Err(MissingStripByteCounts)
            else Ok(InfoWritten(fields, e))
  {
    ParseReportsHeld(file, e, fields);
    NumbersEndAs(fields, e);
    ReportIsUnique(fields, fields, e, Parse(file), WrittenResult(fields, e));
  }
}
