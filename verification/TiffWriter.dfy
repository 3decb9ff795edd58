/** A writer of the files the strip-metadata reader reads, and the round trip between them. */
module TiffWriter {
  import opened Tiff

  predicate InRange(isLong: bool, values: seq<int>) {
    forall i | 0 <= i < |values| :: 0 <= values[i] < if isLong then 0x1_0000_0000 else 0x1_0000
  }

  /** Content that can be written: of a known type, and in full. */
  predicate Storable(c: Content) {
    match c
    case Numbers(isLong, values) => InRange(isLong, values)
    case Octets(_) => true
    case Text(s, _) => s == [] || s[|s| - 1] != 0
    case Floats(patterns) => InRange(true, patterns)
    case Unknown(_, _) => false
    case Cut(_, _) => false
  }

  predicate ValidField(f: Field) {
    0 <= f.tag < 0x1_0000 && CountOf(f.content) < 0x1_0000_0000 && Storable(f.content)
  }

  lemma TwoBytes(e: Endian, n: int) returns (s: seq<Byte>)
    requires 0 <= n < 0x1_0000
    ensures |s| == 2 && U16(e, s) == n
  {
    var lo, hi: Byte := n % 0x100, n / 0x100;
    s := if e.Little? then [lo, hi] else [hi, lo];
  }

  lemma FourBytes(e: Endian, n: int) returns (s: seq<Byte>)
    requires 0 <= n < 0x1_0000_0000
    ensures |s| == 4 && U32(e, s) == n
  {
    var a, b: Byte := ByteOf(n, 0), ByteOf(n, 1);
    var c, d: Byte := ByteOf(n, 2), ByteOf(n, 3);
    s := if e.Little? then [a, b, c, d] else [d, c, b, a];
    FourDigits(a, b, c, d, n);
  }

  lemma BytesExist(e: Endian, n: int)
    requires 0 <= n < 0x1_0000_0000
    ensures n < 0x1_0000 ==> exists s: seq<Byte> :: |s| == 2 && U16(e, s) == n
    ensures exists s: seq<Byte> :: |s| == 4 && U32(e, s) == n
  {
    if n < 0x1_0000 { var two := TwoBytes(e, n); }
    var four := FourBytes(e, n);
  }

  /** The two bytes that read as n. */
  ghost function Put16(e: Endian, n: int): (s: seq<Byte>)
    requires 0 <= n < 0x1_0000
    ensures |s| == 2 && U16(e, s) == n
  {
    BytesExist(e, n);
    var s: seq<Byte> :| |s| == 2 && U16(e, s) == n;
    s
  }

  /** The four bytes that read as n. */
  ghost function Put32(e: Endian, n: int): (s: seq<Byte>)
    requires 0 <= n < 0x1_0000_0000
    ensures |s| == 4 && U32(e, s) == n
  {
    BytesExist(e, n);
    var s: seq<Byte> :| |s| == 4 && U32(e, s) == n;
    s
  }

  /** The writer's numbers, byte by byte. */
  lemma PutSpells(e: Endian, n: int)
    requires 0 <= n < 0x1_0000_0000
    ensures Spells(Put32(e, n), e, n)
    ensures n < 0x1_0000 ==> Spells(Put16(e, n), e, n)
  {
    FourBytesSpell(Put32(e, n), e, n);
    if n < 0x1_0000 { TwoBytesSpell(Put16(e, n), e, n); }
  }

  ghost function NumbersPayload(e: Endian, isLong: bool, values: seq<int>): (s: seq<Byte>)
    requires InRange(isLong, values)
    ensures |s| == Size(isLong, |values|)
  {
    if values == [] then []
    else (if isLong then Put32(e, values[0]) else Put16(e, values[0])) + NumbersPayload(e, isLong, values[1..])
  }

  ghost function Payload(e: Endian, c: Content): (s: seq<Byte>)
    requires Storable(c)
    ensures |s| == PayloadSize(FieldType(c), CountOf(c))
  {
    match c
    case Numbers(isLong, values) => NumbersPayload(e, isLong, values)
    case Octets(s) => s
    case Text(s, nuls) => s + Nuls(nuls)
    case Floats(patterns) => NumbersPayload(e, true, patterns)
  }

  lemma AtSplit(file: seq<Byte>, p: nat, a: seq<Byte>, b: seq<Byte>)
    requires At(file, p, a + b)
    ensures At(file, p, a) && At(file, p + |a|, b)
  {
    SliceOfSlice(file, p, |a + b|, 0, |a|);
    SliceOfSlice(file, p, |a + b|, |a|, |a + b|);
    assert (a + b)[0..|a|] == a && (a + b)[|a|..|a + b|] == b;
  }

  lemma {:induction false} NumbersHold(file: seq<Byte>, e: Endian, p: nat, isLong: bool, values: seq<int>)
    requires InRange(isLong, values) && At(file, p, NumbersPayload(e, isLong, values))
    ensures NumbersAt(file, e, p, isLong, values)
    decreases |values|
  {
    if values != [] {
      var head := if isLong then Put32(e, values[0]) else Put16(e, values[0]);
      AtSplit(file, p, head, NumbersPayload(e, isLong, values[1..]));
      SliceReads(file, e, p);
      NumbersHold(file, e, p + Width(isLong), isLong, values[1..]);
    }
  }

  lemma PayloadHolds(file: seq<Byte>, e: Endian, p: nat, c: Content)
    requires Storable(c) && At(file, p, Payload(e, c))
    ensures HoldsContent(file, e, p, c)
  {
    match c
    case Numbers(isLong, values) => NumbersHold(file, e, p, isLong, values);
    case Floats(patterns) => NumbersHold(file, e, p, true, patterns);
    case _ =>
  }

  predicate AllValid(fields: seq<Field>) {
    forall i | 0 <= i < |fields| :: ValidField(fields[i])
  }

  /** The out-of-line bytes of a field: its payload when that exceeds 4 bytes, else nothing. */
  ghost function OutOfLine(e: Endian, f: Field): seq<Byte>
    requires ValidField(f)
  {
    var data := Payload(e, f.content);
    if |data| <= 4 then [] else data
  }

  /** The value field: the payload padded to 4 bytes, or the offset of the out-of-line bytes. */
  ghost function ValueField(e: Endian, f: Field, at: nat): (s: seq<Byte>)
    requires ValidField(f)
    ensures |s| == 4
  {
    var data := Payload(e, f.content);
    if |data| <= 4 then data + [0, 0, 0, 0][|data|..] else Put32(e, if at < 0x1_0000_0000 then at else 0)
  }

  ghost function EntryHead(e: Endian, f: Field): (s: seq<Byte>)
    requires ValidField(f)
    ensures |s| == 8
  {
    Put16(e, f.tag) + Put16(e, FieldType(f.content)) + Put32(e, CountOf(f.content))
  }

  /** One field as written: the two halves of its entry, its out-of-line bytes and where they start. */
  datatype Part = Part(head: seq<Byte>, value: seq<Byte>, out: seq<Byte>, at: nat)

  ghost function PartOf(e: Endian, f: Field, at: nat): Part
    requires ValidField(f)
  {
    Part(EntryHead(e, f), ValueField(e, f, at), OutOfLine(e, f), at)
  }

  /** The out-of-line bytes of a field, counted. */
  function OutSize(c: Content): nat
    requires CountOf(c) >= 0
  {
    if PayloadSize(FieldType(c), CountOf(c)) <= 4 then 0 else PayloadSize(FieldType(c), CountOf(c))
  }

  /** Where each field's out-of-line bytes start, one after another from `at` on. */
  function Offsets(fields: seq<Field>, at: nat): (offsets: seq<nat>)
    requires forall i | 0 <= i < |fields| :: CountOf(fields[i].content) >= 0
    ensures |offsets| == |fields|
  {
    if fields == [] then [] else [at] + Offsets(fields[1..], at + OutSize(fields[0].content))
  }

  lemma {:induction false} OffsetsFollow(fields: seq<Field>, at: nat)
    requires forall i | 0 <= i < |fields| :: CountOf(fields[i].content) >= 0
    ensures fields != [] ==> Offsets(fields, at)[0] == at
    ensures forall k | 0 <= k < |fields| - 1 ::
              Offsets(fields, at)[k + 1] == Offsets(fields, at)[k] + OutSize(fields[k].content)
    decreases |fields|
  {
    if fields != [] {
      var next := at + OutSize(fields[0].content);
      OffsetsFollow(fields[1..], next);
      forall k | 0 <= k < |fields| - 1
        ensures Offsets(fields, at)[k + 1] == Offsets(fields, at)[k] + OutSize(fields[k].content)
      {
        assert Offsets(fields, at)[k + 1] == Offsets(fields[1..], next)[k];
        if k > 0 { assert Offsets(fields, at)[k] == Offsets(fields[1..], next)[k - 1]; }
      }
    }
  }

  lemma CountsNonnegative(fields: seq<Field>)
    requires AllValid(fields)
    ensures forall i | 0 <= i < |fields| :: CountOf(fields[i].content) >= 0
  {
    forall i | 0 <= i < |fields| ensures CountOf(fields[i].content) >= 0 { assert ValidField(fields[i]); }
  }

  /** The fields as written, out-of-line bytes one after another from `at` on. */
  ghost function Parts(e: Endian, fields: seq<Field>, at: nat): seq<Part>
    requires AllValid(fields)
  {
    CountsNonnegative(fields);
    var offsets := Offsets(fields, at);
    seq(|fields|, k requires 0 <= k < |fields| => PartOf(e, fields[k], offsets[k]))
  }

  /** Each part is its field as written. */
  ghost predicate ArePartsOf(parts: seq<Part>, e: Endian, fields: seq<Field>)
    requires AllValid(fields)
  {
    |parts| == |fields| && (forall k | 0 <= k < |parts| :: parts[k] == PartOf(e, fields[k], parts[k].at))
  }

  /** The out-of-line bytes start at `at` and follow each other without gaps. */
  ghost predicate Chained(parts: seq<Part>, at: nat) {
    && (parts != [] ==> parts[0].at == at)
    && (forall k | 0 <= k < |parts| - 1 :: parts[k + 1].at == parts[k].at + |parts[k].out|)
  }

  lemma PartSized(e: Endian, f: Field, at: nat)
    requires ValidField(f) && CountOf(f.content) >= 0
    ensures var part := PartOf(e, f, at);
            |part.head| == 8 && |part.value| == 4 && part.at == at && |part.out| == OutSize(f.content)
  {
  }

  lemma PartsAre(e: Endian, fields: seq<Field>, at: nat)
    requires AllValid(fields)
    ensures var parts := Parts(e, fields, at); ArePartsOf(parts, e, fields) && Sized(parts) && Chained(parts, at)
  {
    CountsNonnegative(fields);
    OffsetsFollow(fields, at);
    var parts, offsets := Parts(e, fields, at), Offsets(fields, at);
    forall k | 0 <= k < |fields|
      ensures parts[k].at == offsets[k] && |parts[k].out| == OutSize(fields[k].content)
      ensures |parts[k].head| == 8 && |parts[k].value| == 4
    {
      PartSized(e, fields[k], offsets[k]);
    }
  }

  predicate Sized(parts: seq<Part>) {
    forall i | 0 <= i < |parts| :: |parts[i].head| == 8 && |parts[i].value| == 4
  }

  function Entries(parts: seq<Part>): (s: seq<Byte>)
    ensures Sized(parts) ==> |s| == 12 * |parts|
  {
    if parts == [] then [] else parts[0].head + (parts[0].value + Entries(parts[1..]))
  }

  function Data(parts: seq<Part>): seq<Byte> {
    if parts == [] then [] else parts[0].out + Data(parts[1..])
  }

  /** Header, one IFD at offset 8, the end-of-chain marker, then the out-of-line values in order. */
  ghost function Write(e: Endian, fields: seq<Field>): seq<Byte>
    requires AllValid(fields) && |fields| < 0x1_0000
  {
    Join(OrderMark(e), Put16(e, 42), Put32(e, 8), Put16(e, |fields|),
         Entries(Parts(e, fields, 14 + 12 * |fields|)), Data(Parts(e, fields, 14 + 12 * |fields|)))
  }

  function Join(order: seq<Byte>, magic: seq<Byte>, ifd: seq<Byte>, count: seq<Byte>, entries: seq<Byte>,
                data: seq<Byte>): seq<Byte> {
    order + (magic + (ifd + (count + (entries + ([0, 0, 0, 0] + data)))))
  }

  lemma JoinedInPlace(order: seq<Byte>, magic: seq<Byte>, ifd: seq<Byte>, count: seq<Byte>, entries: seq<Byte>,
                      data: seq<Byte>)
    requires |order| == |magic| == |count| == 2 && |ifd| == 4
    ensures var file := Join(order, magic, ifd, count, entries, data);
            && |file| >= 14 && At(file, 0, order) && At(file, 2, magic) && At(file, 4, ifd) && At(file, 8, count)
            && At(file, 10, entries) && At(file, 14 + |entries|, data)
  {
    var file := Join(order, magic, ifd, count, entries, data);
    var rest5 := [0, 0, 0, 0] + data;
    var rest4 := entries + rest5;
    var rest3 := count + rest4;
    var rest2 := ifd + rest3;
    assert At(file, 0, order + (magic + rest2));
    AtSplit(file, 0, order, magic + rest2);
    AtSplit(file, 2, magic, rest2);
    AtSplit(file, 4, ifd, rest3);
    AtSplit(file, 8, count, rest4);
    AtSplit(file, 10, entries, rest5);
    AtSplit(file, 10 + |entries|, [0, 0, 0, 0], data);
  }

  lemma HeadHolds(file: seq<Byte>, e: Endian, p: nat, f: Field)
    requires ValidField(f) && At(file, p, EntryHead(e, f))
    ensures NumberAt(file, e, p, false, f.tag) && NumberAt(file, e, p + 2, false, FieldType(f.content))
    ensures NumberAt(file, e, p + 4, true, CountOf(f.content))
  {
    AtSplit(file, p, Put16(e, f.tag) + Put16(e, FieldType(f.content)), Put32(e, CountOf(f.content)));
    AtSplit(file, p, Put16(e, f.tag), Put16(e, FieldType(f.content)));
    SliceReads(file, e, p);
    SliceReads(file, e, p + 2);
    SliceReads(file, e, p + 4);
  }

  lemma ValuesHold(file: seq<Byte>, e: Endian, q: nat, f: Field, at: nat)
    requires ValidField(f) && |file| < 0x1_0000_0000
    requires At(file, q, ValueField(e, f, at)) && At(file, at, OutOfLine(e, f))
    ensures var n := PayloadSize(FieldType(f.content), CountOf(f.content));
            HoldsContent(file, e, if n <= 4 then q else LongAt(file, e, q), f.content)
  {
    var data := Payload(e, f.content);
    if |data| <= 4 {
      AtSplit(file, q, data, [0, 0, 0, 0][|data|..]);
      PayloadHolds(file, e, q, f.content);
    } else {
      SliceReads(file, e, q);
      PayloadHolds(file, e, at, f.content);
    }
  }

  lemma EntryHolds(file: seq<Byte>, e: Endian, p: nat, f: Field, at: nat)
    requires ValidField(f) && |file| < 0x1_0000_0000
    requires At(file, p, EntryHead(e, f)) && At(file, p + 8, ValueField(e, f, at)) && At(file, at, OutOfLine(e, f))
    ensures HoldsField(file, e, p, f)
  {
    HeadHolds(file, e, p, f);
    ValuesHold(file, e, p + 8, f, at);
  }

  /** Entries stand one after another from p on, and the out-of-line bytes where they should. */
  ghost predicate InPlace(file: seq<Byte>, p: nat, parts: seq<Part>) {
    forall k: nat | k < |parts| :: PartAt(file, p + 12 * k, parts[k])
  }

  predicate PartAt(file: seq<Byte>, q: nat, part: Part) {
    At(file, q, part.head) && At(file, q + 8, part.value) && At(file, part.at, part.out)
  }

  lemma {:induction false} PartsInPlace(file: seq<Byte>, p: nat, at: nat, parts: seq<Part>)
    requires Sized(parts) && Chained(parts, at) && At(file, p, Entries(parts)) && At(file, at, Data(parts))
    ensures InPlace(file, p, parts)
    decreases |parts|
  {
    if parts != [] {
      AtSplitThree(file, p, parts[0].head, parts[0].value, Entries(parts[1..]));
      AtSplit(file, at, parts[0].out, Data(parts[1..]));
      ChainTail(parts, at);
      PartsInPlace(file, p + 12, at + |parts[0].out|, parts[1..]);
      forall k: nat | k < |parts| ensures PartAt(file, p + 12 * k, parts[k]) {
        if k > 0 { assert PartAt(file, p + 12 + 12 * (k - 1), parts[1..][k - 1]); }
      }
    }
  }

  lemma ChainTail(parts: seq<Part>, at: nat)
    requires parts != [] && Chained(parts, at)
    ensures Chained(parts[1..], at + |parts[0].out|)
  {
    forall k | 0 <= k < |parts| - 2 ensures parts[1..][k + 1].at == parts[1..][k].at + |parts[1..][k].out| {
      assert parts[(k + 1) + 1].at == parts[k + 1].at + |parts[k + 1].out|;
    }
    if |parts| > 1 { assert parts[0 + 1].at == parts[0].at + |parts[0].out|; }
  }

  lemma AtSplitThree(file: seq<Byte>, p: nat, a: seq<Byte>, b: seq<Byte>, c: seq<Byte>)
    requires At(file, p, a + (b + c))
    ensures At(file, p, a) && At(file, p + |a|, b) && At(file, p + |a| + |b|, c)
  {
    AtSplit(file, p, a, b + c);
    AtSplit(file, p + |a|, b, c);
  }

  lemma PartHolds(file: seq<Byte>, e: Endian, q: nat, f: Field, part: Part)
    requires ValidField(f) && part == PartOf(e, f, part.at) && |file| < 0x1_0000_0000 && PartAt(file, q, part)
    ensures HoldsField(file, e, q, f)
  {
    EntryHolds(file, e, q, f, part.at);
  }

  lemma {:induction false} EachHolds(file: seq<Byte>, e: Endian, p: nat, fields: seq<Field>)
    requires forall k: nat | k < |fields| :: HoldsField(file, e, p + 12 * k, fields[k])
    ensures HoldsFields(file, e, p, fields)
    decreases |fields|
  {
    if fields != [] {
      assert HoldsField(file, e, p + 12 * 0, fields[0]);
      forall k: nat | k < |fields| - 1 ensures HoldsField(file, e, p + 12 + 12 * k, fields[1..][k]) {
        assert HoldsField(file, e, p + 12 * (k + 1), fields[k + 1]);
      }
      EachHolds(file, e, p + 12, fields[1..]);
    }
  }

  lemma EntriesHold(file: seq<Byte>, e: Endian, p: nat, fields: seq<Field>, parts: seq<Part>)
    requires AllValid(fields) && |file| < 0x1_0000_0000 && ArePartsOf(parts, e, fields) && InPlace(file, p, parts)
    ensures HoldsFields(file, e, p, fields)
  {
    forall k: nat | k < |fields| ensures HoldsField(file, e, p + 12 * k, fields[k]) {
      assert PartAt(file, p + 12 * k, parts[k]);
      PartHolds(file, e, p + 12 * k, fields[k], parts[k]);
    }
    EachHolds(file, e, p, fields);
  }

  lemma HeaderHolds(file: seq<Byte>, e: Endian, count: nat)
    requires count < 0x1_0000 && |file| >= 14 && At(file, 0, OrderMark(e))
    requires At(file, 2, Put16(e, 42)) && At(file, 4, Put32(e, 8)) && At(file, 8, Put16(e, count))
    ensures file[..2] == OrderMark(e) && LongAt(file, e, 4) == 8
    ensures NumberAt(file, e, 2, false, 42) && NumberAt(file, e, 8, false, count)
  {
    SliceReads(file, e, 2);
    SliceReads(file, e, 4);
    SliceReads(file, e, 8);
  }

  lemma JoinedHolds(file: seq<Byte>, e: Endian, fields: seq<Field>, parts: seq<Part>)
    requires AllValid(fields) && |fields| < 0x1_0000 && |file| < 0x1_0000_0000
    requires ArePartsOf(parts, e, fields) && Sized(parts) && Chained(parts, 14 + 12 * |fields|)
    requires file == Join(OrderMark(e), Put16(e, 42), Put32(e, 8), Put16(e, |fields|), Entries(parts), Data(parts))
    ensures HoldsTiff(file, e, fields)
  {
    JoinedInPlace(OrderMark(e), Put16(e, 42), Put32(e, 8), Put16(e, |fields|), Entries(parts), Data(parts));
    HeaderHolds(file, e, |fields|);
    PartsInPlace(file, 10, 14 + 12 * |fields|, parts);
    EntriesHold(file, e, 10, fields, parts);
  }

  /** What the writer produces is a file that holds the fields given to it. */
  lemma WrittenHolds(e: Endian, fields: seq<Field>)
    requires AllValid(fields) && |fields| < 0x1_0000 && |Write(e, fields)| < 0x1_0000_0000
    ensures HoldsTiff(Write(e, fields), e, fields)
  {
    var start := 14 + 12 * |fields|;
    PartsAre(e, fields, start);
    JoinedHolds(Write(e, fields), e, fields, Parts(e, fields, start));
  }

  /**
   * Round trip: in either byte order, what the writer produces is read back as the fields given to it, of whatever
   * types; numbers under the tags the reader uses come back as they were given.
   */
  lemma WriteThenParse(e: Endian, fields: seq<Field>)
    requires AllValid(fields) && |fields| < 0x1_0000 && |Write(e, fields)| < 0x1_0000_0000
    ensures HoldsTiff(Write(e, fields), e, fields)
    ensures EndsAs(Parse(Write(e, fields)), fields, e)
    ensures UsedHoldNumbers(fields) ==> Parse(Write(e, fields)) == WrittenResult(fields, e)
  {
    WrittenHolds(e, fields);
    ParseReportsHeld(Write(e, fields), e, fields);
    if UsedHoldNumbers(fields) { ParseReturnsWritten(Write(e, fields), e, fields); }
  }
}
