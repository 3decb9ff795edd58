/** Elevation tiles: metadata preparation, point-to-pixel mapping and strip-addressed pixel reads. */
module Raster {
  import opened Common
  import opened Tiff
  import opened Singles

  const FLOAT32_BYTES := 4
  const MAX_ELEVATION := 10000.0

  /** One entry of the tile registry. */
  datatype TileMeta = TileMeta(path: string, lonMin: real, lonMax: real, latMin: real, latMax: real,
                               originLon: real, originLat: real, pixelDeg: real, width: nat, height: nat)

  datatype Tile = Tile(meta: TileMeta, resolved: bool, available: bool,
                       stripOffsets: seq<int>, stripByteCounts: seq<int>, rowsPerStrip: int, endian: Endian)

  // ---------------------------------------------------------------- preparing tiles

  function CeilDiv(a: nat, b: nat): nat
    requires b > 0
  {
    (a + b - 1) / b
  }

  /** The prepared form of one registry entry; `file` is its content, or nothing when it is not on disk. */
  function Prepare(meta: TileMeta, file: Option<seq<Byte>>): Tile {
    if file.None? then Tile(meta, false, false, [], [], 1, Little)
    else
      match Parse(file.value)
      case Err(_) => Tile(meta, true, false, [], [], 1, Little)
      case Ok(info) =>
        var rows := if info.rowsPerStrip < 1 then 1 else info.rowsPerStrip;
        Tile(meta, true, |info.stripOffsets| >= CeilDiv(meta.height, rows),
             info.stripOffsets, info.stripByteCounts, rows, info.endian)
  }

  function Lookup(disk: map<string, seq<Byte>>, path: string): Option<seq<Byte>> {
    if path in disk then Some(disk[path]) else None
  }

  function CountAvailable(tiles: seq<Tile>): nat {
    if tiles == [] then 0
    else CountAvailable(tiles[..|tiles| - 1]) + if tiles[|tiles| - 1].available then 1 else 0
  }

  /** The tiles are the registry's entries, each in prepared form. */
  ghost predicate ArePrepared(tiles: seq<Tile>, registry: seq<TileMeta>, disk: map<string, seq<Byte>>) {
    |tiles| == |registry|
    && (forall i | 0 <= i < |tiles| :: tiles[i] == Prepare(registry[i], Lookup(disk, registry[i].path)))
  }

  lemma PrepareOneMore(tiles: seq<Tile>, tile: Tile, registry: seq<TileMeta>, disk: map<string, seq<Byte>>, i: nat)
    requires i < |registry| && ArePrepared(tiles, registry[..i], disk)
    requires tile == Prepare(registry[i], Lookup(disk, registry[i].path))
    ensures ArePrepared(tiles + [tile], registry[..i + 1], disk)
  {
    var more, metas := tiles + [tile], registry[..i + 1];
    forall j | 0 <= j < |more| ensures more[j] == Prepare(metas[j], Lookup(disk, metas[j].path)) {
      if j < i { assert metas[j] == registry[..i][j] && more[j] == tiles[j]; }
    }
  }

  /** The metadata cache of the module. */
  class DemCache {
    var initialized: bool
    var tiles: seq<Tile>
    var availableTiles: nat

    constructor ()
      ensures !initialized && tiles == [] && availableTiles == 0
    {
      initialized, tiles, availableTiles := false, [], 0;
    }

    /** One tile's metadata, read from its file if there is one. */
    method PrepareTile(meta: TileMeta, disk: map<string, seq<Byte>>) returns (tile: Tile)
      ensures tile == Prepare(meta, Lookup(disk, meta.path))
    {
      tile := Tile(meta, false, false, [], [], 1, Little);
      if meta.path in disk {
        tile := tile.(resolved := true);
        var info := DetectStripOffset(disk[meta.path]);
        if info.Ok? {
          var rows := if info.value.rowsPerStrip < 1 then 1 else info.value.rowsPerStrip;
          tile := tile.(stripOffsets := info.value.stripOffsets, stripByteCounts := info.value.stripByteCounts,
                        rowsPerStrip := rows, endian := info.value.endian);
          if |tile.stripOffsets| >= CeilDiv(meta.height, rows) {
            tile := tile.(available := true);
          }
        }
      }
    }

    /** Every tile's metadata, and how many tiles are available. */
    method PrepareTiles(registry: seq<TileMeta>, disk: map<string, seq<Byte>>)
      returns (prepared: seq<Tile>, available: nat)
      ensures ArePrepared(prepared, registry, disk) && available == CountAvailable(prepared)
    {
      prepared, available := [], 0;
      for i := 0 to |registry|
        invariant available == CountAvailable(prepared) && ArePrepared(prepared, registry[..i], disk)
      {
        var tile := PrepareTile(registry[i], disk);
        if tile.available {
          available := available + 1;
        }
        PrepareOneMore(prepared, tile, registry, disk, i);
        assert (prepared + [tile])[..i] == prepared;
        prepared := prepared + [tile];
      }
      assert registry[..|registry|] == registry;
    }

    /** Reads every tile's metadata once; later calls change nothing, whatever is then on disk. */
    method InitializeDem(registry: seq<TileMeta>, disk: map<string, seq<Byte>>)
      modifies this
      ensures initialized
      ensures old(initialized) ==> tiles == old(tiles) && availableTiles == old(availableTiles)
      ensures !old(initialized) ==> ArePrepared(tiles, registry, disk) && availableTiles == CountAvailable(tiles)
    {
      if initialized {
        return;
      }
      tiles, availableTiles := PrepareTiles(registry, disk);
      initialized := true;
    }
  }

  // ---------------------------------------------------------------- reading pixels

  /** Byte offset of an element in rows of `width` four-byte elements. */
  function Element(width: nat, row: nat, col: nat): nat {
    (row * width + col) * FLOAT32_BYTES
  }

  /** Where a pixel's four bytes start, or nothing when the strip tables do not cover it. */
  function PixelOffset(t: Tile, row: nat, col: nat): Option<int> {
    var rows := if t.rowsPerStrip < 1 then 1 else t.rowsPerStrip;
    var strip, rowInStrip := row / rows, row % rows;
    if strip >= |t.stripOffsets| then None
    else if strip < |t.stripByteCounts|
            && t.stripByteCounts[strip] < Element(t.meta.width, rowInStrip, col) + FLOAT32_BYTES then None
    else Some(t.stripOffsets[strip] + Element(t.meta.width, rowInStrip, col))
  }

  /** The elevation of a pixel: nothing for unreadable, non-finite or implausibly large values. */
  function ReadPixel(t: Tile, row: nat, col: nat, file: seq<Byte>): Option<real> {
    var at := PixelOffset(t, row, col);
    if at.None? || at.value < 0 then None
    else
      var payload := Read(file, at.value, FLOAT32_BYTES);
      if |payload| != FLOAT32_BYTES then None else Plausible(Float32(U32(t.endian, payload)))
  }

  function Plausible(v: Float): Option<real> {
    if v.NonFinite? || Abs(v.x) > MAX_ELEVATION then None else Some(v.x)
  }

  // ---------------------------------------------------------------- agreement with a row-major raster

  /** Rows held by a strip: all of them but possibly fewer in the last. */
  function StripRows(t: Tile, s: nat): nat
    requires t.rowsPerStrip >= 1
  {
    var first := s * t.rowsPerStrip;
    if first >= t.meta.height then 0
    else if first + t.rowsPerStrip <= t.meta.height then t.rowsPerStrip
    else t.meta.height - first
  }

  function RowBytes(t: Tile, rows: nat): nat {
    Element(t.meta.width, rows, 0)
  }

  function StripBytes(t: Tile, s: nat): nat
    requires t.rowsPerStrip >= 1
  {
    RowBytes(t, StripRows(t, s))
  }

  /** The strips lie inside the file and their byte counts cover their rows. */
  ghost predicate Covered(t: Tile, file: seq<Byte>) {
    && t.rowsPerStrip >= 1 && |t.stripOffsets| >= CeilDiv(t.meta.height, t.rowsPerStrip)
    && forall s | 0 <= s < |t.stripOffsets| ::
         && 0 <= t.stripOffsets[s] && t.stripOffsets[s] + StripBytes(t, s) <= |file|
         && (s < |t.stripByteCounts| ==> t.stripByteCounts[s] >= StripBytes(t, s))
  }

  /** The strips 0 .. n-1 laid end to end. */
  ghost function Concatenated(t: Tile, file: seq<Byte>, n: nat): seq<Byte>
    requires Covered(t, file) && n <= |t.stripOffsets|
  {
    if n == 0 then []
    else Concatenated(t, file, n - 1) + file[t.stripOffsets[n - 1]..t.stripOffsets[n - 1] + StripBytes(t, n - 1)]
  }

  /** The whole raster in row-major order. */
  ghost function RasterBytes(t: Tile, file: seq<Byte>): seq<Byte>
    requires Covered(t, file)
  {
    Concatenated(t, file, |t.stripOffsets|)
  }

  function RowsBefore(t: Tile, n: nat): nat
    requires t.rowsPerStrip >= 1
  {
    if n * t.rowsPerStrip <= t.meta.height then n * t.rowsPerStrip else t.meta.height
  }

  lemma RowsBeforeNext(t: Tile, n: nat)
    requires t.rowsPerStrip >= 1
    ensures RowsBefore(t, n + 1) == RowsBefore(t, n) + StripRows(t, n)
  {
    assert (n + 1) * t.rowsPerStrip == n * t.rowsPerStrip + t.rowsPerStrip;
  }

  lemma RowBytesAdd(t: Tile, a: nat, b: nat)
    ensures RowBytes(t, a + b) == RowBytes(t, a) + RowBytes(t, b)
  {
    assert (a + b) * t.meta.width == a * t.meta.width + b * t.meta.width;
  }

  lemma {:induction false} ConcatenatedLength(t: Tile, file: seq<Byte>, n: nat)
    requires Covered(t, file) && n <= |t.stripOffsets|
    ensures |Concatenated(t, file, n)| == RowBytes(t, RowsBefore(t, n))
  {
    if n > 0 {
      ConcatenatedLength(t, file, n - 1);
      RowsBeforeNext(t, n - 1);
      RowBytesAdd(t, RowsBefore(t, n - 1), StripRows(t, n - 1));
    }
  }

  lemma {:induction false} ConcatenatedGrows(t: Tile, file: seq<Byte>, k: nat, n: nat)
    requires Covered(t, file) && k <= n <= |t.stripOffsets|
    ensures Concatenated(t, file, k) <= Concatenated(t, file, n)
  {
    if k < n { ConcatenatedGrows(t, file, k, n - 1); }
  }

  /** Where a pixel lies: its strip exists, its row is in that strip, and the strip starts at a whole number of rows. */
  lemma StripOfRow(t: Tile, row: nat)
    requires t.rowsPerStrip >= 1 && row < t.meta.height
    ensures var s, r := row / t.rowsPerStrip, row % t.rowsPerStrip;
            && s < CeilDiv(t.meta.height, t.rowsPerStrip) && r < StripRows(t, s)
            && RowsBefore(t, s) + r == row
  {
    var k, h := t.rowsPerStrip, t.meta.height;
    var s, r := row / k, row % k;
    assert s * k + r == row;
    BelowCeiling(s, k, h);
  }

  lemma BelowCeiling(s: nat, k: nat, h: nat)
    requires k > 0 && s * k < h
    ensures s < CeilDiv(h, k)
  {
    var c := CeilDiv(h, k);
    assert c * k + (h + k - 1) % k == h + k - 1;
    assert s >= c ==> s * k >= c * k by { if s >= c { assert (s - c) * k >= 0; } }
  }

  lemma ElementShift(w: nat, a: nat, r: nat, c: nat)
    ensures Element(w, a, 0) + Element(w, r, c) == Element(w, a + r, c)
  {
    assert (a + r) * w == a * w + r * w;
  }

  /** Elements are laid out row by row, four bytes each. */
  lemma ElementOrder(w: nat, r: nat, c: nat, r': nat, c': nat)
    requires c < w && (r < r' || (r == r' && c < c'))
    ensures Element(w, r, c) + FLOAT32_BYTES <= Element(w, r', c')
  {
    if r < r' {
      assert r' * w >= (r + 1) * w by { assert (r' - r - 1) * w >= 0; }
      assert (r + 1) * w == r * w + w;
    }
  }

  lemma OffsetInStrip(t: Tile, file: seq<Byte>, row: nat, col: nat)
    requires Covered(t, file) && row < t.meta.height && col < t.meta.width
    ensures var s, r := row / t.rowsPerStrip, row % t.rowsPerStrip;
            && s < |t.stripOffsets|
            && PixelOffset(t, row, col) == Some(t.stripOffsets[s] + Element(t.meta.width, r, col))
            && Element(t.meta.width, r, col) + FLOAT32_BYTES <= StripBytes(t, s)
  {
    var s, r := row / t.rowsPerStrip, row % t.rowsPerStrip;
    StripOfRow(t, row);
    ElementOrder(t.meta.width, r, col, StripRows(t, s), 0);
  }

  /**
   * On a covered tile every in-range pixel has an offset, and the four bytes there are those of element
   * row * width + col of the row-major raster.
   */
  lemma PixelIsRasterElement(t: Tile, file: seq<Byte>, row: nat, col: nat)
    requires Covered(t, file) && row < t.meta.height && col < t.meta.width
    ensures PixelOffset(t, row, col).Some? && PixelOffset(t, row, col).value >= 0
    ensures var at, k := PixelOffset(t, row, col).value, Element(t.meta.width, row, col);
            && at + FLOAT32_BYTES <= |file| && k + FLOAT32_BYTES <= |RasterBytes(t, file)|
            && file[at..at + FLOAT32_BYTES] == RasterBytes(t, file)[k..k + FLOAT32_BYTES]
  {
    var s, r, w := row / t.rowsPerStrip, row % t.rowsPerStrip, t.meta.width;
    OffsetInStrip(t, file, row, col);
    StripOfRow(t, row);
    ConcatenatedLength(t, file, s);
    ElementShift(w, RowsBefore(t, s), r, col);
    ConcatenatedGrows(t, file, s + 1, |t.stripOffsets|);
    StripInRaster(t, file, s, Element(w, r, col));
  }

  lemma StripInRaster(t: Tile, file: seq<Byte>, s: nat, i: nat)
    requires Covered(t, file) && s < |t.stripOffsets| && i + FLOAT32_BYTES <= StripBytes(t, s)
    requires Concatenated(t, file, s + 1) <= RasterBytes(t, file)
    ensures var at, k := t.stripOffsets[s] + i, |Concatenated(t, file, s)| + i;
            && k + FLOAT32_BYTES <= |RasterBytes(t, file)|
            && file[at..at + FLOAT32_BYTES] == RasterBytes(t, file)[k..k + FLOAT32_BYTES]
  {
    PrefixSlice(Concatenated(t, file, s), file, t.stripOffsets[s], StripBytes(t, s), i, FLOAT32_BYTES,
                RasterBytes(t, file));
  }

  lemma PrefixSlice(before: seq<Byte>, file: seq<Byte>, at: nat, n: nat, i: nat, m: nat, whole: seq<Byte>)
    requires at + n <= |file| && i + m <= n && before + file[at..at + n] <= whole
    ensures |before| + i + m <= |whole|
    ensures file[at + i..at + i + m] == whole[|before| + i..|before| + i + m]
  {
    var part := before + file[at..at + n];
    var a, b := file[at + i..at + i + m], whole[|before| + i..|before| + i + m];
    forall k | 0 <= k < m ensures a[k] == b[k] {
      assert whole[|before| + i + k] == part[|before| + i + k] == file[at..at + n][i + k] == file[at + i + k];
    }
  }

  /** Reading a pixel is decoding its row-major element, with non-finite and implausible values dropped. */
  lemma ReadPixelDecodesElement(t: Tile, file: seq<Byte>, row: nat, col: nat)
    requires Covered(t, file) && row < t.meta.height && col < t.meta.width
    ensures var k := Element(t.meta.width, row, col);
            && k + FLOAT32_BYTES <= |RasterBytes(t, file)|
            && ReadPixel(t, row, col, file)
               == Plausible(Float32(U32(t.endian, RasterBytes(t, file)[k..k + FLOAT32_BYTES])))
  {
    PixelIsRasterElement(t, file, row, col);
  }

  /**
   * A finite single written as the four bytes of a row-major element, in the tile's byte order, is what reading that
   * pixel gives back exactly when its magnitude is at most 10000; otherwise the pixel gives nothing.
   */
  lemma ReadPixelReturnsWritten(t: Tile, file: seq<Byte>, row: nat, col: nat, s: Single)
    requires Covered(t, file) && row < t.meta.height && col < t.meta.width && IsFinite(s)
    requires Element(t.meta.width, row, col) + 4 <= |RasterBytes(t, file)|
    requires var k := Element(t.meta.width, row, col);
             Pattern(s) < 0x1_0000_0000 && Spells(RasterBytes(t, file)[k..k + 4], t.endian, Pattern(s))
    ensures ReadPixel(t, row, col, file)
         == if -10000.0 <= NumberOf(s) <= 10000.0 then Some(NumberOf(s)) else None
  {
    var k := Element(t.meta.width, row, col);
    ReadPixelDecodesElement(t, file, row, col);
    FourBytesSpell(RasterBytes(t, file)[k..k + 4], t.endian, Pattern(s));
    PatternDenotes(s);
  }

  /**
   * On any tile, from the file's bytes alone: a pixel in row r of strip s is the finite single that stands, in the
   * tile's byte order, 4 * (r * width + col) bytes into the strip, exactly when its magnitude is at most 10000.
   */
  lemma ReadPixelTold(t: Tile, file: seq<Byte>, row: nat, col: nat, s: nat, r: nat, into: nat, x: Single)
    requires t.rowsPerStrip >= 1 && row == s * t.rowsPerStrip + r && r < t.rowsPerStrip
    requires s < |t.stripOffsets| && into == 4 * (r * t.meta.width + col)
    requires s < |t.stripByteCounts| ==> t.stripByteCounts[s] >= into + 4
    requires 0 <= t.stripOffsets[s] + into && t.stripOffsets[s] + into + 4 <= |file|
    requires IsFinite(x) && Pattern(x) < 0x1_0000_0000
    requires Spells(file[t.stripOffsets[s] + into..t.stripOffsets[s] + into + 4], t.endian, Pattern(x))
    ensures ReadPixel(t, row, col, file)
         == if -10000.0 <= NumberOf(x) <= 10000.0 then Some(NumberOf(x)) else None
  {
    var at := t.stripOffsets[s] + into;
    StripAndRow(row, t.rowsPerStrip, s, r);
    FourBytesSpell(file[at..at + 4], t.endian, Pattern(x));
    PatternDenotes(x);
  }

  lemma StripAndRow(row: nat, k: nat, s: nat, r: nat)
    requires k >= 1 && row == s * k + r && r < k
    ensures row / k == s && row % k == r
  {
    var q := row / k;
    if q > s { OneRowMore(s, q, k); } else if q < s { OneRowMore(q, s, k); }
  }

  lemma OneRowMore(a: int, b: int, k: int)
    requires a < b && k >= 1
    ensures a * k + k <= b * k
  {
    assert (b - a - 1) * k >= 0;
  }

  /** Infinities and NaNs give nothing. */
  lemma ReadPixelDropsNonFinite(t: Tile, file: seq<Byte>, row: nat, col: nat, sign: int, f: int)
    requires Covered(t, file) && row < t.meta.height && col < t.meta.width
    requires (sign == 0 || sign == 1) && 0 <= f < 0x80_0000
    requires Element(t.meta.width, row, col) + 4 <= |RasterBytes(t, file)|
    requires var k := Element(t.meta.width, row, col);
             Spells(RasterBytes(t, file)[k..k + 4], t.endian, sign * 0x8000_0000 + 255 * 0x80_0000 + f)
    ensures ReadPixel(t, row, col, file) == None
  {
    var k := Element(t.meta.width, row, col);
    ReadPixelDecodesElement(t, file, row, col);
    FourBytesSpell(RasterBytes(t, file)[k..k + 4], t.endian, sign * 0x8000_0000 + 255 * 0x80_0000 + f);
    NonFiniteDenotes(sign, f);
  }

  /** A pixel is not read when its strip is missing, counts too few bytes, or ends before it in the file. */
  lemma UncoveredPixelGivesNothing(t: Tile, file: seq<Byte>, row: nat, col: nat)
    requires t.rowsPerStrip >= 1
    requires var s, r := row / t.rowsPerStrip, row % t.rowsPerStrip;
             || s >= |t.stripOffsets|
             || (s < |t.stripByteCounts| && t.stripByteCounts[s] < 4 * (r * t.meta.width + col + 1))
             || t.stripOffsets[s] + 4 * (r * t.meta.width + col + 1) > |file|
    ensures ReadPixel(t, row, col, file) == None
  {
  }

  /** How a tile is prepared from its file, told by what parsing it reports. */
  lemma PreparedTold(meta: TileMeta, file: Option<seq<Byte>>)
    ensures var t := Prepare(meta, file);
            && t.meta == meta && (t.resolved <==> file.Some?)
            && (file.None? || Parse(file.value).Err? ==>
                  !t.available && t.stripOffsets == [] && t.stripByteCounts == [])
            && (file.Some? && Parse(file.value).Ok? ==>
                  var info := Parse(file.value).value;
                  && t.stripOffsets == info.stripOffsets && t.stripByteCounts == info.stripByteCounts
                  && t.endian == info.endian && t.rowsPerStrip >= 1
                  && (info.rowsPerStrip >= 1 ==> t.rowsPerStrip == info.rowsPerStrip)
                  && (info.rowsPerStrip < 1 ==> t.rowsPerStrip == 1)
                  && (t.available <==> |info.stripOffsets| * t.rowsPerStrip >= meta.height))
  {
    if file.Some? && Parse(file.value).Ok? {
      var t := Prepare(meta, file);
      CeilingReached(meta.height, t.rowsPerStrip, |t.stripOffsets|);
    }
  }

  lemma CeilingReached(h: nat, r: int, n: nat)
    requires r >= 1
    ensures n >= CeilDiv(h, r) <==> n * r >= h
  {
    var c := CeilDiv(h, r);
    assert (c - 1) * r < h <= c * r;
    if n >= c { TimesGrows(c, n, r); } else { TimesGrows(n, c - 1, r); }
  }

  lemma TimesGrows(a: int, b: int, r: int)
    requires a <= b && r >= 1
    ensures a * r <= b * r
  {
  }

  ghost predicate StripsDisjoint(t: Tile)
    requires t.rowsPerStrip >= 1
  {
    forall i, j | 0 <= i < j < |t.stripOffsets| ::
      || t.stripOffsets[i] + StripBytes(t, i) <= t.stripOffsets[j]
      || t.stripOffsets[j] + StripBytes(t, j) <= t.stripOffsets[i]
  }

  /** A pixel's strip and row within it, as facts free of division. */
  lemma Locate(t: Tile, file: seq<Byte>, row: nat, col: nat) returns (s: nat, r: nat)
    requires Covered(t, file) && row < t.meta.height && col < t.meta.width
    ensures s < |t.stripOffsets| && s * t.rowsPerStrip + r == row
    ensures PixelOffset(t, row, col) == Some(t.stripOffsets[s] + Element(t.meta.width, r, col))
    ensures Element(t.meta.width, r, col) + FLOAT32_BYTES <= StripBytes(t, s)
  {
    OffsetInStrip(t, file, row, col);
    s, r := row / t.rowsPerStrip, row % t.rowsPerStrip;
  }

  /** With disjoint strips, different pixels never share a byte. */
  lemma PixelsDisjoint(t: Tile, file: seq<Byte>, row: nat, col: nat, row': nat, col': nat)
    requires Covered(t, file) && StripsDisjoint(t)
    requires row < t.meta.height && col < t.meta.width && row' < t.meta.height && col' < t.meta.width
    requires (row, col) != (row', col')
    ensures var a, b := PixelOffset(t, row, col), PixelOffset(t, row', col');
            a.Some? && b.Some? && ApartBy4(a.value, b.value)
  {
    var s, r := Locate(t, file, row, col);
    var s', r' := Locate(t, file, row', col');
    PlacesDisjoint(t, s, r, col, s', r', col');
  }

  predicate ApartBy4(a: int, b: int) {
    a + FLOAT32_BYTES <= b || b + FLOAT32_BYTES <= a
  }

  lemma PlacesDisjoint(t: Tile, s: nat, r: nat, col: nat, s': nat, r': nat, col': nat)
    requires t.rowsPerStrip >= 1 && StripsDisjoint(t) && s < |t.stripOffsets| && s' < |t.stripOffsets|
    requires col < t.meta.width && col' < t.meta.width
    requires s * t.rowsPerStrip + r != s' * t.rowsPerStrip + r' || col != col'
    requires Element(t.meta.width, r, col) + FLOAT32_BYTES <= StripBytes(t, s)
    requires Element(t.meta.width, r', col') + FLOAT32_BYTES <= StripBytes(t, s')
    ensures ApartBy4(t.stripOffsets[s] + Element(t.meta.width, r, col),
                     t.stripOffsets[s'] + Element(t.meta.width, r', col'))
  {
    if s != s' {
      AcrossStripsDisjoint(t, s, Element(t.meta.width, r, col), s', Element(t.meta.width, r', col'));
    } else if r < r' || (r == r' && col < col') {
      ElementOrder(t.meta.width, r, col, r', col');
    } else {
      ElementOrder(t.meta.width, r', col', r, col);
    }
  }

  lemma AcrossStripsDisjoint(t: Tile, s: nat, i: nat, s': nat, j: nat)
    requires t.rowsPerStrip >= 1 && StripsDisjoint(t) && s < |t.stripOffsets| && s' < |t.stripOffsets| && s != s'
    requires i + FLOAT32_BYTES <= StripBytes(t, s) && j + FLOAT32_BYTES <= StripBytes(t, s')
    ensures ApartBy4(t.stripOffsets[s] + i, t.stripOffsets[s'] + j)
  {
    var lo, hi := if s < s' then s else s', if s < s' then s' else s;
    assert t.stripOffsets[lo] + StripBytes(t, lo) <= t.stripOffsets[hi]
        || t.stripOffsets[hi] + StripBytes(t, hi) <= t.stripOffsets[lo];
  }

  // ---------------------------------------------------------------- points to pixels

  /** math.isclose with the default relative tolerance and an absolute one. */
  predicate IsClose(a: real, b: real, absTol: real) {
    Abs(a - b) <= Max(0.000000001 * Max(Abs(a), Abs(b)), absTol)
  }

  /** The index of an offset along one axis; one past the end is pulled back when it is close to the far edge. */
  function AxisIndex(offset: real, pixelDeg: real, size: nat, nearEdge: bool): int
    requires pixelDeg > 0.0
  {
    var i := Truncate(offset / pixelDeg);
    if i == size && nearEdge then size - 1 else i
  }

  predicate InBox(m: TileMeta, lat: real, lon: real) {
    m.lonMin <= lon <= m.lonMax && m.latMin <= lat <= m.latMax
  }

  function ColAt(m: TileMeta, lon: real): int
    requires m.pixelDeg > 0.0
  {
    AxisIndex(lon - m.originLon, m.pixelDeg, m.width, IsClose(lon, m.lonMax, m.pixelDeg))
  }

  function RowAt(m: TileMeta, lat: real): int
    requires m.pixelDeg > 0.0
  {
    AxisIndex(m.originLat - lat, m.pixelDeg, m.height, IsClose(lat, m.latMin, m.pixelDeg))
  }

  function LatLonToRowCol(m: TileMeta, lat: real, lon: real): Option<(nat, nat)>
    requires m.pixelDeg > 0.0
  {
    if !InBox(m, lat, lon) then None
    else
      var row, col := RowAt(m, lat), ColAt(m, lon);
      if row < 0 || col < 0 || row >= m.height || col >= m.width then None else Some((row, col))
  }

  /** The origin is the box's north-west corner and the grid is not empty. */
  ghost predicate Aligned(m: TileMeta) {
    && m.pixelDeg > 0.0 && m.width > 0 && m.height > 0
    && m.originLon == m.lonMin <= m.lonMax && m.originLat == m.latMax >= m.latMin
  }

  /** The box spans less than one pixel more than the grid, in both directions. */
  predicate GridReaches(m: TileMeta) {
    m.lonMax - m.lonMin < (m.width + 1) as real * m.pixelDeg
    && m.latMax - m.latMin < (m.height + 1) as real * m.pixelDeg
  }

  lemma Quotient(d: real, p: real, n: int)
    requires p > 0.0
    ensures d / p < n as real <==> d < n as real * p
  {
    var q := d / p;
    assert q * p == d;
    if q < n as real { assert (n as real - q) * p > 0.0; } else { assert (q - n as real) * p >= 0.0; }
  }

  /** Along one axis: the index is the pixel containing the offset, or the last pixel within one pixel past the grid. */
  lemma AxisInside(d: real, span: real, p: real, size: nat, near: bool)
    requires p > 0.0 && size > 0 && 0.0 <= d <= span < (size + 1) as real * p
    requires span - d <= p ==> near
    ensures Covers(AxisIndex(d, p, size, near), d, p, size)
  {
    var k := (d / p).Floor;
    Quotient(d, p, size + 1);
    Quotient(d, p, size);
    Quotient(d, p, 0);
    Quotient(d, p, k);
    Quotient(d, p, k + 1);
    assert (size + 1) as real * p == size as real * p + p;
  }

  lemma AxisOutside(d: real, p: real, size: nat, near: bool)
    requires p > 0.0 && size > 0 && d >= (size + 1) as real * p
    ensures AxisIndex(d, p, size, near) > size
  {
    Quotient(d, p, size + 1);
    Quotient(d, p, 0);
    assert (size + 1) as real * p > 0.0;
  }

  /** Pixel i of `size` covers distance d from the origin, or is the last one and d is past the grid. */
  predicate Covers(i: int, d: real, p: real, size: nat) {
    && 0 <= i < size
    && (d < size as real * p ==> i as real * p <= d < (i + 1) as real * p)
    && (d >= size as real * p ==> i == size - 1)
  }

  lemma ColInside(m: TileMeta, lon: real)
    requires Aligned(m) && GridReaches(m) && m.lonMin <= lon <= m.lonMax
    ensures Covers(ColAt(m, lon), lon - m.lonMin, m.pixelDeg, m.width)
  {
    AxisInside(lon - m.lonMin, m.lonMax - m.lonMin, m.pixelDeg, m.width, IsClose(lon, m.lonMax, m.pixelDeg));
  }

  lemma RowInside(m: TileMeta, lat: real)
    requires Aligned(m) && GridReaches(m) && m.latMin <= lat <= m.latMax
    ensures Covers(RowAt(m, lat), m.latMax - lat, m.pixelDeg, m.height)
  {
    AxisInside(m.latMax - lat, m.latMax - m.latMin, m.pixelDeg, m.height, IsClose(lat, m.latMin, m.pixelDeg));
  }

  /** Every point of the closed box, far edges included, maps to the in-range pixel that covers it. */
  lemma BoxPointHasPixel(m: TileMeta, lat: real, lon: real)
    requires Aligned(m) && GridReaches(m) && InBox(m, lat, lon)
    ensures LatLonToRowCol(m, lat, lon).Some?
    ensures Covers(LatLonToRowCol(m, lat, lon).value.0, m.latMax - lat, m.pixelDeg, m.height)
    ensures Covers(LatLonToRowCol(m, lat, lon).value.1, lon - m.lonMin, m.pixelDeg, m.width)
  {
    ColInside(m, lon);
    RowInside(m, lat);
  }

  /** Exactly when the grid reaches the box's edges does every point of the closed box have a pixel. */
  lemma AllBoxPointsIff(m: TileMeta)
    requires Aligned(m)
    ensures (forall lat: real, lon: real | InBox(m, lat, lon) :: LatLonToRowCol(m, lat, lon).Some?) <==> GridReaches(m)
  {
    if GridReaches(m) {
      forall lat: real, lon: real | InBox(m, lat, lon) ensures LatLonToRowCol(m, lat, lon).Some? {
        BoxPointHasPixel(m, lat, lon);
      }
    } else {
      assert InBox(m, m.latMin, m.lonMax);
      if m.lonMax - m.lonMin >= (m.width + 1) as real * m.pixelDeg {
        AxisOutside(m.lonMax - m.lonMin, m.pixelDeg, m.width, IsClose(m.lonMax, m.lonMax, m.pixelDeg));
      } else {
        AxisOutside(m.latMax - m.latMin, m.pixelDeg, m.height, IsClose(m.latMin, m.latMin, m.pixelDeg));
      }
      assert LatLonToRowCol(m, m.latMin, m.lonMax).None?;
    }
  }

  /** The three registered tiles, 3333 pixels a side over a quarter degree, all reach their edges. */
  lemma RegistryReaches(m: TileMeta)
    requires m.width == 3333 && m.height == 3333 && m.pixelDeg == 0.00007500750075007501
    requires m.lonMax - m.lonMin == 0.25 && m.latMax - m.latMin == 0.25
    ensures GridReaches(m)
  {
  }
}
