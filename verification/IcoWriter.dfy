/** apps/web/scripts/gen-icons.js: the ICO file and its 32-bit images, written field by field into
    preallocated buffers. */
module IcoWriter {
  import opened Wrappers

  type byte = x: int | 0 <= x < 256

  /******* Little-endian fields *******/

  function Le(v: nat, n: nat): (r: seq<byte>)
    ensures |r| == n
  {
    if n == 0 then [] else [v % 256] + Le(v / 256, n - 1)
  }

  function FromLe(s: seq<byte>): nat {
    if s == [] then 0 else s[0] + 256 * FromLe(s[1..])
  }

  function Range(n: nat): nat {
    if n == 0 then 1 else 256 * Range(n - 1)
  }

  /** What a field of n bytes gives back: the value, exactly when it is in the field's range. */
  lemma {:induction false} FieldRoundTrip(v: nat, n: nat)
    ensures FromLe(Le(v, n)) == v <==> v < Range(n)
    ensures FromLe(Le(v, n)) <= v
  {
    if n > 0 {
      FieldRoundTrip(v / 256, n - 1);
      assert Le(v, n)[1..] == Le(v / 256, n - 1);
    }
  }

  const U8: nat := 256
  const U16: nat := 65536
  const U32: nat := 4294967296

  lemma Ranges()
    ensures Range(1) == U8 && Range(2) == U16 && Range(4) == U32
  {
  }

  /******* One image *******/

  /** RGBA to BGRA and back, pixel by pixel from the end. */
  function Swap(t: seq<byte>): (r: seq<byte>)
    ensures |r| == |t|
  {
    if |t| < 4 then t
    else
      var n := |t| - 4;
      Swap(t[..n]) + [t[n + 2], t[n + 1], t[n], t[n + 3]]
  }

  /** Where row n begins in an image w bytes wide: n * w, counted up. */
  function Rows(n: nat, w: nat): nat {
    if n == 0 then 0 else Rows(n - 1, w) + w
  }

  lemma {:induction false} RowsIsProduct(n: nat, w: nat)
    ensures Rows(n, w) == n * w
  {
    if n > 0 {
      RowsIsProduct(n - 1, w);
      assert n * w == (n - 1) * w + w;
    }
  }

  lemma {:induction false} RowInside(w: nat, k: nat, h: nat)
    requires k < h
    ensures Rows(k, w) + w <= Rows(h, w)
  {
    if k < h - 1 {
      RowInside(w, k, h - 1);
    }
  }

  /** Row k of an image h rows high, w bytes wide. */
  function Row(t: seq<byte>, w: nat, h: nat, k: nat): (r: seq<byte>)
    requires |t| == Rows(h, w) && k < h
    ensures |r| == w
  {
    RowInside(w, k, h);
    t[Rows(k, w)..Rows(k, w) + w]
  }

  /** The first n rows of the flipped, swapped image: row y is row h - 1 - y of the input. */
  function FlipRows(t: seq<byte>, w: nat, h: nat, n: nat): (r: seq<byte>)
    requires |t| == Rows(h, w) && n <= h
    ensures |r| == Rows(n, w)
  {
    if n == 0 then [] else FlipRows(t, w, h, n - 1) + Swap(Row(t, w, h, h - n))
  }

  function Flip(t: seq<byte>, w: nat, h: nat): (r: seq<byte>)
    requires |t| == Rows(h, w)
    ensures |r| == Rows(h, w)
  {
    FlipRows(t, w, h, h)
  }

  lemma {:induction false} FlippedRow(t: seq<byte>, w: nat, h: nat, n: nat, k: nat)
    requires |t| == Rows(h, w) && n <= h && k < n
    ensures Rows(k, w) + w <= Rows(n, w)
    ensures FlipRows(t, w, h, n)[Rows(k, w)..Rows(k, w) + w] == Swap(Row(t, w, h, h - 1 - k))
  {
    RowInside(w, k, n);
    var front, last := FlipRows(t, w, h, n - 1), Swap(Row(t, w, h, h - n));
    assert FlipRows(t, w, h, n) == front + last;
    if k < n - 1 {
      FlippedRow(t, w, h, n - 1, k);
      SliceOfFront(front, last, Rows(k, w), Rows(k, w) + w);
    } else {
      SliceOfLast(front, last);
    }
  }

  lemma SliceOfLast(front: seq<byte>, last: seq<byte>)
    ensures (front + last)[|front|..|front| + |last|] == last
  {
  }

  lemma SliceOfFront(front: seq<byte>, last: seq<byte>, i: nat, j: nat)
    requires i <= j <= |front|
    ensures (front + last)[i..j] == front[i..j]
  {
  }

  lemma {:induction false} RowsGrow(m: nat, n: nat, w: nat)
    requires m <= n
    ensures Rows(m, w) <= Rows(n, w)
  {
    if m < n {
      RowsGrow(m, n - 1, w);
    }
  }

  lemma SplitAt(t: seq<byte>, i: nat, j: nat)
    requires i <= j <= |t|
    ensures t[..j] == t[..i] + t[i..j]
  {
  }

  /** Bytes of one row of the 1-bit mask, padded to four. */
  function MaskRow(s: nat): nat {
    (s + 31) / 32 * 4
  }

  function Zeros(n: nat): (r: seq<byte>)
    ensures |r| == n && forall i :: 0 <= i < n ==> r[i] == 0
  {
    seq(n, _ => 0)
  }

  /** Planes, bit depth, compression, and the size of both bitmaps; the other 16 bytes stay zero. */
  function HeaderRest(s: nat): (r: seq<byte>)
    ensures |r| == 28
  {
    Le(1, 2) + Le(32, 2) + Le(0, 4) + Le(Rows(s, s * 4) + Rows(s, MaskRow(s)), 4) + Zeros(16)
  }

  function Header(s: nat): (r: seq<byte>)
    ensures |r| == 40
  {
    Le(40, 4) + Le(s, 4) + Le(s * 2, 4) + HeaderRest(s)
  }

  function Dib(rgba: seq<byte>, s: nat): (r: seq<byte>)
    requires |rgba| == Rows(s, s * 4)
    ensures |r| == 40 + Rows(s, s * 4) + Rows(s, MaskRow(s))
  {
    Header(s) + Flip(rgba, s * 4, s) + Zeros(Rows(s, MaskRow(s)))
  }

  /** One pixel of the inner loop. */
  method SwapPixel(rgba: array<byte>, xor: array<byte>, i: nat, o: nat)
    requires rgba != xor && i + 4 <= rgba.Length && o + 4 <= xor.Length
    modifies xor
    ensures xor[..o + 4] == old(xor[..o]) + [rgba[i + 2], rgba[i + 1], rgba[i], rgba[i + 3]]
  {
    xor[o], xor[o + 1], xor[o + 2], xor[o + 3] := rgba[i + 2], rgba[i + 1], rgba[i], rgba[i + 3];
  }

  /** The inner loop: the row at src, swapped, into the row at dst. */
  method SwapRow(rgba: array<byte>, xor: array<byte>, src: nat, dst: nat, s: nat)
    requires rgba != xor && src + s * 4 <= rgba.Length && dst + s * 4 <= xor.Length
    modifies xor
    ensures xor[..dst + s * 4] == old(xor[..dst]) + Swap(rgba[src..src + s * 4])
  {
    ghost var row, above := rgba[src..src + s * 4], xor[..dst];
    var x := 0;
    while x < s
      invariant 0 <= x <= s
      invariant xor[..dst + x * 4] == above + Swap(row[..x * 4])
    {
      SwapPixel(rgba, xor, src + x * 4, dst + x * 4);
      SwapOneMore(row, x);
      x := x + 1;
    }
    assert row[..s * 4] == row;
  }

  lemma RowStarts(s: nat, w: nat, y: nat)
    requires y < s
    ensures (s - 1 - y) * w == Rows(s - 1 - y, w) && Rows(s - 1 - y, w) + w <= Rows(s, w)
    ensures y * w == Rows(y, w) && Rows(y, w) + w <= Rows(s, w) && Rows(y, w) + w == Rows(y + 1, w)
  {
    RowInside(w, y, s);
    RowInside(w, s - 1 - y, s);
    RowsIsProduct(y, w);
    RowsIsProduct(s - 1 - y, w);
  }

  /** One turn of the outer loop: row y of the bitmap is row s - 1 - y of the input. */
  method FlipRow(rgba: array<byte>, xor: array<byte>, s: nat, y: nat)
    requires rgba != xor && rgba.Length == xor.Length == Rows(s, s * 4) && y < s
    modifies xor
    ensures Rows(y, s * 4) <= Rows(y + 1, s * 4) <= xor.Length
    ensures xor[..Rows(y + 1, s * 4)] == old(xor[..Rows(y, s * 4)]) + Swap(Row(rgba[..], s * 4, s, s - 1 - y))
  {
    hide Swap;
    var rowBytes := s * 4;
    RowStarts(s, rowBytes, y);
    var src, dst := (s - 1 - y) * rowBytes, y * rowBytes;
    assert rgba[src..src + rowBytes] == Row(rgba[..], rowBytes, s, s - 1 - y);
    SwapRow(rgba, xor, src, dst, s);
  }

  /** The outer loop: bottom-up. */
  method FlipInto(rgba: array<byte>, xor: array<byte>, s: nat)
    requires rgba != xor && rgba.Length == xor.Length == Rows(s, s * 4)
    modifies xor
    ensures xor[..] == Flip(rgba[..], s * 4, s)
  {
    hide Swap, Row;
    var y := 0;
    while y < s
      invariant 0 <= y <= s && Rows(y, s * 4) <= xor.Length
      invariant xor[..Rows(y, s * 4)] == FlipRows(rgba[..], s * 4, s, y)
    {
      FlipRow(rgba, xor, s, y);
      y := y + 1;
    }
    assert xor[..] == xor[..Rows(s, s * 4)];
  }

  /** The height is a signed field, and counts both bitmaps; their size is an unsigned one. */
  predicate DibFits(s: nat) {
    s * 2 < 0x8000_0000 && Rows(s, s * 4) + Rows(s, MaskRow(s)) < U32
  }

  /** dibEntry; None is the RangeError of a header field that does not fit. */
  method DibEntry(rgba: array<byte>, s: nat) returns (data: Option<seq<byte>>)
    requires rgba.Length == Rows(s, s * 4)
    ensures data == if DibFits(s) then Some(Dib(rgba[..], s)) else None
  {
    var rowBytes := s * 4;
    RowsIsProduct(s, rowBytes);
    var xor := new byte[rowBytes * s];
    FlipInto(rgba, xor, s);
    var mask := Zeros(Rows(s, MaskRow(s)));
    if s * 2 >= 0x8000_0000 || xor.Length + |mask| >= U32 {
      return None;
    }
    data := Some(Header(s) + xor[..] + mask);
  }

  lemma SwapOneMore(row: seq<byte>, x: nat)
    requires x * 4 + 4 <= |row|
    ensures Swap(row[..x * 4 + 4]) == Swap(row[..x * 4]) + [row[x * 4 + 2], row[x * 4 + 1], row[x * 4], row[x * 4 + 3]]
  {
    assert row[..x * 4 + 4][..x * 4] == row[..x * 4];
  }

  /******* Where each byte goes *******/

  lemma {:induction false} SwapPlaces(t: seq<byte>, x: nat)
    requires |t| % 4 == 0 && x * 4 + 4 <= |t|
    ensures var r := Swap(t);
            && r[x * 4] == t[x * 4 + 2] && r[x * 4 + 1] == t[x * 4 + 1]
            && r[x * 4 + 2] == t[x * 4] && r[x * 4 + 3] == t[x * 4 + 3]
  {
    if x * 4 + 4 < |t| {
      SwapPlaces(t[..|t| - 4], x);
    }
  }

  lemma RowPlaces(t: seq<byte>, w: nat, h: nat, y: nat, i: nat)
    requires |t| == Rows(h, w) && y < h && i < w
    ensures Rows(y, w) + w <= Rows(h, w) && Rows(h - 1 - y, w) + w <= Rows(h, w)
    ensures Flip(t, w, h)[Rows(h - 1 - y, w) + i] == Swap(Row(t, w, h, y))[i]
  {
    hide Swap, FlipRows;
    RowInside(w, y, h);
    RowInside(w, h - 1 - y, h);
    FlippedRow(t, w, h, h, h - 1 - y);
    var from := Rows(h - 1 - y, w);
    assert Flip(t, w, h)[from..from + w][i] == Flip(t, w, h)[from + i];
  }

  /** The pixel in column x of row y is the one in column x of row y from the bottom, its bytes in
      the order blue, green, red, alpha. */
  lemma EveryPixelIsPlaced(rgba: seq<byte>, s: nat, x: nat, y: nat)
    requires |rgba| == Rows(s, s * 4) && x < s && y < s
    ensures var from, to := Rows(y, s * 4) + x * 4, Rows(s - 1 - y, s * 4) + x * 4;
            var f := Flip(rgba, s * 4, s);
            && from + 4 <= |rgba| && to + 4 <= |f|
            && f[to] == rgba[from + 2] && f[to + 1] == rgba[from + 1]
            && f[to + 2] == rgba[from] && f[to + 3] == rgba[from + 3]
  {
    hide Swap, Flip;
    var w := s * 4;
    RowInside(w, y, s);
    RowPlaces(rgba, w, s, y, x * 4);
    RowPlaces(rgba, w, s, y, x * 4 + 1);
    RowPlaces(rgba, w, s, y, x * 4 + 2);
    RowPlaces(rgba, w, s, y, x * 4 + 3);
    SwapPlaces(Row(rgba, w, s, y), x);
  }

  /******* Reading an image back *******/

  /** The pixel in column x of row y, counted from the top, as the format stores it: rows from the bottom
      up, blue first. */
  function PixelAt(bitmap: seq<byte>, s: nat, x: nat, y: nat): (r: seq<byte>)
    requires |bitmap| == Rows(s, s * 4) && x < s && y < s
    ensures |r| == 4
  {
    RowInside(s * 4, s - 1 - y, s);
    var at := Rows(s - 1 - y, s * 4) + x * 4;
    [bitmap[at + 2], bitmap[at + 1], bitmap[at], bitmap[at + 3]]
  }

  function ReadRow(bitmap: seq<byte>, s: nat, y: nat, n: nat): seq<byte>
    requires |bitmap| == Rows(s, s * 4) && y < s && n <= s
  {
    if n == 0 then [] else ReadRow(bitmap, s, y, n - 1) + PixelAt(bitmap, s, n - 1, y)
  }

  function ReadRows(bitmap: seq<byte>, s: nat, n: nat): seq<byte>
    requires |bitmap| == Rows(s, s * 4) && n <= s
  {
    if n == 0 then [] else ReadRows(bitmap, s, n - 1) + ReadRow(bitmap, s, n - 1, s)
  }

  /** A BITMAPINFOHEADER of one uncompressed plane with 32 bits a pixel, for an image of s columns and twice s
      rows whose bitmaps fill the rest of the data; the fields behind that are zero. */
  predicate DescribesIcon(data: seq<byte>, s: nat)
    requires |data| >= 40
  {
    && FromLe(data[..4]) == 40 && FromLe(data[4..8]) == s && FromLe(data[8..12]) == 2 * s
    && FromLe(data[12..14]) == 1 && FromLe(data[14..16]) == 32 && FromLe(data[16..20]) == 0
    && FromLe(data[20..24]) == |data| - 40
    && forall i :: 24 <= i < 40 ==> data[i] == 0
  }

  /** A decoder written from the format: the size from byte 4, then pixel by pixel; the mask behind the
      pixels has to be zero. */
  function DecodeDib(data: seq<byte>): Option<seq<byte>> {
    if |data| < 40 then None
    else
      var s := FromLe(data[4..8]);
      if !DescribesIcon(data, s) || |data| < 40 + Rows(s, s * 4) then None
      else if exists i :: 40 + Rows(s, s * 4) <= i < |data| && data[i] != 0 then None
      else Some(ReadRows(data[40..40 + Rows(s, s * 4)], s, s))
  }

  lemma PixelReadsBack(rgba: seq<byte>, s: nat, x: nat, y: nat)
    requires |rgba| == Rows(s, s * 4) && x < s && y < s
    ensures Rows(y, s * 4) + x * 4 + 4 <= |rgba|
    ensures PixelAt(Flip(rgba, s * 4, s), s, x, y) == rgba[Rows(y, s * 4) + x * 4..Rows(y, s * 4) + x * 4 + 4]
  {
    hide Flip;
    EveryPixelIsPlaced(rgba, s, x, y);
  }

  lemma {:induction false} RowReadsBack(rgba: seq<byte>, s: nat, y: nat, n: nat)
    requires |rgba| == Rows(s, s * 4) && y < s && n <= s
    ensures Rows(y, s * 4) + n * 4 <= |rgba|
    ensures ReadRow(Flip(rgba, s * 4, s), s, y, n) == rgba[Rows(y, s * 4)..Rows(y, s * 4) + n * 4]
  {
    hide Flip, PixelAt;
    RowInside(s * 4, y, s);
    if n > 0 {
      var from := Rows(y, s * 4);
      RowReadsBack(rgba, s, y, n - 1);
      PixelReadsBack(rgba, s, n - 1, y);
      assert rgba[from..from + (n - 1) * 4] + rgba[from + (n - 1) * 4..from + n * 4] == rgba[from..from + n * 4];
    }
  }

  lemma {:induction false} RowsReadBack(rgba: seq<byte>, s: nat, n: nat)
    requires |rgba| == Rows(s, s * 4) && n <= s
    ensures Rows(n, s * 4) <= |rgba| && ReadRows(Flip(rgba, s * 4, s), s, n) == rgba[..Rows(n, s * 4)]
  {
    hide Flip, ReadRow;
    RowsGrow(n, s, s * 4);
    if n > 0 {
      RowsReadBack(rgba, s, n - 1);
      RowReadsBack(rgba, s, n - 1, s);
      SplitAt(rgba, Rows(n - 1, s * 4), Rows(n, s * 4));
    }
  }

  lemma HeaderFields(s: nat)
    requires s <= 256
    ensures FromLe(Header(s)[..4]) == 40 && FromLe(Header(s)[4..8]) == s && FromLe(Header(s)[8..12]) == 2 * s
    ensures Header(s)[12..] == HeaderRest(s)
  {
    Ranges();
    FieldRoundTrip(40, 4);
    FieldRoundTrip(s, 4);
    FieldRoundTrip(s * 2, 4);
    ThreeFields(Le(40, 4), Le(s, 4), Le(s * 2, 4), HeaderRest(s));
  }

  lemma ThreeFields(a: seq<byte>, b: seq<byte>, c: seq<byte>, rest: seq<byte>)
    requires |a| == 4 && |b| == 4 && |c| == 4
    ensures var h := a + b + c + rest;
            h[..4] == a && h[4..8] == b && h[8..12] == c && h[12..] == rest
  {
  }

  lemma BitmapsFit(s: nat)
    requires s <= 256
    ensures Rows(s, s * 4) + Rows(s, MaskRow(s)) < U32
  {
    DibLength(s);
    assert 4 * s * s <= 4 * 256 * 256 by { Squares(s, 256); }
    assert 4 * ((s + 31) / 32) * s <= 4 * 8 * 256 by { Products((s + 31) / 32, s, 8, 256); }
  }

  lemma Squares(s: nat, m: nat)
    requires s <= m
    ensures 4 * s * s <= 4 * m * m
  {
    Products(s, s, m, m);
  }

  lemma Products(a: nat, b: nat, m: nat, n: nat)
    requires a <= m && b <= n
    ensures 4 * a * b <= 4 * m * n
  {
    assert a * b <= m * b <= m * n;
  }

  lemma RestFields(s: nat)
    requires s <= 256
    ensures var r := HeaderRest(s);
            && FromLe(r[..2]) == 1 && FromLe(r[2..4]) == 32 && FromLe(r[4..8]) == 0
            && FromLe(r[8..12]) == Rows(s, s * 4) + Rows(s, MaskRow(s))
            && forall i :: 12 <= i < 28 ==> r[i] == 0
  {
    hide Zeros, Le, MaskRow;
    var size := Rows(s, s * 4) + Rows(s, MaskRow(s));
    Ranges();
    BitmapsFit(s);
    FieldRoundTrip(1, 2);
    FieldRoundTrip(32, 2);
    FieldRoundTrip(0, 4);
    FieldRoundTrip(size, 4);
    FiveParts(Le(1, 2), Le(32, 2), Le(0, 4), Le(size, 4), Zeros(16));
  }

  lemma FiveParts(a: seq<byte>, b: seq<byte>, c: seq<byte>, d: seq<byte>, e: seq<byte>)
    requires |a| == 2 && |b| == 2 && |c| == 4 && |d| == 4
    ensures var r := a + b + c + d + e;
            && r[..2] == a && r[2..4] == b && r[4..8] == c && r[8..12] == d
            && forall i :: 0 <= i < |e| ==> r[12 + i] == e[i]
  {
  }

  lemma HeaderDescribes(header: seq<byte>, rest: seq<byte>, body: seq<byte>, s: nat)
    requires |header| == 40 && header[12..] == rest && |rest| == 28
    requires FromLe(header[..4]) == 40 && FromLe(header[4..8]) == s && FromLe(header[8..12]) == 2 * s
    requires FromLe(rest[..2]) == 1 && FromLe(rest[2..4]) == 32 && FromLe(rest[4..8]) == 0
    requires FromLe(rest[8..12]) == |body| && forall i :: 12 <= i < 28 ==> rest[i] == 0
    ensures DescribesIcon(header + body, s) && (header + body)[4..8] == header[4..8]
  {
    var d := header + body;
    assert d[..4] == header[..4] && d[4..8] == header[4..8] && d[8..12] == header[8..12];
    assert d[12..14] == rest[..2] && d[14..16] == rest[2..4] && d[16..20] == rest[4..8] && d[20..24] == rest[8..12];
    assert forall i :: 24 <= i < 40 ==> d[i] == rest[i - 12];
  }

  /** Every pixel comes back, and the image has the length the format gives it. */
  lemma DibRoundTrip(rgba: seq<byte>, s: nat)
    requires |rgba| == Rows(s, s * 4) && s <= 256
    ensures DecodeDib(Dib(rgba, s)) == Some(rgba)
    ensures |Dib(rgba, s)| == 40 + 4 * s * s + 4 * ((s + 31) / 32) * s
  {
    hide Flip, ReadRows, Header, HeaderRest, MaskRow, DecodeDib;
    HeaderFields(s);
    RestFields(s);
    var bitmap, mask := Flip(rgba, s * 4, s), Zeros(Rows(s, MaskRow(s)));
    HeaderDescribes(Header(s), HeaderRest(s), bitmap + mask, s);
    assert Header(s) + (bitmap + mask) == Header(s) + bitmap + mask;
    DecodeParts(Header(s), bitmap, mask, s);
    RowsReadBack(rgba, s, s);
    assert rgba[..Rows(s, s * 4)] == rgba;
    DibLength(s);
  }

  lemma DibLength(s: nat)
    ensures Rows(s, s * 4) == 4 * s * s && Rows(s, MaskRow(s)) == 4 * ((s + 31) / 32) * s
  {
    RowsIsProduct(s, s * 4);
    RowsIsProduct(s, MaskRow(s));
    var m := (s + 31) / 32;
    assert s * (m * 4) == 4 * m * s;
  }

  lemma DecodeParts(header: seq<byte>, bitmap: seq<byte>, mask: seq<byte>, s: nat)
    requires |header| == 40 && |bitmap| == Rows(s, s * 4) && forall i :: 0 <= i < |mask| ==> mask[i] == 0
    requires FromLe(header[4..8]) == s && DescribesIcon(header + bitmap + mask, s)
    ensures DecodeDib(header + bitmap + mask) == Some(ReadRows(bitmap, s, s))
  {
    hide DescribesIcon, FromLe;
    var d := header + bitmap + mask;
    assert d[4..8] == header[4..8];
    assert d[40..40 + Rows(s, s * 4)] == bitmap;
    assert forall i :: 40 + |bitmap| <= i < |d| ==> d[i] == mask[i - 40 - |bitmap|];
  }

  /******* The file *******/

  datatype Image = Image(s: nat, data: seq<byte>)

  /** Bytes of the first n images. */
  function Payload(images: seq<Image>, n: nat): (r: seq<byte>)
    requires n <= |images|
  {
    if n == 0 then [] else Payload(images, n - 1) + images[n - 1].data
  }

  /** Where image i begins. */
  function Offset(images: seq<Image>, i: nat): nat
    requires i <= |images|
  {
    6 + 16 * |images| + |Payload(images, i)|
  }

  function SizeByte(s: nat): nat {
    if s >= 256 then 0 else s
  }

  function Entry(m: Image, offset: nat): (r: seq<byte>)
    ensures |r| == 16
  {
    [SizeByte(m.s), SizeByte(m.s), 0, 0] + Le(1, 2) + Le(32, 2) + Le(|m.data|, 4) + Le(offset, 4)
  }

  function Entries(images: seq<Image>, n: nat): (r: seq<byte>)
    requires n <= |images|
    ensures |r| == 16 * n
  {
    if n == 0 then [] else Entries(images, n - 1) + Entry(images[n - 1], Offset(images, n - 1))
  }

  function Directory(n: nat): (r: seq<byte>)
    ensures |r| == 6
  {
    Le(0, 2) + Le(1, 2) + Le(n, 2)
  }

  function IcoFile(images: seq<Image>): seq<byte> {
    Directory(|images|) + Entries(images, |images|) + Payload(images, |images|)
  }

  /** Every number fits the field it is written to; a Buffer write that does not throws. */
  predicate Fits(images: seq<Image>) {
    |images| < U16 && forall i :: 0 <= i < |images| ==> |images[i].data| < U32 && Offset(images, i) < U32
  }

  /** The directory and offset loop of ico; None is the RangeError of a field that does not fit. */
  method WriteIco(images: seq<Image>) returns (file: Option<seq<byte>>)
    ensures file == if Fits(images) then Some(IcoFile(images)) else None
  {
    hide Entry, Directory, Le;
    if |images| >= U16 {
      return None;
    }
    var entries: seq<byte>, payload: seq<byte> := [], [];
    var offset := 6 + 16 * |images|;
    var i := 0;
    while i < |images|
      invariant 0 <= i <= |images|
      invariant entries == Entries(images, i) && payload == Payload(images, i)
      invariant offset == Offset(images, i)
      invariant forall k :: 0 <= k < i ==> |images[k].data| < U32 && Offset(images, k) < U32
    {
      if |images[i].data| >= U32 || offset >= U32 {
        return None;
      }
      entries := entries + Entry(images[i], offset);
      payload := payload + images[i].data;
      offset := offset + |images[i].data|;
      i := i + 1;
    }
    file := Some(Directory(|images|) + entries + payload);
  }

  lemma {:induction false} PayloadSlice(images: seq<Image>, n: nat, i: nat)
    requires i < n <= |images|
    ensures |Payload(images, i)| + |images[i].data| <= |Payload(images, n)|
    ensures Payload(images, n)[|Payload(images, i)|..|Payload(images, i)| + |images[i].data|] == images[i].data
  {
    var front, last := Payload(images, n - 1), images[n - 1].data;
    if i < n - 1 {
      PayloadSlice(images, n - 1, i);
      SliceOfFront(front, last, |Payload(images, i)|, |Payload(images, i)| + |images[i].data|);
    } else {
      SliceOfLast(front, last);
    }
  }

  lemma {:induction false} EntrySlice(images: seq<Image>, n: nat, i: nat)
    requires i < n <= |images|
    ensures Entries(images, n)[16 * i..16 * i + 16] == Entry(images[i], Offset(images, i))
  {
    var front, last := Entries(images, n - 1), Entry(images[n - 1], Offset(images, n - 1));
    if i < n - 1 {
      EntrySlice(images, n - 1, i);
      SliceOfFront(front, last, 16 * i, 16 * i + 16);
    } else {
      assert (front + last)[16 * i..16 * i + 16] == last;
    }
  }

  /** What a reader finds in an entry: width and height (0 stands for 256), colours and a reserved byte,
      planes, bits a pixel, the length and the offset. */
  datatype Found = Found(s: nat, height: nat, colours: nat, reserved: nat, planes: nat, bits: nat,
                         length: nat, offset: nat)

  function ReadEntry(file: seq<byte>, i: nat): Found
    requires 6 + 16 * i + 16 <= |file|
  {
    FieldsOf(file[6 + 16 * i..6 + 16 * i + 16])
  }

  function FieldsOf(e: seq<byte>): Found
    requires |e| == 16
  {
    Found(if e[0] == 0 then 256 else e[0], if e[1] == 0 then 256 else e[1], e[2], e[3],
      FromLe(e[4..6]), FromLe(e[6..8]), FromLe(e[8..12]), FromLe(e[12..16]))
  }

  /** The first six bytes: reserved, the type of an icon, and how many images. */
  predicate IsIcon(file: seq<byte>, n: nat) {
    |file| >= 6 && FromLe(file[..2]) == 0 && FromLe(file[2..4]) == 1 && FromLe(file[4..6]) == n
  }

  lemma DirectoryFields(n: nat, rest: seq<byte>)
    requires n < U16
    ensures IsIcon(Directory(n) + rest, n)
  {
    hide Le;
    Ranges();
    FieldRoundTrip(0, 2);
    FieldRoundTrip(1, 2);
    FieldRoundTrip(n, 2);
    var f := Directory(n) + rest;
    assert f[..2] == Le(0, 2) && f[2..4] == Le(1, 2) && f[4..6] == Le(n, 2);
  }

  lemma FileIsIcon(images: seq<Image>)
    requires |images| < U16
    ensures IsIcon(IcoFile(images), |images|)
  {
    hide Directory, Entries, Payload, IsIcon;
    DirectoryFields(|images|, Entries(images, |images|) + Payload(images, |images|));
    assert Directory(|images|) + (Entries(images, |images|) + Payload(images, |images|)) == IcoFile(images);
  }

  lemma EntryFields(m: Image, offset: nat)
    requires |m.data| < U32 && offset < U32
    ensures var s := if SizeByte(m.s) == 0 then 256 else SizeByte(m.s);
            FieldsOf(Entry(m, offset)) == Found(s, s, 0, 0, 1, 32, |m.data|, offset)
  {
    hide Le;
    Ranges();
    FieldRoundTrip(1, 2);
    FieldRoundTrip(32, 2);
    FieldRoundTrip(|m.data|, 4);
    FieldRoundTrip(offset, 4);
    EntryParts([SizeByte(m.s), SizeByte(m.s), 0, 0], Le(1, 2), Le(32, 2), Le(|m.data|, 4), Le(offset, 4));
  }

  lemma EntryParts(a: seq<byte>, b: seq<byte>, c: seq<byte>, d: seq<byte>, f: seq<byte>)
    requires |a| == 4 && |b| == 2 && |c| == 2 && |d| == 4 && |f| == 4
    ensures var e := a + b + c + d + f;
            && e[0] == a[0] && e[1] == a[1] && e[2] == a[2] && e[3] == a[3]
            && e[4..6] == b && e[6..8] == c && e[8..12] == d && e[12..16] == f
  {
  }

  lemma FileSlices(images: seq<Image>, i: nat)
    requires i < |images|
    ensures var f := IcoFile(images);
            && 6 + 16 * i + 16 <= |f|
            && f[6 + 16 * i..6 + 16 * i + 16] == Entry(images[i], Offset(images, i))
            && Offset(images, i) + |images[i].data| <= |f|
            && f[Offset(images, i)..Offset(images, i) + |images[i].data|] == images[i].data
            && |f| == Offset(images, |images|)
  {
    hide Entry, Directory, Le;
    var n := |images|;
    var d, e, p := Directory(n), Entries(images, n), Payload(images, n);
    EntrySlice(images, n, i);
    PayloadSlice(images, n, i);
    MiddleSlice(d, e, p, 16 * i, 16 * i + 16);
    var from := |Payload(images, i)|;
    LastSlice(d + e, p, from, from + |images[i].data|);
  }

  lemma MiddleSlice(a: seq<byte>, b: seq<byte>, c: seq<byte>, i: nat, j: nat)
    requires i <= j <= |b|
    ensures (a + b + c)[|a| + i..|a| + j] == b[i..j]
  {
  }

  lemma LastSlice(a: seq<byte>, b: seq<byte>, i: nat, j: nat)
    requires i <= j <= |b|
    ensures (a + b)[|a| + i..|a| + j] == b[i..j]
  {
  }

  /** The entries tile the file: entry i's slice at its written offset is image i, each image begins
      where the one before it ends, the last one ends with the file, and its size reads back exactly
      when it is between 1 and 256. */
  lemma EntriesTileTheFile(images: seq<Image>, i: nat)
    requires Fits(images) && i < |images|
    ensures var f := IcoFile(images);
            && IsIcon(f, |images|) && 6 + 16 * i + 16 <= |f|
            && var e := ReadEntry(f, i);
            && e.height == e.s && e.colours == 0 && e.reserved == 0 && e.planes == 1 && e.bits == 32
            && e.offset + e.length <= |f|
            && f[e.offset..e.offset + e.length] == images[i].data
            && (i == 0 ==> e.offset == 6 + 16 * |images|)
            && (i + 1 < |images| ==> ReadEntry(f, i + 1).offset == e.offset + e.length)
            && (i + 1 == |images| ==> e.offset + e.length == |f|)
            && (e.s == images[i].s <==> 1 <= images[i].s <= 256)
  {
    hide IcoFile, ReadEntry, IsIcon, Entries;
    FileIsIcon(images);
    ReadBack(images, i);
    if i + 1 < |images| {
      ReadBack(images, i + 1);
    }
  }

  lemma ReadBack(images: seq<Image>, i: nat)
    requires Fits(images) && i < |images|
    ensures var f := IcoFile(images);
            && 6 + 16 * i + 16 <= |f|
            && var s := if SizeByte(images[i].s) == 0 then 256 else SizeByte(images[i].s);
            && ReadEntry(f, i) == Found(s, s, 0, 0, 1, 32, |images[i].data|, Offset(images, i))
            && Offset(images, i) + |images[i].data| <= |f|
            && f[Offset(images, i)..Offset(images, i) + |images[i].data|] == images[i].data
            && |f| == Offset(images, |images|)
  {
    hide IcoFile, FieldsOf, Entry;
    FileSlices(images, i);
    EntryFields(images[i], Offset(images, i));
  }

  /******* The icon *******/

  /** A rendered picture: its pixels row by row from the top, four bytes each. */
  datatype Picture = Picture(s: nat, rgba: seq<byte>)

  predicate Rendered(p: Picture) {
    |p.rgba| == Rows(p.s, p.s * 4)
  }

  predicate AllRendered(pictures: seq<Picture>) {
    forall i :: 0 <= i < |pictures| ==> Rendered(pictures[i])
  }

  function ImageOf(p: Picture): Image
    requires Rendered(p)
  {
    Image(p.s, Dib(p.rgba, p.s))
  }

  function ImagesOf(pictures: seq<Picture>): (r: seq<Image>)
    requires AllRendered(pictures)
    ensures |r| == |pictures|
  {
    if pictures == [] then []
    else
      assert Rendered(pictures[|pictures| - 1]);
      FrontIsRendered(pictures);
      ImagesOf(pictures[..|pictures| - 1]) + [ImageOf(pictures[|pictures| - 1])]
  }

  lemma FrontIsRendered(pictures: seq<Picture>)
    requires AllRendered(pictures) && pictures != []
    ensures AllRendered(pictures[..|pictures| - 1])
  {
  }

  lemma {:induction false} ImageAt(pictures: seq<Picture>, i: nat)
    requires AllRendered(pictures) && i < |pictures|
    ensures Rendered(pictures[i]) && ImagesOf(pictures)[i] == ImageOf(pictures[i])
  {
    hide ImageOf, Rendered;
    if i < |pictures| - 1 {
      FrontIsRendered(pictures);
      ImageAt(pictures[..|pictures| - 1], i);
    }
  }

  /** ico, from the rendered buffers to the bytes of the file. */
  method Ico(sizes: seq<nat>, rendered: seq<array<byte>>, ghost pictures: seq<Picture>)
    returns (file: Option<seq<byte>>)
    requires |sizes| == |rendered| == |pictures|
    requires AllRendered(pictures)
    requires forall i :: 0 <= i < |sizes| ==> pictures[i] == Picture(sizes[i], rendered[i][..])
    ensures file == if (forall i :: 0 <= i < |sizes| ==> DibFits(sizes[i])) && Fits(ImagesOf(pictures))
                    then Some(IcoFile(ImagesOf(pictures))) else None
  {
    hide Fits, IcoFile, Dib, DibFits, ImagesOf;
    var images: seq<Image> := [];
    var i := 0;
    while i < |sizes|
      invariant 0 <= i <= |sizes|
      invariant forall k :: 0 <= k < i ==> DibFits(sizes[k])
      invariant images == ImagesOf(pictures)[..i]
    {
      ImageAt(pictures, i);
      assert rendered[i].Length == |pictures[i].rgba|;
      var data := DibEntry(rendered[i], sizes[i]);
      if data.None? {
        return None;
      }
      images := images + [Image(sizes[i], data.value)];
      i := i + 1;
    }
    assert images == ImagesOf(pictures);
    file := WriteIco(images);
  }

  /** From the pictures to the file and back: for any number of pictures of 1 to 256 pixels, entry i names
      the size of picture i, and the image it points at decodes to its pixels. */
  lemma {:induction false} EveryPictureReadsBack(pictures: seq<Picture>, i: nat)
    requires AllRendered(pictures) && i < |pictures| && 1 <= pictures[i].s <= 256
    requires Fits(ImagesOf(pictures))
    ensures var f := IcoFile(ImagesOf(pictures));
            && 6 + 16 * i + 16 <= |f|
            && var e := ReadEntry(f, i);
            && IsIcon(f, |pictures|) && e.s == e.height == pictures[i].s && e.planes == 1 && e.bits == 32
            && e.offset + e.length <= |f|
            && DecodeDib(f[e.offset..e.offset + e.length]) == Some(pictures[i].rgba)
  {
    hide IcoFile, Dib, DecodeDib, ReadEntry, ImagesOf, Fits;
    ImageAt(pictures, i);
    EntriesTileTheFile(ImagesOf(pictures), i);
    DibRoundTrip(pictures[i].rgba, pictures[i].s);
  }
}
