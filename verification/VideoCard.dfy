/** Drawing into the frame buffer (proj/vc.c). */
module VideoCard {
  import opened Consts

  // ---------------------------------------------------------------- pixels of a byte buffer

  function LittleEndian(color: nat, n: nat): (bytes: seq<byte>)
    ensures |bytes| == n
  {
    if n == 0 then [] else [color % 256] + LittleEndian(color / 256, n - 1)
  }

  function Pow256(n: nat): nat {
    if n == 0 then 1 else 256 * Pow256(n - 1)
  }

  /** The number that bytes stand for, the lowest byte first. */
  function ValueOf(bytes: seq<byte>): nat {
    if bytes == [] then 0 else bytes[0] + 256 * ValueOf(bytes[1..])
  }

  lemma {:induction false} MulOrder(a: nat, b: nat, n: nat)
    requires a < b
    ensures a * n + n <= b * n
  {
    if b > a + 1 {
      MulOrder(a, b - 1, n);
      assert b * n == (b - 1) * n + n;
    }
  }

  lemma DivDiv(a: nat, b: nat)
    requires b > 0
    ensures a / 256 / b == a / (256 * b)
  {
    var q, r := a / 256 / b, a / 256 % b;
    assert a / 256 == q * b + r;
    assert a == 256 * (q * b + r) + a % 256;
    var rest := 256 * r + a % 256;
    assert 0 <= rest < 256 * b;
    assert a == q * (256 * b) + rest;
    QuotientIs(a, 256 * b, q, rest);
  }

  lemma QuotientIs(a: nat, d: nat, q: nat, r: nat)
    requires d > 0 && a == q * d + r && r < d
    ensures a / d == q && a % d == r
  {
    var q', r' := a / d, a % d;
    assert a == q' * d + r';
    if q < q' {
      MulOrder(q, q', d);
    } else if q' < q {
      MulOrder(q', q, d);
    }
  }

  lemma {:induction false} PowPositive(n: nat)
    ensures Pow256(n) > 0
  {
    if n > 0 {
      PowPositive(n - 1);
    }
  }

  /** Byte `i` of a colour. */
  lemma {:induction false} ByteOfColor(color: nat, n: nat, i: nat)
    requires i < n
    ensures Pow256(i) > 0 && LittleEndian(color, n)[i] == color / Pow256(i) % 256
  {
    PowPositive(i);
    if i > 0 {
      PowPositive(i - 1);
      ByteOfColor(color / 256, n - 1, i - 1);
      DivDiv(color, Pow256(i - 1));
    }
  }

  /** A colour that fits the bytes of a pixel is what these bytes stand for. */
  lemma {:induction false} ColorReadBack(color: nat, n: nat)
    requires color < Pow256(n)
    ensures ValueOf(LittleEndian(color, n)) == color
  {
    if n > 0 {
      ColorReadBack(color / 256, n - 1);
    }
  }

  function Offset(xRes: nat, n: nat, x: nat, y: nat): nat {
    (y * xRes + x) * n
  }

  lemma OffsetInside(xRes: nat, yRes: nat, n: nat, x: nat, y: nat)
    requires x < xRes && y < yRes
    ensures Offset(xRes, n, x, y) + n <= xRes * yRes * n
  {
    MulOrder(y, yRes, xRes);
    MulOrder(y * xRes + x, xRes * yRes, n);
  }

  lemma OffsetOrder(xRes: nat, n: nat, x: nat, y: nat, px: nat, py: nat)
    requires x < xRes && (y < py || (y == py && x < px))
    ensures Offset(xRes, n, x, y) + n <= Offset(xRes, n, px, py)
  {
    if y < py {
      MulOrder(y, py, xRes);
    }
    MulOrder(y * xRes + x, py * xRes + px, n);
  }

  /** Different pixels of the screen do not share a byte. */
  lemma OffsetsApart(xRes: nat, n: nat, x: nat, y: nat, px: nat, py: nat)
    requires x < xRes && px < xRes && (x, y) != (px, py)
    ensures Offset(xRes, n, x, y) + n <= Offset(xRes, n, px, py)
            || Offset(xRes, n, px, py) + n <= Offset(xRes, n, x, y)
  {
    if y < py || (y == py && x < px) {
      OffsetOrder(xRes, n, x, y, px, py);
    } else {
      OffsetOrder(xRes, n, px, py, x, y);
    }
  }

  /** The size of the screen and of a pixel. */
  datatype Mode = Mode(xRes: nat, yRes: nat, n: nat)

  predicate Fits(m: Mode, buffer: seq<byte>) {
    m.n >= 1 && |buffer| == m.xRes * m.yRes * m.n
  }

  predicate OnScreen(m: Mode, x: nat, y: nat) {
    x < m.xRes && y < m.yRes
  }

  /** The bytes of one pixel. */
  function Pixel(m: Mode, buffer: seq<byte>, x: nat, y: nat): seq<byte>
    requires Fits(m, buffer) && OnScreen(m, x, y)
  {
    OffsetInside(m.xRes, m.yRes, m.n, x, y);
    var k := Offset(m.xRes, m.n, x, y);
    buffer[k..k + m.n]
  }

  /** The buffer with one pixel painted; a point outside the screen changes nothing. */
  function Painted(m: Mode, buffer: seq<byte>, x: nat, y: nat, color: nat): (r: seq<byte>)
    requires Fits(m, buffer)
    ensures |r| == |buffer|
  {
    if !OnScreen(m, x, y) then buffer
    else
      OffsetInside(m.xRes, m.yRes, m.n, x, y);
      var k := Offset(m.xRes, m.n, x, y);
      buffer[..k] + LittleEndian(color, m.n) + buffer[k + m.n..]
  }

  /** Painting changes that pixel and no other. */
  lemma PaintedPixels(m: Mode, buffer: seq<byte>, x: nat, y: nat, color: nat, px: nat, py: nat)
    requires Fits(m, buffer) && OnScreen(m, px, py)
    ensures Pixel(m, Painted(m, buffer, x, y, color), px, py)
            == if (x, y) == (px, py) then LittleEndian(color, m.n) else Pixel(m, buffer, px, py)
  {
    if OnScreen(m, x, y) {
      OffsetInside(m.xRes, m.yRes, m.n, x, y);
      OffsetInside(m.xRes, m.yRes, m.n, px, py);
      if (x, y) != (px, py) {
        OffsetsApart(m.xRes, m.n, x, y, px, py);
      }
    }
  }

  /** The bytes of the painted pixel: its place in the buffer is row by row, and its lowest byte comes first. */
  lemma PaintedBytes(m: Mode, buffer: seq<byte>, x: nat, y: nat, color: nat, i: nat)
    requires Fits(m, buffer) && OnScreen(m, x, y) && i < m.n
    ensures var k := (y * m.xRes + x) * m.n + i;
            k < |buffer| && Pow256(i) > 0 && Painted(m, buffer, x, y, color)[k] == color / Pow256(i) % 256
  {
    OffsetInside(m.xRes, m.yRes, m.n, x, y);
    ByteOfColor(color, m.n, i);
  }

  // ---------------------------------------------------------------- images

  datatype Image = Image(width: uint16, height: uint16, pixels: seq<uint16>)

  predicate Complete(img: Image) {
    |img.pixels| >= img.width * img.height
  }

  /** Distance from `from` to `to` when coordinates are 16 bits wide. */
  function Distance(from: uint16, to: nat): nat {
    (to - from) % 65536
  }

  lemma RowInside(img: Image, dx: nat, dy: nat)
    requires dx < img.width && dy < img.height
    ensures dy * img.width + dx < img.width * img.height
  {
    assert (dy + 1) * img.width <= img.height * img.width;
  }

  /** Whether the first `rows` rows and `columns` pixels of the next row contain a pixel for the point. */
  predicate Reached(img: Image, x: uint16, y: uint16, px: nat, py: nat, rows: nat, columns: nat) {
    var dx, dy := Distance(x, px), Distance(y, py);
    dx < img.width && (dy < rows || (dy == rows && dx < columns))
  }

  /** What a point of the screen shows after that part of the image was drawn at (x, y). */
  function Shown(m: Mode, was: seq<byte>, img: Image, transparent: nat, x: uint16, y: uint16,
                 px: nat, py: nat, rows: nat, columns: nat): seq<byte>
    requires Fits(m, was) && OnScreen(m, px, py) && Complete(img)
    requires rows < img.height || (rows == img.height && columns == 0)
  {
    if Reached(img, x, y, px, py, rows, columns) then
      var dx, dy := Distance(x, px), Distance(y, py);
      RowInside(img, dx, dy);
      var color := img.pixels[dy * img.width + dx];
      if color != transparent then LittleEndian(color, m.n) else Pixel(m, was, px, py)
    else Pixel(m, was, px, py)
  }

  ghost predicate Drawn(m: Mode, was: seq<byte>, now: seq<byte>, img: Image, transparent: nat,
                        x: uint16, y: uint16, rows: nat, columns: nat)
    requires Fits(m, was) && Complete(img)
    requires rows < img.height || (rows == img.height && columns == 0)
  {
    && |now| == |was|
    && forall px: nat, py: nat :: OnScreen(m, px, py) ==>
         Pixel(m, now, px, py) == Shown(m, was, img, transparent, x, y, px, py, rows, columns)
  }

  lemma DistanceIs(from: uint16, step: nat, to: nat)
    requires step < 65536 && to < 65536
    ensures (from + step) % 65536 == to <==> Distance(from, to) == step
  {
  }

  lemma DistanceWithin(from: uint16, length: uint16, to: nat)
    requires from + length <= 65536 && to < 65536
    ensures Distance(from, to) < length <==> from <= to < from + length
    ensures from <= to ==> Distance(from, to) == to - from
  {
  }

  /** The next pixel of the row reaches exactly one more point. */
  lemma ReachedMore(img: Image, x: uint16, y: uint16, px: nat, py: nat, rows: nat, columns: nat)
    requires rows < img.height && columns < img.width && px < 65536 && py < 65536
    ensures var next := (px, py) == ((x + columns) % 65536, (y + rows) % 65536);
            && (Reached(img, x, y, px, py, rows, columns + 1)
                <==> Reached(img, x, y, px, py, rows, columns) || next)
            && (next ==> !Reached(img, x, y, px, py, rows, columns)
                         && Distance(x, px) == columns && Distance(y, py) == rows)
  {
    DistanceIs(x, columns, px);
    DistanceIs(y, rows, py);
  }

  /** One more pixel of the image, painted at (x', y'), seen from one point of the screen. */
  lemma PointMore(m: Mode, was: seq<byte>, now: seq<byte>, img: Image, transparent: nat, x: uint16, y: uint16,
                  rows: nat, columns: nat, x': nat, y': nat, i: nat, px: nat, py: nat)
    requires Fits(m, was) && |now| == |was| && Complete(img) && m.xRes <= 65536 && m.yRes <= 65536
    requires rows < img.height && columns < img.width && OnScreen(m, px, py)
    requires Pixel(m, now, px, py) == Shown(m, was, img, transparent, x, y, px, py, rows, columns)
    requires x' == (x + columns) % 65536 && y' == (y + rows) % 65536
    requires i < |img.pixels| && i == rows * img.width + columns
    ensures var color := img.pixels[i];
            var next := if color == transparent then now else Painted(m, now, x', y', color);
            Pixel(m, next, px, py) == Shown(m, was, img, transparent, x, y, px, py, rows, columns + 1)
  {
    ReachedMore(img, x, y, px, py, rows, columns);
    PaintedPixels(m, now, x', y', img.pixels[i], px, py);
    if (px, py) == (x', y') {
      assert Shown(m, was, img, transparent, x, y, px, py, rows, columns) == Pixel(m, was, px, py);
    }
  }

  /** One more pixel of the image. */
  lemma OnePixelMore(m: Mode, was: seq<byte>, now: seq<byte>, img: Image, transparent: nat,
                     x: uint16, y: uint16, rows: nat, columns: nat)
    requires Fits(m, was) && Complete(img) && m.xRes <= 65536 && m.yRes <= 65536
    requires rows < img.height && columns < img.width
    requires Drawn(m, was, now, img, transparent, x, y, rows, columns)
    ensures rows * img.width + columns < |img.pixels|
    ensures var color := img.pixels[rows * img.width + columns];
            var next := if color == transparent then now
                        else Painted(m, now, (x + columns) % 65536, (y + rows) % 65536, color);
            Drawn(m, was, next, img, transparent, x, y, rows, columns + 1)
  {
    RowInside(img, columns, rows);
    var i := rows * img.width + columns;
    var color := img.pixels[i];
    var x', y' := (x + columns) % 65536, (y + rows) % 65536;
    var next := if color == transparent then now else Painted(m, now, x', y', color);
    forall px: nat, py: nat | OnScreen(m, px, py)
      ensures Pixel(m, next, px, py) == Shown(m, was, img, transparent, x, y, px, py, rows, columns + 1)
    {
      PointMore(m, was, now, img, transparent, x, y, rows, columns, x', y', i, px, py);
    }
  }

  /** A finished row is the same as no pixel of the next row. */
  lemma RowFinished(m: Mode, was: seq<byte>, now: seq<byte>, img: Image, transparent: nat,
                    x: uint16, y: uint16, rows: nat)
    requires Fits(m, was) && Complete(img) && rows < img.height
    requires Drawn(m, was, now, img, transparent, x, y, rows, img.width)
    ensures Drawn(m, was, now, img, transparent, x, y, rows + 1, 0)
  {
    forall px: nat, py: nat | OnScreen(m, px, py)
      ensures Shown(m, was, img, transparent, x, y, px, py, rows + 1, 0)
              == Shown(m, was, img, transparent, x, y, px, py, rows, img.width)
    {
    }
  }

  // ---------------------------------------------------------------- the frame buffer

  class Frame {
    const mode: Mode
    const buffer: array<byte>

    ghost predicate Valid()
      reads buffer
    {
      Fits(mode, buffer[..]) && mode.xRes <= 65536 && mode.yRes <= 65536
    }

    /** Returns 1 and leaves the buffer alone when the point is off the screen. */
    method DrawPixel(x: uint16, y: uint16, color: nat) returns (failed: int)
      requires Valid()
      modifies buffer
      ensures Valid()
      ensures failed == if OnScreen(mode, x, y) then 0 else 1
      ensures buffer[..] == Painted(mode, old(buffer[..]), x, y, color)
    {
      if y >= mode.yRes || x >= mode.xRes {
        return 1;
      }
      OffsetInside(mode.xRes, mode.yRes, mode.n, x, y);
      ghost var was, k := buffer[..], Offset(mode.xRes, mode.n, x, y);
      var start := (y * mode.xRes + x) * mode.n;
      var rest := color;
      for i := 0 to mode.n
        invariant buffer[..start + i] + LittleEndian(rest, mode.n - i) == was[..k] + LittleEndian(color, mode.n)
        invariant buffer[start + i..] == was[k + i..]
      {
        ghost var painted, left := buffer[..start + i], LittleEndian(rest, mode.n - i);
        buffer[start + i] := rest % 256;
        assert buffer[..start + i + 1] == painted + [rest % 256];
        rest := rest / 256;
        assert left == [buffer[start + i]] + LittleEndian(rest, mode.n - i - 1);
      }
      assert buffer[..] == buffer[..start + mode.n] + buffer[start + mode.n..];
      return 0;
    }

    /** Draws the pixels of the image that are not transparent, row by row. */
    method DrawXpm(img: Image, x: uint16, y: uint16, transparent: nat)
      requires Valid() && Complete(img)
      modifies buffer
      ensures Valid()
      ensures Drawn(mode, old(buffer[..]), buffer[..], img, transparent, x, y, img.height, 0)
    {
      ghost var was := buffer[..];
      var count := 0;
      for rows := 0 to img.height
        invariant Valid() && count == rows * img.width
        invariant Drawn(mode, was, buffer[..], img, transparent, x, y, rows, 0)
      {
        for columns := 0 to img.width
          invariant Valid() && count == rows * img.width + columns
          invariant Drawn(mode, was, buffer[..], img, transparent, x, y, rows, columns)
        {
          OnePixelMore(mode, was, buffer[..], img, transparent, x, y, rows, columns);
          if img.pixels[count] != transparent {
            var _ := DrawPixel((x + columns) % 65536, (y + rows) % 65536, img.pixels[count]);
          }
          count := count + 1;
        }
        RowFinished(mode, was, buffer[..], img, transparent, x, y, rows);
        assert (rows + 1) * img.width == rows * img.width + img.width;
      }
    }
  }

  /** The finished drawing, point by point: the image where it is opaque, the old picture elsewhere. */
  lemma DrawnPoint(m: Mode, was: seq<byte>, now: seq<byte>, img: Image, transparent: nat,
                   x: uint16, y: uint16, px: nat, py: nat)
    requires Fits(m, was) && Complete(img) && OnScreen(m, px, py)
    requires Drawn(m, was, now, img, transparent, x, y, img.height, 0)
    requires x + img.width <= 65536 && y + img.height <= 65536 && px < 65536 && py < 65536
    ensures if x <= px < x + img.width && y <= py < y + img.height then
              var i := (py - y) * img.width + (px - x);
              && i < |img.pixels|
              && (img.pixels[i] == transparent ==> Pixel(m, now, px, py) == Pixel(m, was, px, py))
              && (img.pixels[i] != transparent && m.n >= 2 ==> ValueOf(Pixel(m, now, px, py)) == img.pixels[i])
            else Pixel(m, now, px, py) == Pixel(m, was, px, py)
  {
    DistanceWithin(x, img.width, px);
    DistanceWithin(y, img.height, py);
    assert Pixel(m, now, px, py) == Shown(m, was, img, transparent, x, y, px, py, img.height, 0);
    if x <= px < x + img.width && y <= py < y + img.height {
      RowInside(img, px - x, py - y);
      var color := img.pixels[(py - y) * img.width + (px - x)];
      if m.n >= 2 {
        TwoBytesSuffice(m.n);
        ColorReadBack(color, m.n);
      }
    }
  }

  lemma {:induction false} TwoBytesSuffice(n: nat)
    requires n >= 2
    ensures Pow256(n) >= 65536
  {
    if n > 2 {
      TwoBytesSuffice(n - 1);
    } else {
      assert Pow256(1) == 256;
    }
  }
}
