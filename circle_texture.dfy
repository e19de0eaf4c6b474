/*
 * The circle texture (src/WebGL/webglCircleTexture.js): an RGBA image of
 * `size` by `size` texels, black everywhere, opaque inside the circle
 * inscribed in the square and transparent outside it.  The node shader
 * samples its alpha channel to draw round nodes.
 *
 * A texel's centre lies at (col + 0.5, row + 0.5) and the circle's centre
 * at (size/2, size/2) with radius size/2.  The distance test
 * `sqrt(cx*cx + cy*cy) < r` is compared on squares, and every length is
 * doubled so that the comparison stays within the integers.
 */
module CircleTexture {
  /** One byte of a Uint8Array. */
  newtype u8 = x: int | 0 <= x < 0x100

  /** The side of the texture createCircleTexture builds. */
  const TEXTURE_SIZE: nat := 256

  /** Twice the signed offset of texel `i`'s centre from the circle's centre along one axis: 2 * (i - size/2 + 0.5). */
  function Doubled(size: nat, i: int): int
  {
    2 * i - size + 1
  }

  /**
   * The texel's centre lies strictly inside the circle of radius size/2;
   * such a texel is one of the texture's, so the circle fits in it.
   */
  function Inside(size: nat, row: int, col: int): (r: bool)
    ensures r ==> 0 <= row < size && 0 <= col < size
  {
    var dy, dx := Doubled(size, row), Doubled(size, col);
    if dx * dx + dy * dy < size * size then
      assert 0 <= dx * dx && 0 <= dy * dy;
      SquareBelow(dx, size);
      SquareBelow(dy, size);
      true
    else
      false
  }

  /** The alpha the texel gets: fully opaque inside the circle, fully transparent outside it and off the texture. */
  function Alpha(size: nat, row: int, col: int): (r: u8)
    ensures r == 0xff <==> Inside(size, row, col)
    ensures r == 0x00 <==> !Inside(size, row, col)
    ensures r != 0x00 ==> 0 <= row < size && 0 <= col < size
  {
    if Inside(size, row, col) then 0xff else 0x00
  }

  /** Byte `k` of the image: the texel is byte `k / 4` in row-major order, and only its fourth (alpha) byte is set. */
  function ImageByte(size: nat, k: nat): (r: u8)
    requires size > 0
    ensures r == 0x00 || r == 0xff
    ensures k % 4 != 3 ==> r == 0x00
  {
    var texel := k / 4;
    if k % 4 == 3 then Alpha(size, texel / size, texel % size) else 0
  }

  /** a * c <= b * c for a <= b and c >= 0. */
  lemma MulMonotone(a: int, b: int, c: nat)
    requires a <= b
    ensures a * c <= b * c
  {
    assert b * c - a * c == (b - a) * c;
  }

  /** Texel `row * size + col` lies in row `row`, column `col`; and it lies inside the image. */
  lemma {:induction false} RowMajor(size: nat, row: nat, col: nat)
    requires row < size && col < size
    ensures row * size + col < size * size
    ensures (row * size + col) / size == row && (row * size + col) % size == col
  {
    var t := row * size + col;
    MulMonotone(row + 1, size, size);
    var q, r := t / size, t % size;
    assert t == q * size + r;
    if q > row {
      MulMonotone(row + 1, q, size);
      assert false;
    } else if q < row {
      MulMonotone(q + 1, row, size);
      assert false;
    }
  }

  /** The four bytes of texel `t`, in row `row` and column `col`: red, green and blue are zero and alpha is the texel's alpha. */
  lemma {:induction false} TexelBytes(size: nat, row: nat, col: nat, t: nat)
    requires row < size && col < size && t == row * size + col
    ensures forall k :: t * 4 <= k < t * 4 + 3 ==> ImageByte(size, k) == 0
    ensures ImageByte(size, t * 4 + 3) == Alpha(size, row, col)
  {
    RowMajor(size, row, col);
    forall k | t * 4 <= k < t * 4 + 3
      ensures ImageByte(size, k) == 0
    {
      assert k % 4 != 3;
    }
    assert (t * 4 + 3) / 4 == t;
  }

  /** The inner loop of circle: the texels of row `row`, which starts at texel `offset`, left to right. */
  method FillRow(result: array<u8>, size: nat, row: nat, offset: nat)
    requires row < size && offset == row * size && (offset + size) * 4 <= result.Length
    requires forall k :: 0 <= k < offset * 4 ==> result[k] == ImageByte(size, k)
    requires forall k :: offset * 4 <= k < result.Length ==> result[k] == 0
    modifies result
    ensures forall k :: 0 <= k < (offset + size) * 4 ==> result[k] == ImageByte(size, k)
    ensures forall k :: (offset + size) * 4 <= k < result.Length ==> result[k] == 0
  {
    var col := 0;
    while col < size
      invariant 0 <= col <= size
      invariant forall k :: 0 <= k < (offset + col) * 4 ==> result[k] == ImageByte(size, k)
      invariant forall k :: (offset + col) * 4 <= k < result.Length ==> result[k] == 0
    {
      var rgbaCoord := (offset + col) * 4;
      TexelBytes(size, row, col, offset + col);
      result[rgbaCoord + 3] := Alpha(size, row, col);
      col := col + 1;
    }
  }

  /** circle: builds the image texel by texel, row by row, as the source's two nested loops do. */
  method Circle(size: nat) returns (result: array<u8>)
    ensures fresh(result)
    ensures result.Length == size * size * 4
    ensures forall k :: 0 <= k < result.Length ==> result[k] == ImageByte(size, k)
  {
    result := new u8[size * size * 4](_ => 0);
    var row, offset := 0, 0;
    while row < size
      invariant 0 <= row <= size && offset == row * size && offset * 4 <= result.Length
      invariant forall k :: 0 <= k < offset * 4 ==> result[k] == ImageByte(size, k)
      invariant forall k :: offset * 4 <= k < result.Length ==> result[k] == 0
    {
      MulMonotone(row + 1, size, size);
      FillRow(result, size, row, offset);
      row, offset := row + 1, offset + size;
    }
  }

  /** |d| < size whenever d * d < size * size. */
  lemma SquareBelow(d: int, size: int)
    requires size >= 0 && d * d < size * size
    ensures -size < d && d < size
  {
    if d >= size {
      MulMonotone(size, d, d);
      MulMonotone(size, d, size);
    } else if d <= -size {
      assert d * d == (-d) * (-d);
      MulMonotone(size, -d, -d);
      MulMonotone(size, -d, size);
    }
  }

  /** The circle fits in the texture: every opaque texel lies inside the square. */
  lemma {:induction false} OpaqueTexelsInSquare(size: nat, row: int, col: int)
    requires Alpha(size, row, col) != 0
    ensures 0 <= row < size && 0 <= col < size
  {
    var dy, dx := Doubled(size, row), Doubled(size, col);
    assert dx * dx + dy * dy < size * size;
    assert 0 <= dx * dx && 0 <= dy * dy;
    SquareBelow(dx, size);
    SquareBelow(dy, size);
  }

  /** The image is symmetric under mirroring its rows, mirroring its columns and swapping the two axes. */
  lemma {:induction false} AlphaSymmetric(size: nat, row: int, col: int)
    ensures Alpha(size, size - 1 - row, col) == Alpha(size, row, col)
    ensures Alpha(size, row, size - 1 - col) == Alpha(size, row, col)
    ensures Alpha(size, col, row) == Alpha(size, row, col)
  {
    assert Doubled(size, size - 1 - row) == -Doubled(size, row);
    assert Doubled(size, size - 1 - col) == -Doubled(size, col);
  }

  /**
   * The radius is the full half side: the texel at the middle of every
   * edge is opaque (from size 2 on), while the corner texels are clear
   * (from size 4 on).
   */
  lemma {:induction false} CircleTouchesEdges(size: nat)
    requires size >= 2
    ensures Alpha(size, 0, size / 2) == 0xff
    ensures Alpha(size, size / 2, 0) == 0xff
    ensures Alpha(size, size - 1, size / 2) == 0xff
    ensures Alpha(size, size / 2, size - 1) == 0xff
  {
    var m := Doubled(size, size / 2);
    assert 0 <= m <= 1;
    assert m * m <= 1;
    var e := Doubled(size, 0);
    assert e == 1 - size;
    assert e * e == size * size - 2 * size + 1;
    assert Inside(size, 0, size / 2);
    AlphaSymmetric(size, 0, size / 2);
    AlphaSymmetric(size, size / 2, 0);
  }

  /** The four corner texels are clear once the texture is at least 4 texels wide. */
  lemma {:induction false} CornersClear(size: nat)
    requires size >= 4
    ensures Alpha(size, 0, 0) == 0
    ensures Alpha(size, 0, size - 1) == 0
    ensures Alpha(size, size - 1, 0) == 0
    ensures Alpha(size, size - 1, size - 1) == 0
  {
    var e := Doubled(size, 0);
    assert e * e == size * size - 2 * size + 1;
    assert size * (size - 4) >= 0;
    assert !Inside(size, 0, 0);
    AlphaSymmetric(size, 0, 0);
    AlphaSymmetric(size, 0, size - 1);
  }

  /** createCircleTexture's image: 256 by 256 RGBA texels, handed to texImage2D. */
  method TextureImage() returns (image: array<u8>)
    ensures fresh(image)
    ensures image.Length == 262144
    ensures forall k :: 0 <= k < image.Length ==> image[k] == ImageByte(TEXTURE_SIZE, k)
  {
    image := Circle(TEXTURE_SIZE);
  }
}
