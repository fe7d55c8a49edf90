/**
 * An OpenCV/numpy image: a height x width x channels grid of 8-bit values.
 * Images are values here; `copy()` in the source therefore needs no counterpart.
 */
module Raster {

  /** numpy's uint8. */
  type Byte = b: int | 0 <= b < 256

  type Grid = seq<seq<seq<Byte>>>

  /** `g` is an h x w x c block. */
  predicate HasShape(g: Grid, h: nat, w: nat, c: nat)
  {
    |g| == h &&
    (forall y :: 0 <= y < h ==> |g[y]| == w) &&
    (forall y, x :: 0 <= y < h && 0 <= x < w ==> |g[y][x]| == c)
  }

  /** shape[0] */
  function Height(g: Grid): nat { |g| }

  /** shape[1] */
  function Width(g: Grid): nat { if |g| == 0 then 0 else |g[0]| }

  /** shape[2] */
  function Channels(g: Grid): nat { if |g| == 0 || |g[0]| == 0 then 0 else |g[0][0]| }

  predicate Rectangular(g: Grid)
  {
    HasShape(g, Height(g), Width(g), Channels(g))
  }

  /** A numpy array: every row has the same width, every pixel the same number of channels. */
  type Image = g: Grid | Rectangular(g) witness []

  predicate SameShape(a: Image, b: Image)
  {
    Height(a) == Height(b) && Width(a) == Width(b) && Channels(a) == Channels(b)
  }

  /** Channel k of pixel (y, x), and 0 outside the image. */
  function At(g: Image, y: nat, x: nat, k: nat): (v: Byte)
    ensures y < Height(g) && x < Width(g) && k < Channels(g) ==> v == g[y][x][k]
  {
    if y < Height(g) && x < Width(g) && k < Channels(g) then
      assert |g[y]| == Width(g) && |g[y][x]| == Channels(g);
      g[y][x][k]
    else 0
  }

  /** Two images of one shape that agree on every cell are equal. */
  lemma {:induction false} CellsDetermineImage(a: Image, b: Image)
    requires SameShape(a, b)
    requires forall y, x, k :: 0 <= y < Height(a) && 0 <= x < Width(a) && 0 <= k < Channels(a) ==> a[y][x][k] == b[y][x][k]
    ensures a == b
  {
    var h, w, c := Height(a), Width(a), Channels(a);
    forall y | 0 <= y < h ensures a[y] == b[y] {
      assert |a[y]| == w == |b[y]|;
      forall x | 0 <= x < w ensures a[y][x] == b[y][x] {
        assert |a[y][x]| == c == |b[y][x]|;
      }
    }
  }

  /** A grid built cell by cell has exactly the requested shape. */
  function Build(h: nat, w: nat, c: nat, cell: (nat, nat, nat) -> Byte): (r: Image)
    requires h > 0 && w > 0
    ensures Height(r) == h && Width(r) == w && Channels(r) == c
    ensures forall y, x, k :: 0 <= y < h && 0 <= x < w && 0 <= k < c ==> r[y][x][k] == cell(y, x, k)
  {
    var g: Grid := seq(h, (y: int) requires 0 <= y < h => seq(w, (x: int) requires 0 <= x < w => seq(c, (k: int) requires 0 <= k < c => cell(y, x, k))));
    assert HasShape(g, h, w, c);
    g
  }
}
