/** The two effects of ImageManager.apply_effect, as functions of the current image. */
module Effects {
  import opened Wrappers
  import opened Raster
  import opened Vision

  /** The divisor of `w // 10, h // 10` in the pixelate branch. */
  const BlockSize: nat := 10

  /**
   * The "pixelate" branch: resize down to (w // 10, h // 10) with linear
   * interpolation, then back to (w, h) with nearest-neighbour interpolation.
   * None stands for the cv2.error of the first resize when the image is
   * narrower or lower than ten pixels.
   */
  function Pixelate(img: Image, sample: Sampler): (r: Option<Image>)
    ensures r.Some? <==> Width(img) >= BlockSize && Height(img) >= BlockSize
    ensures r.Some? ==> SameShape(r.value, img)
  {
    var h, w := Height(img), Width(img);
    match Resize(sample, img, w / BlockSize, h / BlockSize, Linear)
    case None => None
    case Some(small) => Resize(sample, small, w, h, Nearest)
  }

  /** cv2.add on uint8: the sum saturates at 255. */
  function SaturatingAdd(a: Byte, b: Byte): (r: Byte)
    ensures a <= r
    ensures a + b <= 255 ==> r == a + b
    ensures a + b > 255 ==> r == 255
  {
    if a + b > 255 then 255 else a + b
  }

  /** The "noise" branch: cv2.add(current, noise) with a byte of noise per cell. */
  function AddNoise(img: Image, noise: NoiseField): (r: Image)
    ensures SameShape(r, img)
    ensures forall y, x, k :: 0 <= y < Height(img) && 0 <= x < Width(img) && 0 <= k < Channels(img) ==>
              r[y][x][k] == SaturatingAdd(img[y][x][k], noise(y, x, k))
  {
    var h, w, c := Height(img), Width(img), Channels(img);
    if h == 0 || w == 0 then img
    else
      Build(h, w, c, (y: nat, x: nat, k: nat) => SaturatingAdd(At(img, y, x, k), noise(y, x, k)))
  }

  /** `r` is `img` with no channel value lowered. */
  ghost predicate Brightens(img: Image, r: Image)
  {
    SameShape(img, r) &&
    forall y, x, k :: 0 <= y < Height(img) && 0 <= x < Width(img) && 0 <= k < Channels(img) ==>
      img[y][x][k] <= r[y][x][k]
  }

  /** Noise only brightens: the result keeps the shape and never lowers a channel. */
  lemma NoiseBrightens(img: Image, noise: NoiseField)
    ensures Brightens(img, AddNoise(img, noise))
  {
  }

  /** Conversely, every image of the same shape that lowers no channel is the result of some noise. */
  lemma {:induction false} NoiseReachesEveryBrighterImage(img: Image, r: Image)
    requires Brightens(img, r)
    ensures exists noise: NoiseField :: AddNoise(img, noise) == r
  {
    var noise: NoiseField := (y: nat, x: nat, k: nat) => At(r, y, x, k) - At(img, y, x, k);
    var a := AddNoise(img, noise);
    CellsDetermineImage(a, r);
  }
}
