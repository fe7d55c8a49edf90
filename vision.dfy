/**
 * The OpenCV and numpy calls the image manager makes, as parameters. Only what the
 * manager relies on is fixed here: the shapes that cv2.resize produces and when it
 * refuses its arguments. Pixel values, decoding and recognition are left to the oracles.
 */
module Vision {
  import opened Wrappers
  import opened Raster

  /** cv2.INTER_LINEAR and cv2.INTER_NEAREST. */
  datatype Interpolation = Linear | Nearest

  /** cv2.imread's default colour mode and cv2.IMREAD_GRAYSCALE. */
  datatype ReadMode = Color | Grayscale

  /**
   * cv2.imread: None when the path is missing, is a directory or does not decode.
   * In colour mode OpenCV always gives 3 channels; the type does not fix the count.
   */
  type Reader = (string, ReadMode) -> Option<Image>

  /**
   * The interpolation arithmetic of cv2.resize: given the interpolation, the source,
   * the target size (width, height) and a target cell (row, column, channel),
   * the value of that cell.
   */
  type Sampler = (Interpolation, Image, nat, nat, nat, nat, nat) -> Byte

  /**
   * cv2.resize(src, (dw, dh), interpolation): None stands for the cv2.error raised
   * when the source is empty or the requested size has no area (dsize == 0 with
   * no scale factors).
   */
  function Resize(sample: Sampler, src: Image, dw: nat, dh: nat, interp: Interpolation): (r: Option<Image>)
    ensures r.Some? <==> Height(src) > 0 && Width(src) > 0 && dw > 0 && dh > 0
    ensures r.Some? ==> Height(r.value) == dh && Width(r.value) == dw && Channels(r.value) == Channels(src)
  {
    if Height(src) > 0 && Width(src) > 0 && dw > 0 && dh > 0 then
      Some(Build(dh, dw, Channels(src), (y: nat, x: nat, k: nat) => sample(interp, src, dw, dh, y, x, k)))
    else
      None
  }

  /** np.random.normal(0, 25, shape).astype(np.uint8): one byte for each cell of the shape. */
  type NoiseField = (nat, nat, nat) -> Byte

  /** cv2.cvtColor(image, cv2.COLOR_BGR2GRAY). */
  type GrayConverter = Image -> Image

  /** What LBPHFaceRecognizer.predict returns: a label and a distance (lower is closer). */
  datatype Prediction = Prediction(id: int, confidence: real)

  /**
   * An LBPH recognizer seen from outside: `train` says whether training on these
   * images and labels succeeds (false: cv2.error, e.g. no samples or an unread image);
   * `predict` answers for a probe after training on those samples.
   */
  datatype Lbph = Lbph(
    train: (seq<Option<Image>>, seq<int>) -> bool,
    predict: (seq<Option<Image>>, seq<int>, Image) -> Prediction)
}
