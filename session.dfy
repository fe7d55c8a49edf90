/**
 * The three session slots of ImageManager (img_path, original_image, current_image)
 * and the transitions load_image, restore_image and apply_effect make on them.
 * Each transition gives the next state and what the call returns or raises.
 */
module Session {
  import opened Wrappers
  import opened Raster
  import opened Vision
  import opened Effects

  /** The exceptions the image manager lets escape. */
  datatype Error =
    | ImageReadError      // ValueError("Erro ao carregar a imagem.")
    | NoImageLoaded       // AttributeError: 'NoneType' object has no attribute ...
    | ResizeError         // cv2.error from cv2.resize on a zero-area size
    | FolderNotFound      // FileNotFoundError from os.listdir(ROOT_FOLDER)
    | TrainingError       // cv2.error from recognizer.train
    | NoImageToRecognize  // ValueError("Nenhuma imagem carregada para reconhecimento.")
    | LabelMapUnset       // AttributeError: no attribute 'label_map'

  datatype State = State(imgPath: Option<string>, original: Option<Image>, current: Option<Image>)

  /** What __init__ sets. */
  const Initial: State := State(None, None, None)

  /** The next state and the call's outcome. */
  datatype Step<T> = Step(next: State, out: Result<T, Error>)

  /** Either nothing is loaded, or a path, an original and a current image of the original's shape are. */
  predicate Consistent(s: State)
  {
    (s.imgPath.Some? <==> s.original.Some?) &&
    (s.original.Some? <==> s.current.Some?) &&
    (s.original.Some? ==> SameShape(s.original.value, s.current.value))
  }

  /** load_image(path) */
  function Load(s: State, path: string, read: Reader): (r: Step<Image>)
    ensures r.out.Success? <==> read(path, Color).Some?
    ensures r.out.Failure? ==> r.out.error == ImageReadError && r.next == s
    ensures r.out.Success? ==>
      r.next.imgPath == Some(path) &&
      r.next.original == r.next.current == Some(r.out.value) == read(path, Color)
    ensures r.out.Success? ==> Consistent(r.next)
  {
    match read(path, Color)
    case None => Step(s, Failure(ImageReadError))
    case Some(img) => Step(State(Some(path), Some(img), Some(img)), Success(img))
  }

  /** restore_image() */
  function Restore(s: State): (r: Step<Image>)
    ensures r.out.Success? <==> s.original.Some?
    ensures r.out.Failure? ==> r.out.error == NoImageLoaded && r.next == s
    ensures r.out.Success? ==>
      r.next == s.(current := s.original) && r.out.value == s.original.value
    ensures Consistent(s) ==> Consistent(r.next)
  {
    match s.original
    case None => Step(s, Failure(NoImageLoaded))
    case Some(img) => Step(s.(current := Some(img)), Success(img))
  }

  /** The effect tags apply_effect acts on; any other tag is a no-op. */
  const PixelateTag: string := "pixelate"
  const NoiseTag: string := "noise"

  /** apply_effect(effect), with the resize arithmetic and the noise sample as parameters. */
  function ApplyEffect(s: State, effect: string, sample: Sampler, noise: NoiseField): (r: Step<Option<Image>>)
    ensures r.next.imgPath == s.imgPath && r.next.original == s.original
    ensures r.out.Failure? ==> r.next == s
    ensures r.out.Success? ==> r.out.value == r.next.current
    ensures effect != PixelateTag && effect != NoiseTag ==> r == Step(s, Success(s.current))
    ensures (effect == PixelateTag || effect == NoiseTag) && s.current.None? ==> r.out == Failure(NoImageLoaded)
    ensures effect == PixelateTag && s.current.Some? ==>
      (r.out.Success? <==> Width(s.current.value) >= BlockSize && Height(s.current.value) >= BlockSize) &&
      (r.out.Failure? ==> r.out.error == ResizeError) &&
      (r.out.Success? ==> r.next.current == Pixelate(s.current.value, sample))
    ensures effect == NoiseTag && s.current.Some? ==>
      r.out.Success? && r.next.current == Some(AddNoise(s.current.value, noise)) &&
      Brightens(s.current.value, r.next.current.value)
    ensures Consistent(s) ==> Consistent(r.next)
  {
    if effect == PixelateTag then
      match s.current
      case None => Step(s, Failure(NoImageLoaded))
      case Some(img) =>
        match Pixelate(img, sample)
        case None => Step(s, Failure(ResizeError))
        case Some(p) => Step(s.(current := Some(p)), Success(Some(p)))
    else if effect == NoiseTag then
      match s.current
      case None => Step(s, Failure(NoImageLoaded))
      case Some(img) =>
        NoiseBrightens(img, noise);
        var n := AddNoise(img, noise);
        Step(s.(current := Some(n)), Success(Some(n)))
    else
      Step(s, Success(s.current))
  }

  /** One apply_effect call: the tag and the noise numpy would draw for it. */
  datatype EffectCall = EffectCall(effect: string, noise: NoiseField)

  /** A run of apply_effect calls; a raising call leaves the state as it was and the run goes on. */
  function ApplyAll(s: State, calls: seq<EffectCall>, sample: Sampler): State
  {
    if calls == [] then s
    else
      var last := calls[|calls| - 1];
      ApplyEffect(ApplyAll(s, calls[..|calls| - 1], sample), last.effect, sample, last.noise).next
  }

  /** Effects touch only the current image, and keep the session consistent. */
  lemma {:induction false} EffectsKeepOriginal(s: State, calls: seq<EffectCall>, sample: Sampler)
    ensures ApplyAll(s, calls, sample).imgPath == s.imgPath
    ensures ApplyAll(s, calls, sample).original == s.original
    ensures Consistent(s) ==> Consistent(ApplyAll(s, calls, sample))
  {
    if calls != [] {
      EffectsKeepOriginal(s, calls[..|calls| - 1], sample);
    }
  }

  /** Restoring after any run of effects gives back the original image, byte for byte. */
  lemma RestoreUndoesEffects(s: State, calls: seq<EffectCall>, sample: Sampler)
    requires s.original.Some?
    ensures Restore(ApplyAll(s, calls, sample)).out == Success(s.original.value)
    ensures Restore(ApplyAll(s, calls, sample)).next == s.(current := s.original)
  {
    EffectsKeepOriginal(s, calls, sample);
  }

  /** Restoring twice is restoring once. */
  lemma RestoreIdempotent(s: State)
    ensures Restore(Restore(s).next) == Restore(s)
  {
  }

  /** Loading, applying any effects and restoring shows the loaded image again. */
  lemma LoadEffectsRestore(s: State, path: string, read: Reader, calls: seq<EffectCall>, sample: Sampler)
    requires read(path, Color).Some?
    ensures Restore(ApplyAll(Load(s, path, read).next, calls, sample)).next.current == read(path, Color)
  {
    RestoreUndoesEffects(Load(s, path, read).next, calls, sample);
  }
}
