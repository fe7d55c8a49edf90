/**
 * ImageManager: the session slots and the label map as fields that its methods
 * update in place. Each method is tied to the function of Session, Gallery or
 * FileTree that states what it does.
 */
module Manager {
  import opened Wrappers
  import opened Raster
  import opened Vision
  import opened Effects
  import opened FileTree
  import opened Gallery
  import opened Session

  /** The (images, labels) pair prepare_training_data returns. */
  datatype TrainingData = TrainingData(images: seq<Option<Image>>, labels: seq<int>)

  /** The (person_name, confidence) pair recognize_face returns. */
  datatype Recognition = Recognition(name: string, confidence: real)

  class ImageManager {
    var imgPath: Option<string>
    var originalImage: Option<Image>
    var currentImage: Option<Image>
    /** None until prepare_training_data first runs: __init__ does not create the attribute. */
    var labelMap: Option<map<int, string>>
    /** The person folders the label map was last built from. */
    ghost var persons: seq<Entry>

    /** The three session slots as a value. */
    function SessionState(): Session.State
      reads this
    {
      Session.State(imgPath, originalImage, currentImage)
    }

    ghost predicate Valid()
      reads this
    {
      Consistent(SessionState()) &&
      (labelMap.Some? ==> labelMap.value == LabelMapOf(persons))
    }

    /** __init__ */
    constructor ()
      ensures Valid()
      ensures SessionState() == Initial && labelMap.None?
    {
      imgPath, originalImage, currentImage := None, None, None;
      labelMap := None;
      persons := [];
    }

    /** list_all_images(): the walked files whose lower-cased name has an image extension, in walk order. */
    method ListAllImages(fs: Option<seq<Entry>>) returns (imageFiles: seq<string>)
      ensures imageFiles == ImagePaths(WalkRoot(fs))
    {
      var steps := WalkRoot(fs);
      imageFiles := [];
      var k := 0;
      while k < |steps|
        invariant 0 <= k <= |steps|
        invariant imageFiles == ImagePaths(steps[..k])
      {
        var step := steps[k];
        var j := 0;
        while j < |step.files|
          invariant 0 <= j <= |step.files|
          invariant imageFiles == ImagePaths(steps[..k]) + ImagesIn(step.root, step.files[..j])
        {
          var file := step.files[j];
          if IsImageFile(file) {
            imageFiles := imageFiles + [Join(step.root, file)];
          }
          assert step.files[..j + 1][..j] == step.files[..j];
          j := j + 1;
        }
        assert step.files[..j] == step.files;
        assert steps[..k + 1][..k] == steps[..k];
        k := k + 1;
      }
      assert steps[..k] == steps;
    }

    /** load_image(img_path) */
    method LoadImage(path: string, read: Reader) returns (r: Result<Image, Error>)
      requires Valid()
      modifies this
      ensures Valid()
      ensures SessionState() == Load(old(SessionState()), path, read).next
      ensures r == Load(old(SessionState()), path, read).out
      ensures labelMap == old(labelMap) && persons == old(persons)
    {
      var img := read(path, Color);
      if img.None? {
        return Failure(ImageReadError);
      }
      imgPath := Some(path);
      originalImage := img;
      currentImage := img;
      r := Success(img.value);
    }

    /** restore_image() */
    method RestoreImage() returns (r: Result<Image, Error>)
      requires Valid()
      modifies this
      ensures Valid()
      ensures SessionState() == Restore(old(SessionState())).next
      ensures r == Restore(old(SessionState())).out
      ensures labelMap == old(labelMap) && persons == old(persons)
    {
      if originalImage.None? {
        return Failure(NoImageLoaded);
      }
      currentImage := originalImage;
      r := Success(currentImage.value);
    }

    /** apply_effect(effect), with the resize arithmetic and the noise sample as parameters. */
    method ApplyEffect(effect: string, sample: Sampler, noise: NoiseField) returns (r: Result<Option<Image>, Error>)
      requires Valid()
      modifies this
      ensures Valid()
      ensures SessionState() == Session.ApplyEffect(old(SessionState()), effect, sample, noise).next
      ensures r == Session.ApplyEffect(old(SessionState()), effect, sample, noise).out
      ensures labelMap == old(labelMap) && persons == old(persons)
    {
      ghost var before := SessionState();
      if effect == PixelateTag {
        if currentImage.None? {
          return Failure(NoImageLoaded);
        }
        var pixelated := Pixelate(currentImage.value, sample);
        if pixelated.None? {
          return Failure(ResizeError);
        }
        currentImage := pixelated;
      } else if effect == NoiseTag {
        if currentImage.None? {
          return Failure(NoImageLoaded);
        }
        currentImage := Some(AddNoise(currentImage.value, noise));
      }
      r := Success(currentImage);
      assert Consistent(Session.ApplyEffect(before, effect, sample, noise).next);
    }

    /** prepare_training_data(): one (image, label) pair per entry of each person folder, and a fresh label map. */
    method PrepareTrainingData(fs: Option<seq<Entry>>, read: Reader) returns (r: Result<TrainingData, Error>)
      requires Valid()
      modifies this
      ensures Valid()
      ensures SessionState() == old(SessionState())
      ensures fs.None? ==> r == Failure(FolderNotFound) && labelMap == old(labelMap) && persons == old(persons)
      ensures fs.Some? ==>
        persons == PersonDirs(fs.value) &&
        labelMap == Some(LabelMapOf(persons)) &&
        r == Success(TrainingData(ImagesOf(persons, read), LabelsOf(persons)))
    {
      if fs.None? {
        return Failure(FolderNotFound);
      }
      var listing := fs.value;
      var images: seq<Option<Image>> := [];
      var labels: seq<int> := [];
      var newMap: map<int, string> := map[];
      var currentLabel := 0;
      ghost var dirs: seq<Entry> := [];
      var i := 0;
      while i < |listing|
        invariant 0 <= i <= |listing|
        invariant dirs == PersonDirs(listing[..i])
        invariant currentLabel == |dirs|
        invariant images == ImagesOf(dirs, read)
        invariant labels == LabelsOf(dirs)
        invariant newMap == LabelMapOf(dirs)
      {
        var entry := listing[i];
        if entry.Dir? {
          newMap := newMap[currentLabel := entry.name];
          var personPath := Join(RootFolder, entry.name);
          var j := 0;
          while j < |entry.children|
            invariant 0 <= j <= |entry.children|
            invariant images == ImagesOf(dirs, read) + FolderImages(entry, read)[..j]
            invariant labels == LabelsOf(dirs) + seq(j, _ => currentLabel)
          {
            var path := Join(personPath, entry.children[j].name);
            images := images + [read(path, Grayscale)];
            labels := labels + [currentLabel];
            assert FolderImages(entry, read)[..j + 1] == FolderImages(entry, read)[..j] + [read(path, Grayscale)];
            j := j + 1;
          }
          assert FolderImages(entry, read)[..j] == FolderImages(entry, read);
          assert (dirs + [entry])[..|dirs|] == dirs;
          assert LabelMapOf(dirs + [entry]) == newMap;
          dirs := dirs + [entry];
          currentLabel := currentLabel + 1;
        }
        assert listing[..i + 1][..i] == listing[..i];
        i := i + 1;
      }
      assert listing[..i] == listing;
      labelMap := Some(newMap);
      persons := dirs;
      r := Success(TrainingData(images, labels));
    }

    /** get_person_name_from_label(label) */
    method GetPersonNameFromLabel(id: int) returns (r: Result<string, Error>)
      ensures labelMap.None? ==> r == Failure(LabelMapUnset)
      ensures labelMap.Some? ==> r.Success? && r.value == NameOf(labelMap.value, id)
    {
      if labelMap.None? {
        return Failure(LabelMapUnset);
      }
      r := Success(NameOf(labelMap.value, id));
    }

    /**
     * recognize_face(): rebuild the gallery, train, then predict on the grayscale
     * current image. The gallery is rebuilt and the label map replaced before the
     * check for a loaded image.
     */
    method RecognizeFace(fs: Option<seq<Entry>>, read: Reader, toGray: GrayConverter, lbph: Lbph)
      returns (r: Result<Recognition, Error>)
      requires Valid()
      modifies this
      ensures Valid()
      ensures SessionState() == old(SessionState())
      ensures fs.None? ==> r == Failure(FolderNotFound) && labelMap == old(labelMap) && persons == old(persons)
      ensures fs.Some? ==> persons == PersonDirs(fs.value) && labelMap == Some(LabelMapOf(persons))
      ensures fs.Some? ==>
        var images, labels := ImagesOf(persons, read), LabelsOf(persons);
        (!lbph.train(images, labels) ==> r == Failure(TrainingError)) &&
        (lbph.train(images, labels) && currentImage.None? ==> r == Failure(NoImageToRecognize)) &&
        (lbph.train(images, labels) && currentImage.Some? ==>
          var guess := lbph.predict(images, labels, toGray(currentImage.value));
          r == Success(Recognition(NameOf(LabelMapOf(persons), guess.id), guess.confidence)))
    {
      var data := PrepareTrainingData(fs, read);
      if data.Failure? {
        return Failure(data.error);
      }
      var trained := lbph.train(data.value.images, data.value.labels);
      if !trained {
        return Failure(TrainingError);
      }
      if currentImage.None? {
        return Failure(NoImageToRecognize);
      }
      var gray := toGray(currentImage.value);
      var guess := lbph.predict(data.value.images, data.value.labels, gray);
      var name := GetPersonNameFromLabel(guess.id);
      r := Success(Recognition(name.value, guess.confidence));
    }
  }
}
