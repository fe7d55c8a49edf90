# ImageManager: session state, effects and face-gallery bookkeeping

This project models `ImageManager` in `poo.py`, the object behind a small
photo application. The application loads a picture of a person, pixelates it
or adds noise, restores it, and asks an LBPH face recognizer (local binary
pattern histograms) who is shown.

The manager does four things:

- **Session slots.** `img_path`, `original_image` and `current_image`. They are the
  fields of the class `Manager.ImageManager`. Their transitions are the pure
  functions `Session.Load`, `Session.Restore` and `Session.ApplyEffect`, and
  each class method is tied to one of them.
- **Effects.** `Effects.Pixelate` and `Effects.AddNoise`, chosen by the tags
  `"pixelate"` and `"noise"`. Any other tag leaves the image as it is.
- **Training gallery.** The folder `Pessoas` is a tree of `FileTree.Entry`
  values. `prepare_training_data` is `ImageManager.PrepareTrainingData`, a loop
  proved against the specification functions `Gallery.ImagesOf`,
  `Gallery.LabelsOf` and `Gallery.LabelMapOf`. `get_person_name_from_label` is
  `Gallery.NameOf`.
- **Image listing.** `os.walk` is `FileTree.Walk`. `list_all_images` is
  `ImageManager.ListAllImages`, a loop proved equal to `FileTree.ImagePaths`.

Calls into OpenCV and numpy are parameters (module `Vision`):

- `cv2.imread` is a `Reader` that returns `Option<Image>`.
- The interpolation arithmetic of `cv2.resize` is a `Sampler`. `Vision.Resize`
  builds the output cell by cell, so the output always has the requested
  shape. It fails exactly where OpenCV raises: an empty source, or a target
  size with no area.
- The noise that numpy draws is a `NoiseField`: one byte per cell, taken after
  the `astype(np.uint8)` cast.
- `cv2.cvtColor` is a `GrayConverter`.
- The recognizer is an `Lbph` value: a `train` that succeeds or raises, and a
  `predict` that returns a label and a distance.

Images are values: an `Image` is a rectangular height × width × channels
grid of bytes. Every `.copy()` in the source therefore needs no counterpart.
Exceptions are `Failure` values of `Session.Error`. A raise in
`load_image`, `restore_image`, `apply_effect` or `prepare_training_data`
leaves every field as it was, because in the source it comes before the first
assignment. `recognize_face` is different: it replaces `label_map` before
training and before checking for a loaded image, so that replacement stays
even when one of those later steps raises.

Facts about the code that shape the model:

- Noise is cast to uint8 before the saturating `cv2.add` (poo.py:50-51), so it
  can only brighten (`Effects.NoiseBrightens`). The standalone script main.py
  instead clips signed Gaussian noise to [0, 255] (main.py:75-77).
- `prepare_training_data` reads every entry of a person folder, with no
  extension filter (poo.py:91-95). An unreadable entry contributes `None`.
- `get_person_name_from_label` returns a folder's name for every label in the
  map, label 0 included, and `"Desconhecido"` only for labels that are not in
  it (poo.py:103).
- No error of its own is raised for an empty gallery. Whatever
  `recognizer.train` raises on it is modelled as `TrainingError` (poo.py:69).
- `__init__` never creates `label_map` (poo.py:13-16). Looking up a name
  before the first training therefore raises `AttributeError`
  (`LabelMapUnset`).

## Model

| member | source | states |
|---|---|---|
| `Manager.ImageManager.constructor` | poo.py:13-16 | all three session slots start empty and no label map exists yet |
| `Manager.ImageManager.ListAllImages` | poo.py:18-26 | the nested loops return exactly the image paths of the walk, in walk order |
| `FileTree.ImagePathsMembership` | poo.py:22-25 | a path is listed iff some walked file with an accepted lower-cased extension joins to it |
| `FileTree.ImagesInMembership` | poo.py:23-25 | the same for the files of one walked folder |
| `FileTree.Lower` | poo.py:24 | ASCII lower-casing: the same length, each character lowered |
| `FileTree.ImageFileIgnoresCase` | poo.py:24 | the extension test gives the same answer for a name and its lower-case form |
| `FileTree.LowerIdempotent` | poo.py:24 | lower-casing twice is lower-casing once |
| `FileTree.UpperCaseExtensionAccepted` | poo.py:20-24 | "Foto.JPG" passes the extension test |
| `FileTree.TextFileRejected` | poo.py:20-24 | "a.TXT" fails the extension test |
| `Session.Load` | poo.py:28-36 | a failed read raises and changes nothing; a successful read sets the path and makes original and current both the read image |
| `Manager.ImageManager.LoadImage` | poo.py:28-36 | the fields move as `Session.Load` says, and the label map is untouched |
| `Session.Restore` | poo.py:38-41 | current becomes original, original and path stay; with nothing loaded it raises and changes nothing |
| `Manager.ImageManager.RestoreImage` | poo.py:38-41 | the fields move as `Session.Restore` says |
| `Session.RestoreIdempotent` | poo.py:38-41 | restoring twice gives the same state and result as restoring once |
| `Session.ApplyEffect` | poo.py:43-52 | only current changes; an unknown tag is a no-op returning current; pixelate succeeds iff the image is at least 10×10; noise only brightens; a raise leaves the state unchanged; consistency is kept |
| `Manager.ImageManager.ApplyEffect` | poo.py:43-52 | the fields move as `Session.ApplyEffect` says |
| `Effects.Pixelate` | poo.py:45-48 | defined iff width and height are at least 10, and then of the input's exact shape |
| `Vision.Resize` | poo.py:47-48 | cv2.resize gives the requested width and height and the source's channels, and fails on an empty source or target |
| `Effects.SaturatingAdd` | poo.py:51 | the uint8 sum of cv2.add: never below the first operand, exact below 256, else 255 |
| `Effects.AddNoise` | poo.py:49-51 | same shape; each channel is the saturating sum of the old value and its noise byte |
| `Effects.NoiseBrightens` | poo.py:49-51 | the noisy image has the input's shape and lowers no channel |
| `Effects.NoiseReachesEveryBrighterImage` | poo.py:49-51 | conversely, every same-shaped image that lowers no channel is produced by some noise |
| `Session.EffectsKeepOriginal` | poo.py:43-52 | any run of effects keeps the path and the original, and keeps the session consistent |
| `Session.RestoreUndoesEffects` | poo.py:38-52 | restoring after any run of effects returns and shows the original image |
| `Session.LoadEffectsRestore` | poo.py:28-52 | load, any effects, restore: the shown image is the one read from the path |
| `Manager.ImageManager.PrepareTrainingData` | poo.py:80-99 | with the root missing it raises and keeps the old map; otherwise it returns the images and labels of the person folders and replaces the label map wholesale |
| `Gallery.FolderImages` | poo.py:91-95 | one grayscale read per entry of a person folder, at Pessoas/person/entry |
| `Gallery.PersonDirsAreTheDirectories` | poo.py:87-89 | the person folders are exactly the directories of the root listing; files are skipped |
| `Gallery.TrainingListsConsistent` | poo.py:87-96 | images and labels have equal length, one pair per entry; labels lie in 0..k-1, never decrease, and are all keys of the label map |
| `Gallery.SampleAt` | poo.py:90-96 | entry j of folder i sits at position offset(i)+j with label i and the image read from its path |
| `Gallery.LabelMapSize` | poo.py:85-96 | k person folders give a label map of exactly k labels |
| `Gallery.NameOfLabel` | poo.py:90 | the label map's keys are 0..k-1 and label i names folder i; any other label is "Desconhecido" |
| `Gallery.TrainingLabelsHaveNames` | poo.py:90-103 | every training label resolves to the name of the folder its sample came from |
| `Gallery.TwoPersonGallery` | poo.py:80-99 | folders alice (3 images) and bob (2) beside a file give labels 0,0,0,1,1 and the map {0: alice, 1: bob} |
| `Gallery.NameOf` | poo.py:101-103 | the mapped name when the label is present, "Desconhecido" otherwise |
| `Manager.ImageManager.GetPersonNameFromLabel` | poo.py:101-103 | raises while no label map exists; otherwise gives the lookup with default |
| `Manager.ImageManager.RecognizeFace` | poo.py:65-78 | the gallery is rebuilt and the label map replaced before training; a failed training raises; then no loaded image raises; otherwise it returns the looked-up name of the predicted label and its distance; the image slots never change |

## Left out

- `analyze_emotions` (poo.py:54-63) is not modelled. It writes a fixed temporary file, hands its path to DeepFace and deletes the file. That is file I/O around a foreign model.
- LBPH training and prediction and `cv2.cvtColor` are oracles (`Vision.Lbph`, `Vision.GrayConverter`). The model does not capture when `cvtColor` rejects an image with the wrong number of channels.
- `Vision.Resize`: the values produced by linear and nearest-neighbour interpolation are left to the `Sampler` oracle. Only the shapes and the failure cases are fixed.
- `Effects.AddNoise`: the Gaussian draw and the platform-dependent cast of negative floats to uint8 are not modelled. Any byte per cell is allowed.
- Channels: a colour read may return an image with any number of channels, although `cv2.imread` in colour mode always gives 3. `Vision.Resize` keeps the source's channel count, which is right for those 3-channel images but not for an (h, w, 1) array, whose channel axis `cv2.resize` drops. The source never reaches such an array.
- Aliasing: `load_image` returns the array it read, and `restore_image` returns the object now held in `current_image`. Images are values here, so later in-place writes through those references are not captured. The source makes none.
- Paths: `os.path.join` is modelled with the POSIX separator `/`. `str.lower` is modelled on ASCII letters only.
- Directory order: listing order is taken as the order of each `Entry` sequence. `os.listdir` and `os.walk` are assumed to agree on it.
- Symbolic links are not modelled.
- A missing `Pessoas`, or one that is not a directory, is `None`. Then `os.walk` yields nothing and `os.listdir` raises.
- main.py, interface.py and teste.py are not part of this model. They hold the tkinter user interface, file dialogs, writing side files, display resizing, the Haar-cascade script and the emotion percentages.
