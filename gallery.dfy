/**
 * What ImageManager.prepare_training_data builds from the person folders under
 * ROOT_FOLDER, and the label-to-name lookup of get_person_name_from_label.
 */
module Gallery {
  import opened Wrappers
  import opened Raster
  import opened Vision
  import opened FileTree

  /** The name returned for a label the map does not hold. */
  const Unknown: string := "Desconhecido"

  /** The entries of the root listing that os.path.isdir accepts, in listing order. */
  function PersonDirs(es: seq<Entry>): seq<Entry>
  {
    if es == [] then []
    else
      var last := es[|es| - 1];
      PersonDirs(es[..|es| - 1]) + (if last.Dir? then [last] else [])
  }

  /** Everything os.listdir lists in a person folder: files and directories alike. */
  function Contents(d: Entry): seq<Entry>
  {
    if d.Dir? then d.children else []
  }

  /** Path of entry `j` of person folder `d`. */
  function SamplePath(d: Entry, j: nat): string
    requires j < |Contents(d)|
  {
    Join(Join(RootFolder, d.name), Contents(d)[j].name)
  }

  /** The grayscale reads of one person folder, one per listed entry. */
  function FolderImages(d: Entry, read: Reader): (r: seq<Option<Image>>)
    ensures |r| == |Contents(d)|
    ensures forall j :: 0 <= j < |r| ==> r[j] == read(SamplePath(d, j), Grayscale)
  {
    seq(|Contents(d)|, (j: int) requires 0 <= j < |Contents(d)| => read(SamplePath(d, j), Grayscale))
  }

  /** `images` of prepare_training_data, for the person folders `ds` in order. */
  function ImagesOf(ds: seq<Entry>, read: Reader): seq<Option<Image>>
  {
    if ds == [] then []
    else ImagesOf(ds[..|ds| - 1], read) + FolderImages(ds[|ds| - 1], read)
  }

  /** `labels` of prepare_training_data: folder i contributes its label i once per entry. */
  function LabelsOf(ds: seq<Entry>): seq<int>
  {
    if ds == [] then []
    else LabelsOf(ds[..|ds| - 1]) + seq(|Contents(ds[|ds| - 1])|, _ => |ds| - 1)
  }

  /** The number of samples the folders `ds` contribute. */
  function SampleCount(ds: seq<Entry>): nat
  {
    if ds == [] then 0 else SampleCount(ds[..|ds| - 1]) + |Contents(ds[|ds| - 1])|
  }

  /** `label_map`: label i names folder i. */
  function LabelMapOf(ds: seq<Entry>): map<int, string>
  {
    map l | 0 <= l < |ds| :: ds[l].name
  }

  /** self.label_map.get(label, "Desconhecido") */
  function NameOf(labelMap: map<int, string>, id: int): (r: string)
    ensures id in labelMap ==> r == labelMap[id]
    ensures id !in labelMap ==> r == Unknown
  {
    if id in labelMap then labelMap[id] else Unknown
  }

  /** Exactly the directories of the listing are person folders. */
  lemma {:induction false} PersonDirsAreTheDirectories(es: seq<Entry>)
    ensures forall e :: e in PersonDirs(es) <==> e in es && e.Dir?
    ensures |PersonDirs(es)| <= |es|
  {
    if es != [] {
      var n := |es| - 1;
      PersonDirsAreTheDirectories(es[..n]);
      assert es == es[..n] + [es[n]];
    }
  }

  /**
   * The training lists are parallel, one pair per entry of each person folder;
   * every label is the index of its folder; labels never decrease; every label
   * used is a key of the label map.
   */
  lemma {:induction false} TrainingListsConsistent(ds: seq<Entry>, read: Reader)
    ensures |ImagesOf(ds, read)| == |LabelsOf(ds)| == SampleCount(ds)
    ensures forall p :: 0 <= p < |LabelsOf(ds)| ==> 0 <= LabelsOf(ds)[p] < |ds|
    ensures forall p, q :: 0 <= p <= q < |LabelsOf(ds)| ==> LabelsOf(ds)[p] <= LabelsOf(ds)[q]
    ensures forall p :: 0 <= p < |LabelsOf(ds)| ==> LabelsOf(ds)[p] in LabelMapOf(ds)
  {
    if ds != [] {
      var n := |ds| - 1;
      TrainingListsConsistent(ds[..n], read);
      var front, back := LabelsOf(ds[..n]), seq(|Contents(ds[n])|, _ => n);
      var all := LabelsOf(ds);
      assert all == front + back;
      forall p | 0 <= p < |all| ensures 0 <= all[p] <= n {
        if p < |front| { assert all[p] == front[p]; } else { assert all[p] == back[p - |front|]; }
      }
      forall p, q | 0 <= p <= q < |all| ensures all[p] <= all[q] {
        if q < |front| {
          assert all[p] == front[p] && all[q] == front[q];
        } else if p >= |front| {
          assert all[p] == back[p - |front|] && all[q] == back[q - |front|];
        } else {
          assert all[p] == front[p] && all[q] == back[q - |front|];
        }
      }
    }
  }

  /** Where the samples of folder i begin in the training lists. */
  function Offset(ds: seq<Entry>, i: nat): nat
    requires i <= |ds|
  {
    SampleCount(ds[..i])
  }

  /** Entry j of folder i is read into position Offset(ds, i) + j and carries label i. */
  lemma {:induction false} SampleAt(ds: seq<Entry>, read: Reader, i: nat, j: nat)
    requires i < |ds| && j < |Contents(ds[i])|
    ensures Offset(ds, i) + j < |LabelsOf(ds)| == |ImagesOf(ds, read)|
    ensures LabelsOf(ds)[Offset(ds, i) + j] == i
    ensures ImagesOf(ds, read)[Offset(ds, i) + j] == read(SamplePath(ds[i], j), Grayscale)
  {
    var n := |ds| - 1;
    TrainingListsConsistent(ds, read);
    TrainingListsConsistent(ds[..n], read);
    if i < n {
      SampleAt(ds[..n], read, i, j);
      assert ds[..n][i] == ds[i];
      assert ds[..n][..i] == ds[..i];
    } else {
      assert ds[..i] == ds[..n];
    }
  }

  /** The label map has the keys 0 .. k-1 for k person folders, and label i names folder i; other labels are unknown. */
  lemma NameOfLabel(ds: seq<Entry>, id: int)
    ensures id in LabelMapOf(ds) <==> 0 <= id < |ds|
    ensures NameOf(LabelMapOf(ds), id) == if 0 <= id < |ds| then ds[id].name else Unknown
  {
  }

  /** Every label in the training lists resolves to the name of the folder its sample came from. */
  lemma TrainingLabelsHaveNames(ds: seq<Entry>, read: Reader, p: nat)
    requires p < |LabelsOf(ds)|
    ensures 0 <= LabelsOf(ds)[p] < |ds|
    ensures NameOf(LabelMapOf(ds), LabelsOf(ds)[p]) == ds[LabelsOf(ds)[p]].name
  {
    TrainingListsConsistent(ds, read);
  }

  /** k person folders give exactly k labels. */
  lemma {:induction false} LabelMapSize(ds: seq<Entry>)
    ensures |LabelMapOf(ds)| == |ds|
  {
    if ds == [] {
      assert LabelMapOf(ds) == map[];
    } else {
      var n := |ds| - 1;
      LabelMapSize(ds[..n]);
      var front := LabelMapOf(ds[..n]);
      assert LabelMapOf(ds).Keys == front.Keys + {n};
      assert n !in front.Keys;
    }
  }

  /** A gallery with folders alice/ (three pictures) and bob/ (two) next to a stray file. */
  lemma TwoPersonGallery(read: Reader)
    ensures
      var es := [Dir("alice", [File("a1.jpg"), File("a2.jpg"), File("a3.jpg")]),
                 File("notes.txt"),
                 Dir("bob", [File("b1.png"), File("b2.png")])];
      var ds := PersonDirs(es);
      LabelsOf(ds) == [0, 0, 0, 1, 1] &&
      LabelMapOf(ds) == map[0 := "alice", 1 := "bob"] &&
      |ImagesOf(ds, read)| == 5 &&
      ImagesOf(ds, read)[3] == read("Pessoas/bob/b1.png", Grayscale)
  {
    var alice := Dir("alice", [File("a1.jpg"), File("a2.jpg"), File("a3.jpg")]);
    var bob := Dir("bob", [File("b1.png"), File("b2.png")]);
    var es := [alice, File("notes.txt"), bob];
    assert es[..2][..1] == es[..1] == [alice];
    assert [alice][..0] == [];
    assert PersonDirs(es[..1]) == [alice];
    assert PersonDirs(es[..2]) == [alice];
    assert es[..2] == es[..|es| - 1];
    assert PersonDirs(es) == [alice, bob];
    var ds := [alice, bob];
    assert ds[..1] == [alice];
    assert LabelsOf([alice]) == [0, 0, 0];
    assert ImagesOf([alice], read) == FolderImages(alice, read);
    assert ImagesOf(ds, read) == FolderImages(alice, read) + FolderImages(bob, read);
    assert SamplePath(bob, 0) == "Pessoas/bob/b1.png";
  }
}
