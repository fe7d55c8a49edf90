/**
 * The gallery folder as a tree of entries, os.walk over it, and the image-extension
 * filter of ImageManager.list_all_images.
 */
module FileTree {
  import opened Wrappers

  /** ROOT_FOLDER */
  const RootFolder: string := "Pessoas"

  /** A directory entry in the order the operating system lists it. */
  datatype Entry = File(name: string) | Dir(name: string, children: seq<Entry>)

  /** os.path.join of a relative POSIX path that does not end in a separator. */
  function Join(head: string, tail: string): string
  {
    head + "/" + tail
  }

  /** One triple yielded by os.walk, without the directory names the source ignores. */
  datatype WalkStep = WalkStep(root: string, files: seq<string>)

  /** The names of the non-directories of a listing, in listing order. */
  function FileNames(es: seq<Entry>): seq<string>
  {
    if es == [] then []
    else (if es[0].File? then [es[0].name] else []) + FileNames(es[1..])
  }

  /** os.walk(top), top-down: `top` with its files first, then each subdirectory walked in listing order. */
  function Walk(top: string, es: seq<Entry>): seq<WalkStep>
    decreases es, 1
  {
    [WalkStep(top, FileNames(es))] + WalkDirs(top, es)
  }

  function WalkDirs(top: string, es: seq<Entry>): seq<WalkStep>
    decreases es, 0
  {
    if es == [] then []
    else
      (match es[0]
       case File(_) => []
       case Dir(n, cs) => Walk(Join(top, n), cs))
      + WalkDirs(top, es[1..])
  }

  /** os.walk(ROOT_FOLDER); a missing root yields nothing. */
  function WalkRoot(fs: Option<seq<Entry>>): seq<WalkStep>
  {
    match fs
    case None => []
    case Some(es) => Walk(RootFolder, es)
  }

  /** str.lower on ASCII letters. */
  function LowerChar(c: char): char
  {
    if 'A' <= c <= 'Z' then (c as int + 32) as char else c
  }

  function Lower(s: string): (r: string)
    ensures |r| == |s|
    ensures forall i :: 0 <= i < |s| ==> r[i] == LowerChar(s[i])
  {
    seq(|s|, (i: int) requires 0 <= i < |s| => LowerChar(s[i]))
  }

  predicate EndsWith(s: string, suffix: string)
  {
    |suffix| <= |s| && s[|s| - |suffix|..] == suffix
  }

  /** valid_extensions */
  const ValidExtensions: seq<string> := [".jpg", ".jpeg", ".png"]

  /** file.lower().endswith(valid_extensions) */
  predicate IsImageFile(name: string)
  {
    exists i :: 0 <= i < |ValidExtensions| && EndsWith(Lower(name), ValidExtensions[i])
  }

  /** The image paths contributed by the files of one walk step, in order. */
  function ImagesIn(root: string, files: seq<string>): seq<string>
  {
    if files == [] then []
    else
      var last := files[|files| - 1];
      ImagesIn(root, files[..|files| - 1]) + (if IsImageFile(last) then [Join(root, last)] else [])
  }

  /** The image paths of a whole walk, step by step in walk order. */
  function ImagePaths(steps: seq<WalkStep>): seq<string>
  {
    if steps == [] then []
    else
      var last := steps[|steps| - 1];
      ImagePaths(steps[..|steps| - 1]) + ImagesIn(last.root, last.files)
  }

  /** Lowering twice is lowering once. */
  lemma {:induction false} LowerIdempotent(s: string)
    ensures Lower(Lower(s)) == Lower(s)
  {
    var l := Lower(s);
    forall i | 0 <= i < |s| ensures Lower(l)[i] == l[i] {
      assert l[i] == LowerChar(s[i]);
    }
  }

  /** The extension test ignores case: a name and its lower-case form are accepted alike. */
  lemma ImageFileIgnoresCase(name: string)
    ensures IsImageFile(name) <==> IsImageFile(Lower(name))
  {
    LowerIdempotent(name);
  }

  /** File j of a step with this root and these files is accepted and joins to p. */
  ghost predicate ListedAs(root: string, files: seq<string>, j: int, p: string)
  {
    0 <= j < |files| && IsImageFile(files[j]) && p == Join(root, files[j])
  }

  /** A path comes from a step's files exactly when it joins the step's root to an accepted file name. */
  lemma {:induction false} ImagesInMembership(root: string, files: seq<string>, p: string)
    ensures p in ImagesIn(root, files) <==> exists j :: ListedAs(root, files, j, p)
  {
    if files != [] {
      var n := |files| - 1;
      var front := files[..n];
      ImagesInMembership(root, front, p);
      if p in ImagesIn(root, files) {
        if p in ImagesIn(root, front) {
          var j :| ListedAs(root, front, j, p);
          assert front[j] == files[j];
          assert ListedAs(root, files, j, p);
        } else {
          assert ListedAs(root, files, n, p);
        }
      }
      if exists j :: ListedAs(root, files, j, p) {
        var j :| ListedAs(root, files, j, p);
        if j < n {
          assert front[j] == files[j];
          assert ListedAs(root, front, j, p);
        }
      }
    }
  }

  /** A path is listed exactly when some walk step has an accepted file name that joins to it. */
  lemma {:induction false} ImagePathsMembership(steps: seq<WalkStep>, p: string)
    ensures p in ImagePaths(steps) <==>
      exists k, j :: 0 <= k < |steps| && ListedAs(steps[k].root, steps[k].files, j, p)
  {
    if steps != [] {
      var n := |steps| - 1;
      var front := steps[..n];
      ImagePathsMembership(front, p);
      ImagesInMembership(steps[n].root, steps[n].files, p);
      assert ImagePaths(steps) == ImagePaths(front) + ImagesIn(steps[n].root, steps[n].files);
      if p in ImagePaths(steps) {
        if p in ImagePaths(front) {
          var k, j :| 0 <= k < |front| && ListedAs(front[k].root, front[k].files, j, p);
          assert front[k] == steps[k];
        } else {
          var j :| ListedAs(steps[n].root, steps[n].files, j, p);
        }
      }
      if exists k, j :: 0 <= k < |steps| && ListedAs(steps[k].root, steps[k].files, j, p) {
        var k, j :| 0 <= k < |steps| && ListedAs(steps[k].root, steps[k].files, j, p);
        if k < n {
          assert front[k] == steps[k];
        }
      }
    }
  }

  /** An upper-case extension is accepted. */
  lemma UpperCaseExtensionAccepted()
    ensures IsImageFile("Foto.JPG")
  {
    var l := Lower("Foto.JPG");
    assert l[4..] == ".jpg" by {
      assert |l| == 8;
      assert l[4] == '.' && l[5] == 'j' && l[6] == 'p' && l[7] == 'g';
    }
    assert EndsWith(l, ValidExtensions[0]);
  }

  /** A file without one of the three extensions is not listed, whatever its case. */
  lemma TextFileRejected()
    ensures !IsImageFile("a.TXT")
  {
    var l := Lower("a.TXT");
    assert |l| == 5 && l[4] == 't';
    assert !EndsWith(l, ValidExtensions[0]);
    assert !EndsWith(l, ValidExtensions[1]);
    assert !EndsWith(l, ValidExtensions[2]);
  }
}
