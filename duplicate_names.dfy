/** `find_similar_files` of `image_checks/check_different_images.py`: every
    file met by `os.walk` is filed under its lower-cased name, and the names
    filed more than once are reported with all their paths.

    The walk is given as its sequence of (directory, file names) steps, in
    the order `os.walk` produced them; a root that does not exist walks
    nothing. */
module DuplicateNames {
  import opened Strings
  import opened FileTree

  /** One file of the walk: its name as listed and its joined path. */
  datatype WalkedFile = WalkedFile(name: string, path: string)

  /** The files of one walk step, in listing order. */
  function StepFiles(step: WalkStep): (r: seq<WalkedFile>)
    ensures |r| == |step.files|
  {
    seq(|step.files|, i requires 0 <= i < |step.files| => WalkedFile(step.files[i], PathJoin(step.root, step.files[i])))
  }

  /** Every file of the walk, step after step. */
  function WalkedFiles(walk: seq<WalkStep>): seq<WalkedFile>
  {
    if walk == [] then [] else WalkedFiles(walk[..|walk| - 1]) + StepFiles(walk[|walk| - 1])
  }

  /** The `file_names` dictionary after filing `files` in order. */
  function Groups(files: seq<WalkedFile>): map<string, seq<string>>
  {
    if files == [] then map[]
    else
      var groups := Groups(files[..|files| - 1]);
      var last := files[|files| - 1];
      var key := Lower(last.name);
      groups[key := (if key in groups then groups[key] else []) + [last.path]]
  }

  /** Reference definition of a group: the paths, in walk order, of the files
      whose lower-cased name is `key`. */
  function PathsNamed(files: seq<WalkedFile>, key: string): (r: seq<string>)
    ensures |r| <= |files|
  {
    if files == [] then []
    else
      var last := files[|files| - 1];
      PathsNamed(files[..|files| - 1], key) + (if Lower(last.name) == key then [last.path] else [])
  }

  /** Some filed file has lower-cased name `key`. */
  ghost predicate HasName(files: seq<WalkedFile>, key: string)
  {
    exists i :: 0 <= i < |files| && Lower(files[i].name) == key
  }

  /** The dictionary has a key exactly for each lower-cased name met, and the
      group under it is exactly the paths of the files with that name, in
      walk order: so each path is filed once, under its own name's key. */
  lemma {:induction false} GroupsAreNameFilters(files: seq<WalkedFile>, key: string)
    ensures key in Groups(files) <==> HasName(files, key)
    ensures key in Groups(files) ==> Groups(files)[key] == PathsNamed(files, key)
    ensures !HasName(files, key) ==> PathsNamed(files, key) == []
  {
    if files != [] {
      var init := files[..|files| - 1];
      GroupsAreNameFilters(init, key);
      if HasName(init, key) {
        var i :| 0 <= i < |init| && Lower(init[i].name) == key;
        assert files[i] == init[i];
      }
      if Lower(files[|files| - 1].name) == key {
        assert HasName(files, key);
      }
    }
  }

  /** `similar_files`: the groups holding more than one path. */
  function SimilarGroups(files: seq<WalkedFile>): (r: map<string, seq<string>>)
    ensures forall key :: key in r ==> |r[key]| > 1
    ensures files == [] ==> r == map[]
  {
    var groups := Groups(files);
    map key | key in groups && |groups[key]| > 1 :: groups[key]
  }

  /** A name is reported exactly when at least two walked files carry it up
      to letter case, and it is reported with all their paths in walk order. */
  lemma ReportedIffShared(files: seq<WalkedFile>, key: string)
    ensures key in SimilarGroups(files) <==> |PathsNamed(files, key)| > 1
    ensures key in SimilarGroups(files) ==> SimilarGroups(files)[key] == PathsNamed(files, key)
  {
    GroupsAreNameFilters(files, key);
  }

  /** Two different walked files whose names agree once lower-cased (such as
      `A.PNG` and `a.png`) are both reported, under that lower-cased name. */
  lemma {:induction false} SameNameUpToCaseReported(files: seq<WalkedFile>, i: nat, j: nat)
    requires i < j < |files|
    requires Lower(files[i].name) == Lower(files[j].name)
    ensures Lower(files[i].name) in SimilarGroups(files)
    ensures files[i].path in SimilarGroups(files)[Lower(files[i].name)]
    ensures files[j].path in SimilarGroups(files)[Lower(files[i].name)]
  {
    TwoPathsNamed(files, i, j, Lower(files[i].name));
    ReportedIffShared(files, Lower(files[i].name));
  }

  lemma {:induction false} TwoPathsNamed(files: seq<WalkedFile>, i: nat, j: nat, key: string)
    requires i < j < |files|
    requires Lower(files[i].name) == key && Lower(files[j].name) == key
    ensures |PathsNamed(files, key)| > 1
    ensures files[i].path in PathsNamed(files, key) && files[j].path in PathsNamed(files, key)
  {
    var init := files[..|files| - 1];
    if j < |files| - 1 {
      assert init[i] == files[i] && init[j] == files[j];
      TwoPathsNamed(init, i, j, key);
    } else {
      assert init[i] == files[i];
      OnePathNamed(init, i, key);
    }
  }

  lemma {:induction false} OnePathNamed(files: seq<WalkedFile>, i: nat, key: string)
    requires i < |files| && Lower(files[i].name) == key
    ensures |PathsNamed(files, key)| > 0
    ensures files[i].path in PathsNamed(files, key)
  {
    var init := files[..|files| - 1];
    if i < |files| - 1 {
      assert init[i] == files[i];
      OnePathNamed(init, i, key);
    }
  }

  lemma FileOne(files: seq<WalkedFile>, entry: WalkedFile)
    ensures Groups(files + [entry])
         == Groups(files)[Lower(entry.name) := (if Lower(entry.name) in Groups(files) then Groups(files)[Lower(entry.name)] else []) + [entry.path]]
  {
    assert (files + [entry])[..|files|] == files;
  }

  /** The inner loop of the walk: file the names of one step. */
  method FileStep(fileNames: map<string, seq<string>>, step: WalkStep, ghost filed: seq<WalkedFile>)
    returns (next: map<string, seq<string>>)
    requires fileNames == Groups(filed)
    ensures next == Groups(filed + StepFiles(step))
  {
    next := fileNames;
    ghost var done := filed;
    for f := 0 to |step.files|
      invariant done == filed + StepFiles(step)[..f]
      invariant next == Groups(done)
    {
      var file := step.files[f];
      var fileName := Lower(file);
      var filePath := PathJoin(step.root, file);
      ghost var entry := WalkedFile(file, filePath);
      assert StepFiles(step)[..f + 1] == StepFiles(step)[..f] + [entry];
      FileOne(done, entry);
      done := done + [entry];
      next := next[fileName := (if fileName in next then next[fileName] else []) + [filePath]];
    }
    assert StepFiles(step)[..|step.files|] == StepFiles(step);
  }

  /** The `items()` loop: keep the groups with more than one path. */
  method KeepShared(fileNames: map<string, seq<string>>) returns (similarFiles: map<string, seq<string>>)
    ensures similarFiles == map name | name in fileNames && |fileNames[name]| > 1 :: fileNames[name]
  {
    similarFiles := map[];
    var pending := fileNames.Keys;
    while pending != {}
      invariant pending <= fileNames.Keys
      invariant similarFiles == map name | name in fileNames.Keys - pending && |fileNames[name]| > 1 :: fileNames[name]
      decreases |pending|
    {
      var name :| name in pending;
      if |fileNames[name]| > 1 {
        similarFiles := similarFiles[name := fileNames[name]];
      }
      pending := pending - {name};
    }
  }

  /** `find_similar_files(root_folder)`: file every walked path under its
      lower-cased name, then copy the groups with more than one path. */
  method FindSimilarFiles(walk: seq<WalkStep>) returns (similarFiles: map<string, seq<string>>)
    ensures similarFiles == SimilarGroups(WalkedFiles(walk))
  {
    var fileNames: map<string, seq<string>> := map[];
    for s := 0 to |walk|
      invariant fileNames == Groups(WalkedFiles(walk[..s]))
    {
      assert walk[..s + 1][..s] == walk[..s];
      fileNames := FileStep(fileNames, walk[s], WalkedFiles(walk[..s]));
    }
    assert walk[..|walk|] == walk;
    similarFiles := KeepShared(fileNames);
  }
}
