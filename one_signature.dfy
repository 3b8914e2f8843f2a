/** The single-signature checker `test2_onesignature.py`: every `.jpg`/`.png`
    file under the database folder is loaded with the folder's name as its
    label, the probe is scored against each, and the best match (the first
    one attaining the maximum, as `np.argmax` picks it) decides, with a strict
    `> THRESHOLD`.

    `os.walk` is the list of (folder, file names) steps it yields, or None
    when the folder does not exist; `preprocess_image` is `load`, None where
    it returns its empty array. */
module OneSignature {
  import opened Results
  import opened Strings
  import opened Scores
  import opened FileTree
  import opened SignatureUtils

  /** `THRESHOLD = 0.5`. */
  const Threshold: real := 0.5

  /** `filename.endswith(".jpg") or filename.endswith(".png")`, case-sensitive. */
  predicate IsDatabaseImage(name: string)
  {
    EndsWith(name, ".jpg") || EndsWith(name, ".png")
  }

  /** The two lists `load_signature_database` returns, kept side by side. */
  datatype SignatureDb<S> = SignatureDb(signatures: seq<S>, labels: seq<string>)

  function Concat<S>(a: SignatureDb<S>, b: SignatureDb<S>): SignatureDb<S>
  {
    SignatureDb(a.signatures + b.signatures, a.labels + b.labels)
  }

  /** What the files of one walked folder contribute, in listing order: each
      image file that loads, labelled with the folder's base name. */
  function FolderEntries<S>(root: string, files: seq<string>, load: string -> Option<S>): (r: SignatureDb<S>)
    decreases |files|
    ensures |r.signatures| == |r.labels| <= |files|
  {
    if files == [] then SignatureDb([], [])
    else
      var prev := FolderEntries(root, files[..|files| - 1], load);
      var name := files[|files| - 1];
      if IsDatabaseImage(name) && load(PathJoin(root, name)).Some? then
        Concat(prev, SignatureDb([load(PathJoin(root, name)).value], [Basename(root)]))
      else prev
  }

  /** What the whole walk contributes, folder after folder. */
  function WalkEntries<S>(walk: seq<WalkStep>, load: string -> Option<S>): (r: SignatureDb<S>)
    decreases |walk|
    ensures |r.signatures| == |r.labels|
  {
    if walk == [] then SignatureDb([], [])
    else Concat(WalkEntries(walk[..|walk| - 1], load),
                FolderEntries(walk[|walk| - 1].root, walk[|walk| - 1].files, load))
  }

  /** `load_signature_database(database_folder)`: two empty lists when the
      folder does not exist. */
  function LoadDatabase<S>(walk: Option<seq<WalkStep>>, load: string -> Option<S>): SignatureDb<S>
  {
    if walk.None? then SignatureDb([], []) else WalkEntries(walk.value, load)
  }

  /** `load_signature_database`: the nested walk loop appending to both lists. */
  method LoadSignatureDatabase<S>(walk: Option<seq<WalkStep>>, load: string -> Option<S>)
    returns (signatures: seq<S>, labels: seq<string>)
    ensures SignatureDb(signatures, labels) == LoadDatabase(walk, load)
  {
    signatures := [];
    labels := [];
    if walk.None? {
      return;
    }
    var steps := walk.value;
    for i := 0 to |steps|
      invariant SignatureDb(signatures, labels) == WalkEntries(steps[..i], load)
    {
      var root := steps[i].root;
      var files := steps[i].files;
      ghost var before := SignatureDb(signatures, labels);
      for j := 0 to |files|
        invariant SignatureDb(signatures, labels) == Concat(before, FolderEntries(root, files[..j], load))
      {
        var filename := files[j];
        assert files[..j + 1][..j] == files[..j];
        if IsDatabaseImage(filename) {
          var signature := load(PathJoin(root, filename));
          if signature.Some? {
            signatures := signatures + [signature.value];
            labels := labels + [Basename(root)];
          }
        }
      }
      assert files[..|files|] == files;
      assert steps[..i + 1][..i] == steps[..i];
    }
    assert steps[..|steps|] == steps;
  }

  /** `sig` labelled `lbl` comes from an image file of folder `root` that loads. */
  ghost predicate FromFolder<S>(root: string, files: seq<string>, load: string -> Option<S>, sig: S, lbl: string)
  {
    && lbl == Basename(root)
    && exists f :: 0 <= f < |files| && IsDatabaseImage(files[f]) && load(PathJoin(root, files[f])) == Some(sig)
  }

  /** Every entry of a folder is one of its loadable image files, labelled
      with the folder's base name. */
  lemma {:induction false} FolderEntriesSound<S>(root: string, files: seq<string>, load: string -> Option<S>)
    decreases |files|
    ensures forall k :: 0 <= k < |FolderEntries(root, files, load).signatures| ==>
      FromFolder(root, files, load, FolderEntries(root, files, load).signatures[k], FolderEntries(root, files, load).labels[k])
  {
    if files != [] {
      var init := files[..|files| - 1];
      FolderEntriesSound(root, init, load);
      var prev := FolderEntries(root, init, load);
      var r := FolderEntries(root, files, load);
      forall k | 0 <= k < |r.signatures|
        ensures FromFolder(root, files, load, r.signatures[k], r.labels[k])
      {
        if k < |prev.signatures| {
          assert r.signatures[k] == prev.signatures[k] && r.labels[k] == prev.labels[k];
          assert FromFolder(root, init, load, prev.signatures[k], prev.labels[k]);
          var f :| 0 <= f < |init| && IsDatabaseImage(init[f]) && load(PathJoin(root, init[f])) == Some(prev.signatures[k]);
          assert files[f] == init[f];
        } else {
          var f := |files| - 1;
          assert IsDatabaseImage(files[f]) && load(PathJoin(root, files[f])) == Some(r.signatures[k]);
        }
      }
    }
  }

  /** The database lists `sig` with label `lbl` at some position. */
  ghost predicate HasEntry<S>(db: SignatureDb<S>, sig: S, lbl: string)
  {
    exists k :: 0 <= k < |db.signatures| && k < |db.labels| && db.signatures[k] == sig && db.labels[k] == lbl
  }

  lemma HasEntryConcat<S>(a: SignatureDb<S>, b: SignatureDb<S>, sig: S, lbl: string)
    requires |a.signatures| == |a.labels|
    requires HasEntry(a, sig, lbl) || HasEntry(b, sig, lbl)
    ensures HasEntry(Concat(a, b), sig, lbl)
  {
    var c := Concat(a, b);
    if HasEntry(a, sig, lbl) {
      var k :| 0 <= k < |a.signatures| && k < |a.labels| && a.signatures[k] == sig && a.labels[k] == lbl;
      assert c.signatures[k] == sig && c.labels[k] == lbl;
    } else {
      var k :| 0 <= k < |b.signatures| && k < |b.labels| && b.signatures[k] == sig && b.labels[k] == lbl;
      assert c.signatures[|a.signatures| + k] == sig && c.labels[|a.labels| + k] == lbl;
    }
  }

  /** Every loadable image file of a folder has an entry, labelled with the
      folder's base name. */
  lemma {:induction false} FolderEntriesComplete<S>(root: string, files: seq<string>, load: string -> Option<S>, f: nat)
    requires f < |files| && IsDatabaseImage(files[f]) && load(PathJoin(root, files[f])).Some?
    decreases |files|
    ensures HasEntry(FolderEntries(root, files, load), load(PathJoin(root, files[f])).value, Basename(root))
  {
    var init := files[..|files| - 1];
    var prev := FolderEntries(root, init, load);
    var name := files[|files| - 1];
    var single := SignatureDb([load(PathJoin(root, files[f])).value], [Basename(root)]);
    if f < |files| - 1 {
      assert init[f] == files[f];
      FolderEntriesComplete(root, init, load, f);
      if IsDatabaseImage(name) && load(PathJoin(root, name)).Some? {
        HasEntryConcat(prev, SignatureDb([load(PathJoin(root, name)).value], [Basename(root)]),
                       load(PathJoin(root, files[f])).value, Basename(root));
      }
    } else {
      assert single.signatures[0] == load(PathJoin(root, files[f])).value && single.labels[0] == Basename(root);
      HasEntryConcat(prev, single, load(PathJoin(root, files[f])).value, Basename(root));
    }
  }

  /** `sig` labelled `lbl` comes from a loadable image file of some walked folder. */
  ghost predicate FromWalk<S>(walk: seq<WalkStep>, load: string -> Option<S>, sig: S, lbl: string)
  {
    exists w :: 0 <= w < |walk| && FromFolder(walk[w].root, walk[w].files, load, sig, lbl)
  }

  /** Every entry of the database comes from a loadable image file of some
      walked folder and carries that folder's base name; the two lists stay
      aligned. */
  lemma {:induction false} WalkEntriesSound<S>(walk: seq<WalkStep>, load: string -> Option<S>)
    decreases |walk|
    ensures forall k :: 0 <= k < |WalkEntries(walk, load).signatures| ==> FromWalk(walk, load, WalkEntries(walk, load).signatures[k], WalkEntries(walk, load).labels[k])
  {
    if walk != [] {
      var init := walk[..|walk| - 1];
      var last := walk[|walk| - 1];
      WalkEntriesSound(init, load);
      FolderEntriesSound(last.root, last.files, load);
      var prev := WalkEntries(init, load);
      var tail := FolderEntries(last.root, last.files, load);
      var r := WalkEntries(walk, load);
      forall k | 0 <= k < |WalkEntries(walk, load).signatures|
        ensures FromWalk(walk, load, WalkEntries(walk, load).signatures[k], WalkEntries(walk, load).labels[k])
      {
        if k < |prev.signatures| {
          assert r.signatures[k] == prev.signatures[k] && r.labels[k] == prev.labels[k];
          assert FromWalk(init, load, prev.signatures[k], prev.labels[k]);
          var w :| 0 <= w < |init| && FromFolder(init[w].root, init[w].files, load, prev.signatures[k], prev.labels[k]);
          assert walk[w] == init[w];
        } else {
          var t := k - |prev.signatures|;
          assert r.signatures[k] == tail.signatures[t] && r.labels[k] == tail.labels[t];
          assert FromFolder(last.root, last.files, load, tail.signatures[t], tail.labels[t]);
          assert walk[|walk| - 1] == last;
        }
      }
    }
  }

  /** Every loadable image file anywhere in the walk has an entry, labelled
      with its folder's base name. */
  lemma {:induction false} WalkEntriesComplete<S>(walk: seq<WalkStep>, load: string -> Option<S>, w: nat, f: nat)
    requires w < |walk| && f < |walk[w].files|
    requires IsDatabaseImage(walk[w].files[f]) && load(PathJoin(walk[w].root, walk[w].files[f])).Some?
    decreases |walk|
    ensures HasEntry(WalkEntries(walk, load), load(PathJoin(walk[w].root, walk[w].files[f])).value, Basename(walk[w].root))
  {
    var init := walk[..|walk| - 1];
    var last := walk[|walk| - 1];
    var sig := load(PathJoin(walk[w].root, walk[w].files[f])).value;
    if w < |walk| - 1 {
      assert init[w] == walk[w];
      WalkEntriesComplete(init, load, w, f);
    } else {
      FolderEntriesComplete(last.root, last.files, load, f);
    }
    HasEntryConcat(WalkEntries(init, load), FolderEntries(last.root, last.files, load), sig, Basename(walk[w].root));
  }

  datatype CompareOutcome =
    | NoInputPath      // nothing selected: no message
    | InputUnreadable  // "Failed to load input signature."
    | EmptyDatabase    // "No signatures found in the database."
    | BestMatch(index: nat, score: real, matchLabel: string, genuine: bool)

  /** `compare_signatures(input_signature_path)` against the database the walk
      yields. */
  function CompareSpec<S>(inputPath: string, walk: Option<seq<WalkStep>>, load: string -> Option<S>,
                          score: (S, S) -> real): CompareOutcome
  {
    if inputPath == "" then NoInputPath
    else match load(inputPath)
      case None => InputUnreadable
      case Some(probe) =>
        var db := LoadDatabase(walk, load);
        if db.signatures == [] then EmptyDatabase
        else
          var scores := ScoresOf(probe, db.signatures, score);
          var best := ArgMax(scores);
          BestMatch(best, scores[best], db.labels[best], scores[best] > Threshold)
  }

  /** `compare_signatures`: load the database, one score per entry, then
      `np.argmax` and the strict threshold. */
  method CompareSignatures<S>(inputPath: string, walk: Option<seq<WalkStep>>, load: string -> Option<S>,
                              score: (S, S) -> real)
    returns (outcome: CompareOutcome)
    ensures outcome == CompareSpec(inputPath, walk, load, score)
  {
    if inputPath == "" {
      return NoInputPath;
    }
    var inputSignature := load(inputPath);
    if inputSignature.None? {
      return InputUnreadable;
    }
    var databaseSignatures, labels := LoadSignatureDatabase(walk, load);
    if |databaseSignatures| == 0 {
      return EmptyDatabase;
    }
    var similarityScores: seq<real> := [];
    for k := 0 to |databaseSignatures|
      invariant similarityScores == ScoresOf(inputSignature.value, databaseSignatures[..k], score)
    {
      similarityScores := similarityScores + [score(inputSignature.value, databaseSignatures[k])];
    }
    assert databaseSignatures[..|databaseSignatures|] == databaseSignatures;
    var mostSimilarIndex := ArgMax(similarityScores);
    var mostSimilarScore := similarityScores[mostSimilarIndex];
    return BestMatch(mostSimilarIndex, mostSimilarScore, labels[mostSimilarIndex], mostSimilarScore > Threshold);
  }

  /** The reported match is the first database entry with the highest score,
      and its label is that entry's label. */
  lemma BestMatchIsFirstMaximum<S>(inputPath: string, walk: Option<seq<WalkStep>>, load: string -> Option<S>,
                                   score: (S, S) -> real)
    requires CompareSpec(inputPath, walk, load, score).BestMatch?
    ensures load(inputPath).Some?
    ensures
      var probe := load(inputPath).value;
      var db := LoadDatabase(walk, load);
      var m := CompareSpec(inputPath, walk, load, score);
      && m.index < |db.signatures|
      && m.score == score(probe, db.signatures[m.index])
      && m.matchLabel == db.labels[m.index]
      && (forall j :: 0 <= j < |db.signatures| ==> score(probe, db.signatures[j]) <= m.score)
      && (forall j :: 0 <= j < m.index ==> score(probe, db.signatures[j]) < m.score)
  {
    var probe := load(inputPath).value;
    var db := LoadDatabase(walk, load);
    var scores := ScoresOf(probe, db.signatures, score);
    assert forall j :: 0 <= j < |db.signatures| ==> scores[j] == score(probe, db.signatures[j]);
  }

  /** The best-match rule decides like `verify_signature` over the same
      database: the same top score and the same strict `> 0.5` acceptance. */
  lemma AgreesWithVerify<S>(inputPath: string, walk: Option<seq<WalkStep>>, load: string -> Option<S>,
                            score: (S, S) -> real)
    requires CompareSpec(inputPath, walk, load, score).BestMatch?
    ensures load(inputPath).Some? && LoadDatabase(walk, load).signatures != []
    ensures
      var d := Verify(load(inputPath).value, LoadDatabase(walk, load).signatures, score, DefaultThreshold).value;
      var m := CompareSpec(inputPath, walk, load, score);
      m.score == d.maxScore && m.genuine == d.accepted
  {
    var probe := load(inputPath).value;
    var db := LoadDatabase(walk, load);
    BestMatchIsFirstMaximum(inputPath, walk, load, score);
    var d := Verify(probe, db.signatures, score, DefaultThreshold).value;
    var m := CompareSpec(inputPath, walk, load, score);
    var i :| 0 <= i < |db.signatures| && d.maxScore == score(probe, db.signatures[i]);
    assert score(probe, db.signatures[m.index]) <= d.maxScore;
  }

  /** A missing database folder, or one without loadable images, gives the
      error and no decision. */
  lemma NoDatabaseNoDecision<S>(inputPath: string, walk: Option<seq<WalkStep>>, load: string -> Option<S>,
                                score: (S, S) -> real)
    requires inputPath != "" && load(inputPath).Some?
    ensures walk.None? ==> CompareSpec(inputPath, walk, load, score) == EmptyDatabase
    ensures CompareSpec(inputPath, walk, load, score) == EmptyDatabase <==> LoadDatabase(walk, load).signatures == []
  {
  }
}
