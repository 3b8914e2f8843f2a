/** The mean-based comparison `compare_signatures` of
    `new_model/signature_utils2.py`: the probe is scored against every image
    file of the user's folder, the scores are averaged, and the average is
    compared against the threshold with `>=`. (`load_pairs` of the same file is
    `SignatureUtils.LoadPairs`.)

    `preprocess(path)` stands for `load_img` and the normalisation, `None`
    when the image cannot be opened; `score(a, b)` for `model.predict` on two
    preprocessed images. */
module SignatureUtils2 {
  import opened Results
  import opened Strings
  import opened Scores
  import opened FileTree
  import opened SignatureUtils

  /** `img.endswith(('.png', '.jpg', '.jpeg'))`, case-sensitive. */
  predicate IsImageName(name: string)
  {
    EndsWith(name, ".png") || EndsWith(name, ".jpg") || EndsWith(name, ".jpeg")
  }

  /** The paths of the image files among `names`, in listing order. */
  function ImageFiles(dir: string, names: seq<string>): (r: seq<string>)
    ensures |r| <= |names|
    ensures forall p :: p in r <==> exists i :: 0 <= i < |names| && IsImageName(names[i]) && p == PathJoin(dir, names[i])
  {
    if names == [] then []
    else
      var rest := ImageFiles(dir, names[1..]);
      assert forall i :: 0 <= i < |names| - 1 ==> names[1..][i] == names[i + 1];
      if IsImageName(names[0]) then [PathJoin(dir, names[0])] + rest else rest
  }

  /** Every path of `paths` preprocessed, in order; the error is the first
      path that `load_img` cannot open. */
  function LoadAll<T>(paths: seq<string>, preprocess: string -> Option<T>): (r: Result<seq<T>, string>)
    ensures r.Ok? <==> forall i :: 0 <= i < |paths| ==> preprocess(paths[i]).Some?
    ensures r.Ok? ==> |r.value| == |paths| && forall i :: 0 <= i < |paths| ==> preprocess(paths[i]) == Some(r.value[i])
    ensures r.Err? ==>
      exists i :: 0 <= i < |paths| && paths[i] == r.error && preprocess(paths[i]).None? &&
                  (forall j :: 0 <= j < i ==> preprocess(paths[j]).Some?)
  {
    if paths == [] then Ok([])
    else
      var init := paths[..|paths| - 1];
      var last := paths[|paths| - 1];
      assert forall i :: 0 <= i < |init| ==> init[i] == paths[i];
      match LoadAll(init, preprocess)
      case Err(p) => Err(p)
      case Ok(images) =>
        if preprocess(last).None? then Err(last) else Ok(images + [preprocess(last).value])
  }

  datatype Verdict = Genuine | Forged

  /** `(avg_similarity, result)`; an average of `None` is the NaN `np.mean`
      returns for no similarities, which never passes `>=`. */
  datatype Comparison = Comparison(average: Option<real>, verdict: Verdict)

  /** `load_img` raises on an image it cannot open (the probe or a stored
      one), and `os.listdir(user_genuine_dir)` on a path that is not a
      directory. */
  datatype CompareError = Unreadable(path: string) | NotADirectory(path: string)

  /** `compare_signatures(input_signature_path, user_genuine_dir, model, threshold)`:
      the probe is loaded before the folder is listed. */
  function CompareSpec<T>(probe: string, dir: string, fs: Listing, preprocess: string -> Option<T>,
                          score: (T, T) -> real, threshold: real)
    : Result<Comparison, CompareError>
  {
    if preprocess(probe).None? then Err(Unreadable(probe))
    else if dir !in fs then Err(NotADirectory(dir))
    else match LoadAll(ImageFiles(dir, fs[dir]), preprocess)
      case Err(p) => Err(Unreadable(p))
      case Ok(images) =>
        var avg := Mean(ScoresOf(preprocess(probe).value, images, score));
        Ok(Comparison(avg, if avg.Some? && avg.value >= threshold then Genuine else Forged))
  }

  /** `compare_signatures`: load the probe, list the folder, then one
      similarity per selected file, in order, and the mean and the `>=` test. */
  method CompareSignatures<T>(probe: string, dir: string, fs: Listing, preprocess: string -> Option<T>,
                              score: (T, T) -> real, threshold: real)
    returns (r: Result<Comparison, CompareError>)
    ensures r == CompareSpec(probe, dir, fs, preprocess, score, threshold)
  {
    var inputSignature := preprocess(probe);
    if inputSignature.None? {
      return Err(Unreadable(probe));
    }
    if dir !in fs {
      return Err(NotADirectory(dir));
    }
    var userSignatures := ImageFiles(dir, fs[dir]);
    var similarities: seq<real> := [];
    ghost var loaded: seq<T> := [];
    for k := 0 to |userSignatures|
      invariant LoadAll(userSignatures[..k], preprocess) == Ok(loaded)
      invariant similarities == ScoresOf(inputSignature.value, loaded, score)
    {
      assert userSignatures[..k + 1][..k] == userSignatures[..k];
      var userSignature := preprocess(userSignatures[k]);
      if userSignature.None? {
        assert LoadAll(userSignatures[..k + 1], preprocess) == Err(userSignatures[k]);
        LoadAllStopsAtFirst(userSignatures, k + 1, preprocess);
        return Err(Unreadable(userSignatures[k]));
      }
      loaded := loaded + [userSignature.value];
      similarities := similarities + [score(inputSignature.value, userSignature.value)];
    }
    assert userSignatures[..|userSignatures|] == userSignatures;
    var avgSimilarity := Mean(similarities);
    var result := if avgSimilarity.Some? && avgSimilarity.value >= threshold then Genuine else Forged;
    return Ok(Comparison(avgSimilarity, result));
  }

  /** Once a prefix fails to load, the whole sequence fails with the same path. */
  lemma {:induction false} LoadAllStopsAtFirst<T>(paths: seq<string>, n: nat, preprocess: string -> Option<T>)
    requires n <= |paths| && LoadAll(paths[..n], preprocess).Err?
    ensures LoadAll(paths, preprocess) == LoadAll(paths[..n], preprocess)
    decreases |paths| - n
  {
    if n < |paths| {
      assert paths[..n + 1][..n] == paths[..n];
      LoadAllStopsAtFirst(paths, n + 1, preprocess);
    } else {
      assert paths[..n] == paths;
    }
  }

  /** The comparison fails only on an unreadable probe (checked before the
      folder), a missing folder, or an unreadable selected image; otherwise
      it returns a verdict. */
  lemma CompareOutcome<T>(probe: string, dir: string, fs: Listing, preprocess: string -> Option<T>,
                          score: (T, T) -> real, threshold: real)
    ensures CompareSpec(probe, dir, fs, preprocess, score, threshold).Ok?
      <==> preprocess(probe).Some? && dir in fs && forall p :: p in ImageFiles(dir, fs[dir]) ==> preprocess(p).Some?
    ensures preprocess(probe).None? ==> CompareSpec(probe, dir, fs, preprocess, score, threshold) == Err(Unreadable(probe))
    ensures preprocess(probe).Some? && dir in fs && CompareSpec(probe, dir, fs, preprocess, score, threshold).Err? ==>
      var e := CompareSpec(probe, dir, fs, preprocess, score, threshold).error;
      e.Unreadable? && e.path in ImageFiles(dir, fs[dir]) && preprocess(e.path).None?
  {
  }

  /** A verdict is backed by a single image: Genuine means some image was
      selected and one of them scores at least the threshold; Forged on a
      folder with images means one of them scores below it. */
  lemma VerdictHasWitness<T>(probe: string, dir: string, fs: Listing, preprocess: string -> Option<T>,
                             score: (T, T) -> real, threshold: real)
    requires CompareSpec(probe, dir, fs, preprocess, score, threshold).Ok?
    ensures CompareSpec(probe, dir, fs, preprocess, score, threshold).value.verdict == Genuine ==>
      && ImageFiles(dir, fs[dir]) != []
      && exists p :: p in ImageFiles(dir, fs[dir]) && preprocess(p).Some? &&
                     score(preprocess(probe).value, preprocess(p).value) >= threshold
    ensures CompareSpec(probe, dir, fs, preprocess, score, threshold).value.verdict == Forged && ImageFiles(dir, fs[dir]) != [] ==>
      exists p :: p in ImageFiles(dir, fs[dir]) && preprocess(p).Some? &&
                  score(preprocess(probe).value, preprocess(p).value) < threshold
  {
    var files := ImageFiles(dir, fs[dir]);
    var images := LoadAll(files, preprocess).value;
    var scores := ScoresOf(preprocess(probe).value, images, score);
    if files != [] {
      MeanWithinRange(scores);
      var verdict := CompareSpec(probe, dir, fs, preprocess, score, threshold).value.verdict;
      if verdict == Genuine {
        var i :| 0 <= i < |scores| && scores[i] == Max(scores);
        assert files[i] in files && preprocess(files[i]) == Some(images[i]);
      } else {
        var i :| 0 <= i < |scores| && scores[i] == Min(scores);
        assert files[i] in files && preprocess(files[i]) == Some(images[i]);
      }
    }
  }

  /** When every selected image loads and scores at least the threshold, the
      signature is Genuine. */
  lemma AllReachingIsGenuine<T>(probe: string, dir: string, fs: Listing, preprocess: string -> Option<T>,
                                score: (T, T) -> real, threshold: real)
    requires preprocess(probe).Some? && dir in fs && ImageFiles(dir, fs[dir]) != []
    requires forall p :: p in ImageFiles(dir, fs[dir]) ==>
      preprocess(p).Some? && score(preprocess(probe).value, preprocess(p).value) >= threshold
    ensures CompareSpec(probe, dir, fs, preprocess, score, threshold).Ok?
    ensures CompareSpec(probe, dir, fs, preprocess, score, threshold).value.verdict == Genuine
  {
    var files := ImageFiles(dir, fs[dir]);
    assert forall i :: 0 <= i < |files| ==> files[i] in files;
    var images := LoadAll(files, preprocess).value;
    var scores := ScoresOf(preprocess(probe).value, images, score);
    assert forall i :: 0 <= i < |scores| ==> scores[i] == score(preprocess(probe).value, preprocess(files[i]).value);
    MeanBounds(scores, threshold, Max(scores));
  }

  /** When every selected image loads and scores below the threshold, the
      signature is Forged. */
  lemma AllBelowIsForged<T>(probe: string, dir: string, fs: Listing, preprocess: string -> Option<T>,
                            score: (T, T) -> real, threshold: real)
    requires preprocess(probe).Some? && dir in fs
    requires forall p :: p in ImageFiles(dir, fs[dir]) ==>
      preprocess(p).Some? && score(preprocess(probe).value, preprocess(p).value) < threshold
    ensures CompareSpec(probe, dir, fs, preprocess, score, threshold).Ok?
    ensures CompareSpec(probe, dir, fs, preprocess, score, threshold).value.verdict == Forged
  {
    var files := ImageFiles(dir, fs[dir]);
    assert forall i :: 0 <= i < |files| ==> files[i] in files;
    var images := LoadAll(files, preprocess).value;
    var scores := ScoresOf(preprocess(probe).value, images, score);
    if scores != [] {
      assert forall i :: 0 <= i < |scores| ==> scores[i] == score(preprocess(probe).value, preprocess(files[i]).value);
      MeanWithinRange(scores);
      assert Max(scores) < threshold;
    }
  }

  /** With a readable probe, a folder without image files gives the NaN
      average and the Forged verdict. */
  lemma NoImagesIsForged<T>(probe: string, dir: string, fs: Listing, preprocess: string -> Option<T>,
                            score: (T, T) -> real, threshold: real)
    requires preprocess(probe).Some? && dir in fs
    requires forall i :: 0 <= i < |fs[dir]| ==> !IsImageName(fs[dir][i])
    ensures CompareSpec(probe, dir, fs, preprocess, score, threshold) == Ok(Comparison(None, Forged))
  {
    NoImageNames(dir, fs[dir]);
    assert ScoresOf(preprocess(probe).value, LoadAll([], preprocess).value, score) == [];
  }

  lemma {:induction false} NoImageNames(dir: string, names: seq<string>)
    requires forall i :: 0 <= i < |names| ==> !IsImageName(names[i])
    ensures ImageFiles(dir, names) == []
  {
    if names != [] {
      NoImageNames(dir, names[1..]);
    }
  }

  /** The two decision rules disagree at the threshold: when every reference
      scores exactly the threshold, `compare_signatures` says Genuine while
      `verify_signature` on the same loaded images rejects. */
  lemma TieSplitsTheRules<T>(probe: string, dir: string, fs: Listing, preprocess: string -> Option<T>,
                             score: (T, T) -> real, threshold: real)
    requires preprocess(probe).Some? && dir in fs && ImageFiles(dir, fs[dir]) != []
    requires forall p :: p in ImageFiles(dir, fs[dir]) ==>
      preprocess(p).Some? && score(preprocess(probe).value, preprocess(p).value) == threshold
    ensures CompareSpec(probe, dir, fs, preprocess, score, threshold).value.verdict == Genuine
    ensures !Verify(preprocess(probe).value, LoadAll(ImageFiles(dir, fs[dir]), preprocess).value, score, threshold).value.accepted
  {
    AllReachingIsGenuine(probe, dir, fs, preprocess, score, threshold);
    var files := ImageFiles(dir, fs[dir]);
    var images := LoadAll(files, preprocess).value;
    var d := Verify(preprocess(probe).value, images, score, threshold).value;
    var i :| 0 <= i < |images| && d.maxScore == score(preprocess(probe).value, images[i]);
    assert files[i] in files;
  }
}
