/** Training-pair synthesis of `new_model/data_preparation.py`: positive pairs
    are the 2-combinations of each identity's genuine images, negative pairs
    pair every genuine image with a randomly chosen forgery of the same
    identity, and `prepare_data` shuffles both kinds together with each label
    kept next to its pair.

    The directory tree is a `Listing`; `random.choice` is the injected `pick`
    and `random.shuffle` the Fisher-Yates pass driven by the injected `draw`. */
module DataPreparation {
  import opened Results
  import opened Strings
  import opened FileTree
  import opened Permutations

  /** A pair of image paths. */
  type Pair = (string, string)

  /** Two aligned lists: `pairs[k]` carries `labels[k]`. */
  datatype LabelledPairs = LabelledPairs(pairs: seq<Pair>, labels: seq<int>)

  datatype PrepError =
    | ListDirFailed(path: string)  // `os.listdir` on a path that is not a directory
    | EmptyChoice(folder: string)  // `random.choice` over a forged folder with no images
    | NothingToUnpack              // `zip(*[])` unpacked into two names

  /** `pick(f, k, n)` is the index `random.choice` draws among `n` forged
      images for the `k`-th genuine image of the `f`-th folder. */
  ghost predicate ValidPick(pick: (nat, nat, nat) -> nat)
  {
    forall f, k, n :: 0 < n ==> pick(f, k, n) < n
  }

  /** `[os.path.join(dir, img) for img in os.listdir(dir)]`. */
  function ListPaths(fs: Listing, dir: string): Option<seq<string>>
  {
    if dir !in fs then None
    else Some(seq(|fs[dir]|, i requires 0 <= i < |fs[dir]| => PathJoin(dir, fs[dir][i])))
  }

  function PairsWith<T>(x: T, s: seq<T>): seq<(T, T)>
  {
    seq(|s|, i requires 0 <= i < |s| => (x, s[i]))
  }

  /** `itertools.combinations(s, 2)`: `(s[i], s[j])` for `i < j`, in
      lexicographic order of `(i, j)`. */
  function Combinations2<T>(s: seq<T>): seq<(T, T)>
  {
    if s == [] then [] else PairsWith(s[0], s[1..]) + Combinations2(s[1..])
  }

  /** A folder of `n` images gives `n * (n - 1) / 2` positive pairs. */
  lemma {:induction false} CombinationsCount<T>(s: seq<T>)
    ensures |Combinations2(s)| == |s| * (|s| - 1) / 2
  {
    if s != [] {
      var n := |s|;
      CombinationsCount(s[1..]);
      assert n * (n - 1) == (n - 1) * (n - 2) + 2 * (n - 1);
    }
  }

  /** Every `(s[i], s[j])` with `i < j` is a positive pair. */
  lemma {:induction false} CombinationsComplete<T>(s: seq<T>)
    ensures forall i, j :: 0 <= i < j < |s| ==> (s[i], s[j]) in Combinations2(s)
  {
    if s != [] {
      var head, tail := PairsWith(s[0], s[1..]), s[1..];
      var c := Combinations2(s);
      assert c == head + Combinations2(tail);
      CombinationsComplete(tail);
      forall i, j | 0 <= i < j < |s|
        ensures (s[i], s[j]) in c
      {
        if i == 0 {
          assert c[j - 1] == (s[i], s[j]);
        } else {
          assert (tail[i - 1], tail[j - 1]) in Combinations2(tail);
        }
      }
    }
  }

  /** Every positive pair is some `(s[i], s[j])` with `i < j`. */
  lemma {:induction false} CombinationsSound<T>(s: seq<T>)
    ensures forall p :: p in Combinations2(s) ==> exists i, j :: 0 <= i < j < |s| && p == (s[i], s[j])
  {
    if s != [] {
      var head, tail := PairsWith(s[0], s[1..]), s[1..];
      var c := Combinations2(s);
      assert c == head + Combinations2(tail);
      CombinationsSound(tail);
      forall p | p in c
        ensures exists i, j :: 0 <= i < j < |s| && p == (s[i], s[j])
      {
        if p in head {
          var k :| 0 <= k < |head| && head[k] == p;
          assert p == (s[0], s[k + 1]);
        } else {
          assert p in Combinations2(tail);
          var i, j :| 0 <= i < j < |tail| && p == (tail[i], tail[j]);
          assert p == (s[i + 1], s[j + 1]);
        }
      }
    }
  }

  predicate Distinct<T(==)>(s: seq<T>)
  {
    forall i, j :: 0 <= i < j < |s| ==> s[i] != s[j]
  }

  /** Over distinct images there are no self-pairs and no pair occurs twice. */
  lemma {:induction false} CombinationsDistinct<T>(s: seq<T>)
    requires Distinct(s)
    ensures Distinct(Combinations2(s))
    ensures forall p :: p in Combinations2(s) ==> p.0 != p.1
  {
    CombinationsSound(s);
    if s != [] {
      var head, tail := PairsWith(s[0], s[1..]), s[1..];
      CombinationsDistinct(tail);
      CombinationsSound(tail);
      var c := Combinations2(s);
      assert c == head + Combinations2(tail);
      forall a, b | 0 <= a < b < |c|
        ensures c[a] != c[b]
      {
        if b < |head| {
          assert c[a] == (s[0], s[a + 1]) && c[b] == (s[0], s[b + 1]);
        } else if a < |head| {
          assert c[b] in Combinations2(tail);
          var i, j :| 0 <= i < j < |tail| && c[b] == (tail[i], tail[j]);
          assert c[b].0 == s[i + 1] != s[0];
        } else {
          assert c[a] == Combinations2(tail)[a - |head|];
          assert c[b] == Combinations2(tail)[b - |head|];
        }
      }
      forall p | p in c
        ensures p.0 != p.1
      {
        var i, j :| 0 <= i < j < |s| && p == (s[i], s[j]);
      }
    }
  }

  /** The genuine folder a forged folder is matched with: every `_forged`
      removed from the folder name, every `forged` in the data directory
      replaced by `genuine`. */
  function GenuineFolder(dataDir: string, userFolder: string): string
  {
    PathJoin(ReplaceAll(dataDir, "forged", "genuine"), ReplaceAll(userFolder, "_forged", ""))
  }

  /** `<root>forged/<name>_forged` is matched with `<root>genuine/<name>`. */
  lemma MatchedGenuineFolder(root: string, name: string)
    requires !Contains(root, "forged") && !Contains(name, "_forged")
    ensures GenuineFolder(root + "forged", name + "_forged") == PathJoin(root + "genuine", name)
  {
    assert HeadUnique("forged");
    assert HeadUnique("_forged");
    ReplaceSuffix(root, "forged", "genuine");
    ReplaceSuffix(name, "_forged", "");
    assert name + "" == name;
  }

  /** A folder name without `_forged` is matched with the folder of the same name. */
  lemma UntaggedFolderKeepsName(dataDir: string, name: string)
    requires !Contains(name, "_forged")
    ensures GenuineFolder(dataDir, name) == PathJoin(ReplaceAll(dataDir, "forged", "genuine"), name)
  {
    ReplaceAbsent(name, "_forged", "");
  }

  /** One negative pair per genuine image: the genuine image first, then a
      forgery drawn from the folder. Drawing from an empty folder raises. */
  function NegativePairs(genuine: seq<string>, forged: seq<string>, f: nat, pick: (nat, nat, nat) -> nat)
    : (r: Option<seq<Pair>>)
    requires ValidPick(pick)
    ensures r.None? <==> genuine != [] && forged == []
    ensures r.Some? ==> |r.value| == |genuine|
    ensures r.Some? ==> forall k :: 0 <= k < |genuine| ==> r.value[k].0 == genuine[k] && r.value[k].1 in forged
  {
    if genuine == [] then Some([])
    else if forged == [] then None
    else Some(seq(|genuine|, k requires 0 <= k < |genuine| => (genuine[k], forged[pick(f, k, |forged|)])))
  }

  /** The pairs one user folder (the `f`-th in the listing) contributes. */
  function FolderPairs(dataDir: string, folder: string, f: nat, isPositive: bool, fs: Listing,
                       pick: (nat, nat, nat) -> nat): Result<seq<Pair>, PrepError>
    requires ValidPick(pick)
  {
    var userPath := PathJoin(dataDir, folder);
    match ListPaths(fs, userPath)
    case None => Err(ListDirFailed(userPath))
    case Some(images) =>
      if isPositive then Ok(Combinations2(images))
      else
        var genuineDir := GenuineFolder(dataDir, folder);
        match ListPaths(fs, genuineDir)
        case None => Err(ListDirFailed(genuineDir))
        case Some(genuine) =>
          match NegativePairs(genuine, images, f, pick)
          case None => Err(EmptyChoice(userPath))
          case Some(ps) => Ok(ps)
  }

  /** The pairs of the first `n` folders, concatenated; the first failing
      folder ends the walk. */
  function PairsOfFolders(dataDir: string, folders: seq<string>, n: nat, isPositive: bool, fs: Listing,
                          pick: (nat, nat, nat) -> nat): Result<seq<Pair>, PrepError>
    requires n <= |folders| && ValidPick(pick)
  {
    if n == 0 then Ok([])
    else match PairsOfFolders(dataDir, folders, n - 1, isPositive, fs, pick)
      case Err(e) => Err(e)
      case Ok(ps) =>
        match FolderPairs(dataDir, folders[n - 1], n - 1, isPositive, fs, pick)
        case Err(e) => Err(e)
        case Ok(qs) => Ok(ps + qs)
  }

  lemma {:induction false} PairsOfFoldersFailureSticks(dataDir: string, folders: seq<string>, n: nat, m: nat,
                                                        isPositive: bool, fs: Listing, pick: (nat, nat, nat) -> nat)
    requires n <= m <= |folders| && ValidPick(pick)
    requires PairsOfFolders(dataDir, folders, n, isPositive, fs, pick).Err?
    ensures PairsOfFolders(dataDir, folders, m, isPositive, fs, pick) == PairsOfFolders(dataDir, folders, n, isPositive, fs, pick)
    decreases m
  {
    if m > n {
      PairsOfFoldersFailureSticks(dataDir, folders, n, m - 1, isPositive, fs, pick);
    }
  }

  lemma FolderSucceeds(dataDir: string, folders: seq<string>, n: nat, isPositive: bool, fs: Listing,
                       pick: (nat, nat, nat) -> nat)
    requires n < |folders| && ValidPick(pick)
    requires PairsOfFolders(dataDir, folders, n, isPositive, fs, pick).Ok?
    requires FolderPairs(dataDir, folders[n], n, isPositive, fs, pick).Ok?
    ensures PairsOfFolders(dataDir, folders, n + 1, isPositive, fs, pick)
         == Ok(PairsOfFolders(dataDir, folders, n, isPositive, fs, pick).value
               + FolderPairs(dataDir, folders[n], n, isPositive, fs, pick).value)
  {
  }

  lemma FolderFails(dataDir: string, folders: seq<string>, n: nat, isPositive: bool, fs: Listing,
                    pick: (nat, nat, nat) -> nat)
    requires n < |folders| && ValidPick(pick)
    requires PairsOfFolders(dataDir, folders, n, isPositive, fs, pick).Ok?
    requires FolderPairs(dataDir, folders[n], n, isPositive, fs, pick).Err?
    ensures PairsOfFolders(dataDir, folders, |folders|, isPositive, fs, pick)
         == Err(FolderPairs(dataDir, folders[n], n, isPositive, fs, pick).error)
  {
    PairsOfFoldersFailureSticks(dataDir, folders, n + 1, |folders|, isPositive, fs, pick);
  }

  /** The label `create_pairs` attaches to every pair. */
  function PairLabel(isPositive: bool): int
  {
    if isPositive then 1 else 0
  }

  function Constant(n: nat, v: int): seq<int>
  {
    seq(n, _ => v)
  }

  lemma ConstantConcat(a: nat, b: nat, v: int)
    ensures Constant(a, v) + Constant(b, v) == Constant(a + b, v)
  {
  }

  /** `create_pairs(data_dir, is_positive)`. */
  function CreatePairsSpec(dataDir: string, isPositive: bool, fs: Listing, pick: (nat, nat, nat) -> nat)
    : (r: Result<LabelledPairs, PrepError>)
    requires ValidPick(pick)
    ensures r.Ok? ==> |r.value.labels| == |r.value.pairs|
    ensures r.Ok? ==> forall k :: 0 <= k < |r.value.labels| ==> r.value.labels[k] == PairLabel(isPositive)
  {
    if dataDir !in fs then Err(ListDirFailed(dataDir))
    else match PairsOfFolders(dataDir, fs[dataDir], |fs[dataDir]|, isPositive, fs, pick)
      case Err(e) => Err(e)
      case Ok(ps) => Ok(LabelledPairs(ps, Constant(|ps|, PairLabel(isPositive))))
  }

  /** `for pair in itertools.combinations(images, 2): pairs.append(pair)`,
      with the combinations enumerated the way `itertools` produces them: for
      each position `i`, the partners after it in order. */
  method AppendCombinations(images: seq<string>) returns (added: seq<Pair>)
    ensures added == Combinations2(images)
  {
    added := [];
    for i := 0 to |images|
      invariant added + Combinations2(images[i..]) == Combinations2(images)
    {
      assert images[i..][1..] == images[i + 1..];
      added := AppendPartners(added, images[i], images[i + 1..]);
    }
  }

  /** The pairs of `x` with each later image, appended in order. */
  method AppendPartners(pairs: seq<Pair>, x: string, later: seq<string>) returns (added: seq<Pair>)
    ensures added == pairs + PairsWith(x, later)
  {
    added := pairs;
    for j := 0 to |later|
      invariant added == pairs + PairsWith(x, later[..j])
    {
      assert PairsWith(x, later[..j + 1]) == PairsWith(x, later[..j]) + [(x, later[j])];
      added := added + [(x, later[j])];
    }
    assert later[..|later|] == later;
  }

  /** The negative branch of `create_pairs`: one `random.choice` among the
      forged images per genuine image, in order. */
  method DrawNegatives(genuineImages: seq<string>, forgedImages: seq<string>, f: nat, pick: (nat, nat, nat) -> nat)
    returns (r: Option<seq<Pair>>)
    requires ValidPick(pick)
    ensures r == NegativePairs(genuineImages, forgedImages, f, pick)
  {
    var added: seq<Pair> := [];
    for k := 0 to |genuineImages|
      invariant |added| == k
      invariant k == 0 || forgedImages != []
      invariant forall m :: 0 <= m < k ==>
        added[m] == (genuineImages[m], forgedImages[pick(f, m, |forgedImages|)])
    {
      if forgedImages == [] {
        return None;
      }
      var forgedImage := forgedImages[pick(f, k, |forgedImages|)];
      added := added + [(genuineImages[k], forgedImage)];
    }
    if genuineImages != [] {
      assert added == seq(|genuineImages|, k requires 0 <= k < |genuineImages| =>
                                             (genuineImages[k], forgedImages[pick(f, k, |forgedImages|)]));
    }
    return Some(added);
  }

  /** The body of the folder loop of `create_pairs`: lists the folder, then
      builds its positive pairs or its negative pairs. */
  method CollectFolderPairs(dataDir: string, folder: string, f: nat, isPositive: bool, fs: Listing,
                            pick: (nat, nat, nat) -> nat) returns (r: Result<seq<Pair>, PrepError>)
    requires ValidPick(pick)
    ensures r == FolderPairs(dataDir, folder, f, isPositive, fs, pick)
  {
    var userPath := PathJoin(dataDir, folder);
    if userPath !in fs {
      return Err(ListDirFailed(userPath));
    }
    var images := ListPaths(fs, userPath).value;
    if isPositive {
      var added := AppendCombinations(images);
      return Ok(added);
    }
    var genuineDir := GenuineFolder(dataDir, folder);
    if genuineDir !in fs {
      return Err(ListDirFailed(genuineDir));
    }
    var genuineImages := ListPaths(fs, genuineDir).value;
    var negatives := DrawNegatives(genuineImages, images, f, pick);
    if negatives.None? {
      return Err(EmptyChoice(userPath));
    }
    return Ok(negatives.value);
  }

  /** `create_pairs(data_dir, is_positive)`: walks the user folders in listing
      order, appending each folder's pairs and one label per pair. */
  method CreatePairs(dataDir: string, isPositive: bool, fs: Listing, pick: (nat, nat, nat) -> nat)
    returns (r: Result<LabelledPairs, PrepError>)
    requires ValidPick(pick)
    ensures r == CreatePairsSpec(dataDir, isPositive, fs, pick)
  {
    if dataDir !in fs {
      return Err(ListDirFailed(dataDir));
    }
    var userFolders := fs[dataDir];
    var tag := PairLabel(isPositive);
    var pairs: seq<Pair>, labels: seq<int> := [], [];
    for f := 0 to |userFolders|
      invariant PairsOfFolders(dataDir, userFolders, f, isPositive, fs, pick) == Ok(pairs)
      invariant labels == Constant(|pairs|, tag)
      invariant ValidPick(pick)
    {
      var added := CollectFolderPairs(dataDir, userFolders[f], f, isPositive, fs, pick);
      if added.Err? {
        FolderFails(dataDir, userFolders, f, isPositive, fs, pick);
        return Err(added.error);
      }
      FolderSucceeds(dataDir, userFolders, f, isPositive, fs, pick);
      ConstantConcat(|pairs|, |added.value|, tag);
      pairs := pairs + added.value;
      labels := labels + Constant(|added.value|, tag);
    }
    return Ok(LabelledPairs(pairs, labels));
  }

  function Fst(p: (Pair, int)): Pair { p.0 }

  function Snd(p: (Pair, int)): int { p.1 }

  /** The tail of `prepare_data`: concatenate positives and negatives, zip
      pairs with labels, shuffle, unzip. */
  function CombineAndShuffle(pos: LabelledPairs, neg: LabelledPairs, draw: nat -> nat)
    : Result<LabelledPairs, PrepError>
    requires |pos.labels| == |pos.pairs| && |neg.labels| == |neg.pairs|
    requires forall i :: draw(i) <= i
  {
    var combined := Shuffled(Zip(pos.pairs + neg.pairs, pos.labels + neg.labels), draw);
    if combined == [] then Err(NothingToUnpack)
    else Ok(LabelledPairs(Map(Fst, combined), Map(Snd, combined)))
  }

  /** `prepare_data(train_genuine_dir, train_forged_dir)`. */
  function PrepareDataSpec(genuineDir: string, forgedDir: string, fs: Listing,
                           pick: (nat, nat, nat) -> nat, draw: nat -> nat): Result<LabelledPairs, PrepError>
    requires ValidPick(pick) && forall i :: draw(i) <= i
  {
    match CreatePairsSpec(genuineDir, true, fs, pick)
    case Err(e) => Err(e)
    case Ok(pos) =>
      match CreatePairsSpec(forgedDir, false, fs, pick)
      case Err(e) => Err(e)
      case Ok(neg) => CombineAndShuffle(pos, neg, draw)
  }

  /** `prepare_data`: positives then negatives, zipped, shuffled in place,
      unzipped again. */
  method PrepareData(genuineDir: string, forgedDir: string, fs: Listing,
                     pick: (nat, nat, nat) -> nat, draw: nat -> nat) returns (r: Result<LabelledPairs, PrepError>)
    requires ValidPick(pick) && forall i :: draw(i) <= i
    ensures r == PrepareDataSpec(genuineDir, forgedDir, fs, pick, draw)
  {
    var positive := CreatePairs(genuineDir, true, fs, pick);
    if positive.Err? {
      return Err(positive.error);
    }
    var negative := CreatePairs(forgedDir, false, fs, pick);
    if negative.Err? {
      return Err(negative.error);
    }
    var trainPairs := positive.value.pairs + negative.value.pairs;
    var trainLabels := positive.value.labels + negative.value.labels;
    var zipped := Zip(trainPairs, trainLabels);
    var combined := new (Pair, int)[|zipped|](k requires 0 <= k < |zipped| => zipped[k]);
    assert combined[..] == zipped;
    Shuffle(combined, draw);
    if combined.Length == 0 {
      return Err(NothingToUnpack);
    }
    var shuffled := combined[..];
    return Ok(LabelledPairs(Map(Fst, shuffled), Map(Snd, shuffled)));
  }

  lemma {:induction false} ConstantCount(n: nat, v: int, w: int)
    ensures multiset(Constant(n, v))[w] == if v == w then n else 0
  {
    if n > 0 {
      ConstantCount(n - 1, v, w);
      assert Constant(n, v) == Constant(n - 1, v) + [v];
    }
  }

  /** Unzipping gives back the zipped list. */
  lemma ZipUnzip(c: seq<(Pair, int)>)
    ensures Zip(Map(Fst, c), Map(Snd, c)) == c
  {
    var firsts, seconds := Map(Fst, c), Map(Snd, c);
    forall i | 0 <= i < |c|
      ensures Zip(firsts, seconds)[i] == c[i]
    {
      assert firsts[i] == Fst(c[i]) && seconds[i] == Snd(c[i]);
    }
  }

  lemma SndOfZip(a: seq<Pair>, b: seq<int>)
    requires |a| == |b|
    ensures Map(Snd, Zip(a, b)) == b
  {
    var z := Zip(a, b);
    forall i | 0 <= i < |b|
      ensures Map(Snd, z)[i] == b[i]
    {
      assert Map(Snd, z)[i] == Snd(z[i]);
    }
  }

  /** A reordering of positives (label 1) followed by negatives (label 0)
      still holds label 1 once per positive and label 0 once per negative. */
  lemma ReorderedLabelCounts(zipped: seq<(Pair, int)>, combined: seq<(Pair, int)>, p: nat, n: nat)
    requires multiset(combined) == multiset(zipped)
    requires Map(Snd, zipped) == Constant(p, 1) + Constant(n, 0)
    ensures multiset(Map(Snd, combined))[1] == p
    ensures multiset(Map(Snd, combined))[0] == n
  {
    MapPermutation(Snd, combined, zipped);
    ConstantCount(p, 1, 1);
    ConstantCount(p, 1, 0);
    ConstantCount(n, 0, 1);
    ConstantCount(n, 0, 0);
  }

  /** `prepare_data` returns every (pair, label) of the positives followed by
      the negatives, each exactly as often as before, with the label still
      attached to its pair; label 1 occurs once per positive pair and label 0
      once per negative pair. With no pairs at all it fails. */
  lemma CombineKeepsLabels(pos: LabelledPairs, neg: LabelledPairs, draw: nat -> nat)
    requires |pos.labels| == |pos.pairs| && |neg.labels| == |neg.pairs|
    requires forall i :: draw(i) <= i
    requires pos.labels == Constant(|pos.pairs|, 1) && neg.labels == Constant(|neg.pairs|, 0)
    ensures CombineAndShuffle(pos, neg, draw).Err? <==> pos.pairs == [] && neg.pairs == []
    ensures CombineAndShuffle(pos, neg, draw).Ok? ==>
      var out := CombineAndShuffle(pos, neg, draw).value;
      && |out.pairs| == |out.labels| == |pos.pairs| + |neg.pairs|
      && multiset(Zip(out.pairs, out.labels)) == multiset(Zip(pos.pairs + neg.pairs, pos.labels + neg.labels))
      && multiset(out.labels)[1] == |pos.pairs|
      && multiset(out.labels)[0] == |neg.pairs|
  {
    var zipped := Zip(pos.pairs + neg.pairs, pos.labels + neg.labels);
    var combined := Shuffled(zipped, draw);
    if combined != [] {
      var out := CombineAndShuffle(pos, neg, draw).value;
      assert out == LabelledPairs(Map(Fst, combined), Map(Snd, combined));
      ShuffledPermutes(zipped, draw);
      ZipUnzip(combined);
      SndOfZip(pos.pairs + neg.pairs, pos.labels + neg.labels);
      ReorderedLabelCounts(zipped, combined, |pos.pairs|, |neg.pairs|);
    }
  }

  /** The labels `create_pairs` produces are all 1 for positives and all 0
      for negatives, so `prepare_data` keeps one label 1 per positive pair. */
  lemma CreatedLabelsAreConstant(dataDir: string, isPositive: bool, fs: Listing, pick: (nat, nat, nat) -> nat)
    requires ValidPick(pick)
    requires CreatePairsSpec(dataDir, isPositive, fs, pick).Ok?
    ensures var r := CreatePairsSpec(dataDir, isPositive, fs, pick).value;
      r.labels == Constant(|r.pairs|, PairLabel(isPositive))
  {
  }
}
