/** The Keras `SignaturePairGenerator` of `train/train4_2inputs.py` and
    `train/train5.py`: image paths gathered from `<image_dir>/genuine/*/` and
    `<image_dir>/forged/*/`, cut into batches of `batch_size` aligned
    (genuine, forged) path pairs, and reshuffled with one shared index
    permutation at the end of every epoch.

    The two scripts share the class and differ only in how a batch of paths
    becomes samples: `train4_2inputs.py` pairs each genuine image with the
    forged image at the same position (label 0), `train5.py` emits a matching
    pair (the genuine image with itself, label 1) followed by the genuine
    image with the forged one (label 0).

    The directory tree is a `Listing`, `load_img`/`img_to_array` the injected
    `load`, and `np.random.shuffle` the Fisher-Yates pass driven by `draw`. */
module PairBatches {
  import opened Results
  import opened Strings
  import opened FileTree
  import opened Permutations

  /** `f.endswith(('jpg', 'jpeg', 'png'))`: the suffixes carry no dot. */
  predicate IsTrainingImage(name: string)
  {
    EndsWith(name, "jpg") || EndsWith(name, "jpeg") || EndsWith(name, "png")
  }

  datatype GeneratorError =
    | NotADirectory(path: string)  // `os.listdir(class_path)` raises
    | IndexOutOfRange              // fewer forged paths than the shuffled indices reach

  /** The list comprehension of `_load_image_paths`: the joined paths of the
      training images a subfolder lists, in listing order. */
  function FolderImages(folder: string, names: seq<string>): (r: seq<string>)
    ensures |r| <= |names|
    ensures forall p :: p in r <==>
      exists j :: 0 <= j < |names| && IsTrainingImage(names[j]) && p == PathJoin(folder, names[j])
  {
    if names == [] then []
    else
      var last := names[|names| - 1];
      FolderImages(folder, names[..|names| - 1])
        + (if IsTrainingImage(last) then [PathJoin(folder, last)] else [])
  }

  /** `p` comes from the subfolder `sub` of `classPath`, which is a directory. */
  ghost predicate FromSubfolder(fs: Listing, classPath: string, sub: string, p: string)
  {
    var subPath := PathJoin(classPath, sub);
    subPath in fs && p in FolderImages(subPath, fs[subPath])
  }

  /** What the loop of `_load_image_paths` has gathered after the listed
      names `subs`: the images of each name that is a directory. */
  function ClassImages(fs: Listing, classPath: string, subs: seq<string>): seq<string>
  {
    if subs == [] then []
    else
      var subPath := PathJoin(classPath, subs[|subs| - 1]);
      ClassImages(fs, classPath, subs[..|subs| - 1])
        + (if subPath in fs then FolderImages(subPath, fs[subPath]) else [])
  }

  /** `_load_image_paths(class_name)`. */
  function LoadImagePathsSpec(fs: Listing, imageDir: string, className: string): Result<seq<string>, GeneratorError>
  {
    var classPath := PathJoin(imageDir, className);
    if classPath !in fs then Err(NotADirectory(classPath))
    else Ok(ClassImages(fs, classPath, fs[classPath]))
  }

  /** `_load_image_paths(class_name)`: list the class folder, keep the entries
      that are directories, extend with their training images. */
  method LoadImagePaths(fs: Listing, imageDir: string, className: string)
    returns (r: Result<seq<string>, GeneratorError>)
    ensures r == LoadImagePathsSpec(fs, imageDir, className)
  {
    var classPath := PathJoin(imageDir, className);
    if classPath !in fs {
      return Err(NotADirectory(classPath));
    }
    var subfolders := fs[classPath];
    var imagePaths: seq<string> := [];
    for k := 0 to |subfolders|
      invariant imagePaths == ClassImages(fs, classPath, subfolders[..k])
    {
      var subfolderPath := PathJoin(classPath, subfolders[k]);
      assert subfolders[..k + 1][..k] == subfolders[..k];
      if subfolderPath in fs {
        imagePaths := imagePaths + FolderImages(subfolderPath, fs[subfolderPath]);
      }
    }
    assert subfolders[..|subfolders|] == subfolders;
    return Ok(imagePaths);
  }

  /** A gathered path is exactly a training image of some listed name that is
      a directory. */
  lemma {:induction false} ClassImagesFromSubfolders(fs: Listing, classPath: string, subs: seq<string>, p: string)
    ensures p in ClassImages(fs, classPath, subs)
        <==> exists i :: 0 <= i < |subs| && FromSubfolder(fs, classPath, subs[i], p)
  {
    if subs != [] {
      var init := subs[..|subs| - 1];
      ClassImagesFromSubfolders(fs, classPath, init, p);
      if exists i :: 0 <= i < |init| && FromSubfolder(fs, classPath, init[i], p) {
        var i :| 0 <= i < |init| && FromSubfolder(fs, classPath, init[i], p);
        assert subs[i] == init[i];
      }
      if exists i :: 0 <= i < |subs| && FromSubfolder(fs, classPath, subs[i], p) {
        var i :| 0 <= i < |subs| && FromSubfolder(fs, classPath, subs[i], p);
        if i < |init| {
          assert init[i] == subs[i];
        }
      }
    }
  }

  /** Python's `s[lo:hi]` for non-negative bounds: both ends are clamped to the
      length, and a range that ends before it starts is empty. */
  function Slice<T>(s: seq<T>, lo: nat, hi: nat): (r: seq<T>)
    ensures lo <= hi <= |s| ==> r == s[lo..hi]
    ensures |s| <= lo ==> r == []
  {
    var end := if hi <= |s| then hi else |s|;
    if end <= lo then [] else s[lo..end]
  }

  /** The first `n` batches of `s`, one after the other. */
  function EpochBatches<T>(s: seq<T>, size: nat, n: nat): seq<T>
  {
    if n == 0 then [] else EpochBatches(s, size, n - 1) + Slice(s, (n - 1) * size, n * size)
  }

  /** Walking the batches `0 .. n-1` visits the first `n * size` elements once
      each, in order. */
  lemma {:induction false} BatchesCoverPrefix<T>(s: seq<T>, size: nat, n: nat)
    requires n * size <= |s|
    ensures EpochBatches(s, size, n) == s[..n * size]
  {
    if n > 0 {
      assert (n - 1) * size + size == n * size;
      BatchesCoverPrefix(s, size, n - 1);
      assert s[..n * size] == s[..(n - 1) * size] + s[(n - 1) * size..n * size];
    }
  }

  /** `__data_generation` of `train4_2inputs.py`: the position-wise pairs of
      the two path lists (zip stops at the shorter), every label 0. */
  method ForgedPairSamples<I>(genuinePaths: seq<string>, forgedPaths: seq<string>, load: string -> I)
    returns (x1: seq<I>, x2: seq<I>, y: seq<int>)
    ensures |x1| == |x2| == |y| == (if |genuinePaths| <= |forgedPaths| then |genuinePaths| else |forgedPaths|)
    ensures forall k :: 0 <= k < |y| ==>
      x1[k] == load(genuinePaths[k]) && x2[k] == load(forgedPaths[k]) && y[k] == 0
  {
    var n := if |genuinePaths| <= |forgedPaths| then |genuinePaths| else |forgedPaths|;
    x1, x2, y := [], [], [];
    for k := 0 to n
      invariant |x1| == |x2| == |y| == k
      invariant forall j :: 0 <= j < k ==>
        x1[j] == load(genuinePaths[j]) && x2[j] == load(forgedPaths[j]) && y[j] == 0
    {
      var img1 := load(genuinePaths[k]);
      var img2 := load(forgedPaths[k]);
      x1 := x1 + [img1];
      x2 := x2 + [img2];
      y := y + [0];
    }
  }

  /** `__data_generation` of `train5.py`: for each position-wise pair, first
      the genuine image with itself (label 1), then the genuine image with the
      forged one (label 0). */
  method SelfAndForgedSamples<I>(genuinePaths: seq<string>, forgedPaths: seq<string>, load: string -> I)
    returns (x1: seq<I>, x2: seq<I>, y: seq<int>)
    ensures |x1| == |x2| == |y| == 2 * (if |genuinePaths| <= |forgedPaths| then |genuinePaths| else |forgedPaths|)
    ensures forall j :: 0 <= j < |y| ==>
      && j / 2 < |genuinePaths| && j / 2 < |forgedPaths|
      && x1[j] == load(genuinePaths[j / 2])
      && x2[j] == (if j % 2 == 0 then load(genuinePaths[j / 2]) else load(forgedPaths[j / 2]))
      && y[j] == (if j % 2 == 0 then 1 else 0)
  {
    var n := if |genuinePaths| <= |forgedPaths| then |genuinePaths| else |forgedPaths|;
    x1, x2, y := [], [], [];
    for k := 0 to n
      invariant |x1| == |x2| == |y| == 2 * k
      invariant forall j :: 0 <= j < 2 * k ==>
        && x1[j] == load(genuinePaths[j / 2])
        && x2[j] == (if j % 2 == 0 then load(genuinePaths[j / 2]) else load(forgedPaths[j / 2]))
        && y[j] == (if j % 2 == 0 then 1 else 0)
    {
      var genuineImg := load(genuinePaths[k]);
      var forgedImg := load(forgedPaths[k]);
      x1 := x1 + [genuineImg, genuineImg];
      x2 := x2 + [genuineImg, forgedImg];
      y := y + [1, 0];
    }
  }

  /** `s[idx]` / `[s[i] for i in idx]`: raises IndexError when an index is
      past the end. */
  function Reindex<T>(s: seq<T>, idx: seq<nat>): (r: Option<seq<T>>)
    ensures r.Some? <==> forall k :: 0 <= k < |idx| ==> idx[k] < |s|
  {
    if forall k | 0 <= k < |idx| :: idx[k] < |s| then Some(Gather(s, idx)) else None
  }

  /** `indices = np.arange(n); np.random.shuffle(indices)`. */
  function ShuffledIndices(n: nat, draw: nat -> nat): (idx: seq<nat>)
    requires forall i :: draw(i) <= i
    ensures IsPermutation(idx, n)
  {
    ShuffledRangeIsPermutation(n, draw);
    Shuffled(Range(n), draw)
  }

  /** Reindexing the forged list by the genuine list's permutation fails
      exactly when there are fewer forged paths than genuine ones. */
  lemma ForgedReindexFailsIffShorter(genuine: seq<string>, forged: seq<string>, draw: nat -> nat)
    requires forall i :: draw(i) <= i
    ensures Reindex(genuine, ShuffledIndices(|genuine|, draw)).Some?
    ensures Reindex(forged, ShuffledIndices(|genuine|, draw)).None? <==> |forged| < |genuine|
  {
    var idx := ShuffledIndices(|genuine|, draw);
    PermutationBounds(idx, |genuine|);
    if |forged| < |genuine| {
      var top := |genuine| - 1;
      assert Range(|genuine|)[top] == top;
      assert top in multiset(idx);
      var k :| 0 <= k < |idx| && idx[k] == top;
      assert idx[k] >= |forged|;
    }
  }

  /** With at least as many forged paths as genuine ones, the shuffle keeps
      every genuine path, keeps the forged paths at positions below the
      genuine count and drops the rest, and keeps every original
      (genuine[k], forged[k]) pair together. */
  lemma ShuffleKeepsPairs(genuine: seq<string>, forged: seq<string>, draw: nat -> nat)
    requires forall i :: draw(i) <= i
    requires |genuine| <= |forged|
    ensures Reindex(genuine, ShuffledIndices(|genuine|, draw)).Some?
    ensures Reindex(forged, ShuffledIndices(|genuine|, draw)).Some?
    ensures multiset(Reindex(genuine, ShuffledIndices(|genuine|, draw)).value) == multiset(genuine)
    ensures multiset(Reindex(forged, ShuffledIndices(|genuine|, draw)).value) == multiset(forged[..|genuine|])
    ensures multiset(Zip(Reindex(genuine, ShuffledIndices(|genuine|, draw)).value,
                         Reindex(forged, ShuffledIndices(|genuine|, draw)).value))
         == multiset(Zip(genuine, forged[..|genuine|]))
  {
    var idx := ShuffledIndices(|genuine|, draw);
    var kept := forged[..|genuine|];
    PermutationBounds(idx, |genuine|);
    var newGenuine := Gather(genuine, idx);
    var newForged := Gather(forged, idx);
    assert newForged == Gather(kept, idx);
    GatherPermutation(genuine, idx);
    GatherPermutation(kept, idx);
    var pairs := Zip(genuine, kept);
    GatherPermutation(pairs, idx);
    assert Zip(newGenuine, newForged) == Gather(pairs, idx);
  }

  class SignaturePairGenerator {
    var batchSize: nat
    var shuffle: bool
    var genuineImages: seq<string>
    var forgedImages: seq<string>

    /** The field assignments of `__init__`, before the first shuffle. */
    constructor (batchSize: nat, shuffle: bool, genuineImages: seq<string>, forgedImages: seq<string>)
      ensures this.batchSize == batchSize && this.shuffle == shuffle
      ensures this.genuineImages == genuineImages && this.forgedImages == forgedImages
    {
      this.batchSize := batchSize;
      this.shuffle := shuffle;
      this.genuineImages := genuineImages;
      this.forgedImages := forgedImages;
    }

    /** `__len__`: the number of full batches of aligned pairs; a batch size
        of 0 raises ZeroDivisionError. */
    function Length(): (n: Option<nat>)
      reads this
      ensures n.None? <==> batchSize == 0
      ensures n.Some? ==> n.value * batchSize <= |genuineImages| && n.value * batchSize <= |forgedImages|
      ensures n.Some? ==> |genuineImages| < (n.value + 1) * batchSize || |forgedImages| < (n.value + 1) * batchSize
    {
      if batchSize == 0 then None
      else
        var shorter := if |genuineImages| <= |forgedImages| then |genuineImages| else |forgedImages|;
        FloorDivision(shorter, batchSize);
        Some(shorter / batchSize)
    }

    /** The genuine paths of batch `index`. */
    function GenuineBatch(index: nat): seq<string>
      reads this
    {
      Slice(genuineImages, index * batchSize, (index + 1) * batchSize)
    }

    /** The forged paths of batch `index`. */
    function ForgedBatch(index: nat): seq<string>
      reads this
    {
      Slice(forgedImages, index * batchSize, (index + 1) * batchSize)
    }

    /** `__getitem__` of `train4_2inputs.py`: a batch below `__len__` holds
        `batch_size` samples, each the genuine and forged images at the same
        position of the batch, labelled 0. */
    method GetForgedPairBatch<I>(index: nat, load: string -> I) returns (x1: seq<I>, x2: seq<I>, y: seq<int>)
      ensures Length().Some? && index < Length().value ==> |y| == batchSize
      ensures |x1| == |x2| == |y| <= |GenuineBatch(index)|
      ensures forall k :: 0 <= k < |y| ==>
        && k < |ForgedBatch(index)|
        && x1[k] == load(GenuineBatch(index)[k]) && x2[k] == load(ForgedBatch(index)[k]) && y[k] == 0
    {
      if Length().Some? && index < Length().value {
        FullBatch(genuineImages, batchSize, index, Length().value);
        FullBatch(forgedImages, batchSize, index, Length().value);
      }
      x1, x2, y := ForgedPairSamples(GenuineBatch(index), ForgedBatch(index), load);
    }

    /** `__getitem__` of `train5.py`: a batch below `__len__` holds
        `2 * batch_size` samples, alternating a genuine image paired with
        itself (label 1) and the same genuine image paired with the forged
        image at its position (label 0). */
    method GetSelfAndForgedBatch<I>(index: nat, load: string -> I) returns (x1: seq<I>, x2: seq<I>, y: seq<int>)
      ensures Length().Some? && index < Length().value ==> |y| == 2 * batchSize
      ensures |x1| == |x2| == |y| <= 2 * |GenuineBatch(index)|
      ensures forall j :: 0 <= j < |y| ==>
        && j / 2 < |GenuineBatch(index)| && j / 2 < |ForgedBatch(index)|
        && x1[j] == load(GenuineBatch(index)[j / 2])
        && x2[j] == (if j % 2 == 0 then load(GenuineBatch(index)[j / 2]) else load(ForgedBatch(index)[j / 2]))
        && y[j] == (if j % 2 == 0 then 1 else 0)
    {
      if Length().Some? && index < Length().value {
        FullBatch(genuineImages, batchSize, index, Length().value);
        FullBatch(forgedImages, batchSize, index, Length().value);
      }
      x1, x2, y := SelfAndForgedSamples(GenuineBatch(index), ForgedBatch(index), load);
    }

    /** `on_epoch_end`: with shuffling on, one shuffled `np.arange` over the
        genuine count reorders the genuine list and then the forged list; the
        forged reindexing raises when the forged list is shorter, after the
        genuine list was already reordered. With shuffling off nothing
        changes. */
    method OnEpochEnd(draw: nat -> nat) returns (r: Result<(), GeneratorError>)
      requires forall i :: draw(i) <= i
      modifies this
      ensures batchSize == old(batchSize) && shuffle == old(shuffle)
      ensures !shuffle ==>
        r.Ok? && genuineImages == old(genuineImages) && forgedImages == old(forgedImages)
      ensures shuffle ==>
        Some(genuineImages) == Reindex(old(genuineImages), ShuffledIndices(|old(genuineImages)|, draw))
      ensures shuffle && Reindex(old(forgedImages), ShuffledIndices(|old(genuineImages)|, draw)).Some? ==>
        r.Ok? && Some(forgedImages) == Reindex(old(forgedImages), ShuffledIndices(|old(genuineImages)|, draw))
      ensures shuffle && Reindex(old(forgedImages), ShuffledIndices(|old(genuineImages)|, draw)).None? ==>
        r == Err(IndexOutOfRange) && forgedImages == old(forgedImages)
    {
      if !shuffle {
        return Ok(());
      }
      var indices := new nat[|genuineImages|](i => i);
      assert indices[..] == Range(|genuineImages|);
      Shuffle(indices, draw);
      var order := indices[..];
      assert order == ShuffledIndices(|genuineImages|, draw);
      PermutationBounds(order, |genuineImages|);
      genuineImages := Reindex(genuineImages, order).value;
      var forged := Reindex(forgedImages, order);
      if forged.None? {
        return Err(IndexOutOfRange);
      }
      forgedImages := forged.value;
      return Ok(());
    }
  }

  lemma FloorDivision(m: nat, b: nat)
    requires b > 0
    ensures (m / b) * b <= m < (m / b + 1) * b
  {
  }

  /** A batch below `__len__` is full. */
  lemma FullBatch<T>(s: seq<T>, size: nat, index: nat, n: nat)
    requires index < n && n * size <= |s|
    ensures |Slice(s, index * size, (index + 1) * size)| == size
  {
    assert (index + 1) * size <= n * size;
  }

  /** `SignaturePairGenerator(image_dir, batch_size, shuffle=...)`: load both
      path lists, then run `on_epoch_end` once; a missing class folder or a
      failing first shuffle raises out of the constructor. */
  method Open(fs: Listing, imageDir: string, batchSize: nat, shuffle: bool, draw: nat -> nat)
    returns (r: Result<SignaturePairGenerator, GeneratorError>)
    requires forall i :: draw(i) <= i
    ensures LoadImagePathsSpec(fs, imageDir, "genuine").Err? ==>
      r == Err(LoadImagePathsSpec(fs, imageDir, "genuine").error)
    ensures LoadImagePathsSpec(fs, imageDir, "genuine").Ok? && LoadImagePathsSpec(fs, imageDir, "forged").Err? ==>
      r == Err(LoadImagePathsSpec(fs, imageDir, "forged").error)
    ensures r.Ok? ==>
      && LoadImagePathsSpec(fs, imageDir, "genuine").Ok? && LoadImagePathsSpec(fs, imageDir, "forged").Ok?
      && fresh(r.value)
      && r.value.batchSize == batchSize && r.value.shuffle == shuffle
    ensures r.Ok? && !shuffle ==>
      && r.value.genuineImages == LoadImagePathsSpec(fs, imageDir, "genuine").value
      && r.value.forgedImages == LoadImagePathsSpec(fs, imageDir, "forged").value
    ensures r.Ok? && shuffle ==>
      var genuine := LoadImagePathsSpec(fs, imageDir, "genuine").value;
      var forged := LoadImagePathsSpec(fs, imageDir, "forged").value;
      && Some(r.value.genuineImages) == Reindex(genuine, ShuffledIndices(|genuine|, draw))
      && Some(r.value.forgedImages) == Reindex(forged, ShuffledIndices(|genuine|, draw))
    ensures LoadImagePathsSpec(fs, imageDir, "genuine").Ok? && LoadImagePathsSpec(fs, imageDir, "forged").Ok? ==>
      (r.Err? <==> shuffle && |LoadImagePathsSpec(fs, imageDir, "forged").value| < |LoadImagePathsSpec(fs, imageDir, "genuine").value|)
  {
    var genuine := LoadImagePaths(fs, imageDir, "genuine");
    if genuine.Err? {
      return Err(genuine.error);
    }
    var forged := LoadImagePaths(fs, imageDir, "forged");
    if forged.Err? {
      return Err(forged.error);
    }
    ForgedReindexFailsIffShorter(genuine.value, forged.value, draw);
    var generator := new SignaturePairGenerator(batchSize, shuffle, genuine.value, forged.value);
    var shuffled := generator.OnEpochEnd(draw);
    if shuffled.Err? {
      return Err(shuffled.error);
    }
    return Ok(generator);
  }
}
