# Offline signature verification: the decision and data-handling core

This project models the sequential logic of an offline signature
verification system. Around a Siamese similarity network, the system has the
following parts:

- **Verification decision.** A probe signature is scored against a user's
  stored genuine signatures. The best score is compared with a threshold of
  0.5, and the signature is accepted only on a strict `>`.
  - `version_1` and `version_2` do this in `verify_signature`.
  - `test_verification.py` has an inline copy.
  - `test2_onesignature.py` has a whole-database arg-max variant.
  - `new_model/signature_utils2.py` has a mean-then-`>=` variant.
- **Training-pair synthesis** (`new_model/data_preparation.py`).
  - Positive pairs are all 2-combinations of an identity's genuine images.
  - Negative pairs give each genuine image a randomly chosen forgery.
  - Both kinds are shuffled together, with each label kept beside its pair.
- **Batch pair generator.** This is the Keras `SignaturePairGenerator` of
  `train/train4_2inputs.py` and `train/train5.py`.
  - It collects image paths and cuts them into batches.
  - It builds samples and labels per batch.
  - At every epoch end it reorders the genuine and forged lists by one shared
    index permutation.
- **Enrolment forms** (`add_user.py`, `main.py`, `version_2/main.py`).
  - The e-mail pattern and the input guards.
  - The `"id - name"` combobox entries and their `split(" - ")[0]` inverse.
  - The `", "`-joined multi-file selection.
  - The duplicate-aware upload loop of version 2 and the continue-on-error
    upload loop of `main.py`.
  - The SQLite store: AUTOINCREMENT ids, UNIQUE e-mails and append-only
    signature rows.
- **Duplicate file names** (`image_checks/check_different_images.py`).
  Walked files are grouped by lower-cased name, and the groups with more than
  one path are reported.

The similarity model, image decoding, the file system, the database
connection, the clock, the random number generator and the user's answers
are all parameters:

- `score` stands in for `model.predict`.
- `preprocess` / `load` stand in for image loading and fail with `None`.
- `readFile` stands in for `open(...).read()`.
- A `Listing` (directory path to listed names) stands in for `os.listdir`.
- A sequence of `WalkStep`s stands in for `os.walk`.
- `draw(i) <= i` drives the Fisher-Yates swaps of `random.shuffle` and
  `np.random.shuffle`.
- `pick` stands in for `random.choice`.
- `answer(k)` is the yes/no reply to the "replace?" prompt raised for the
  k-th selected file.

Each module follows one source file or one shared component:

| module | file | models |
|---|---|---|
| `Results` | results.dfy | `Option` / `Result` |
| `Strings` | strings.dfy | `str.split`, `join`, `replace`, `lower`, `endswith`, decimal formatting |
| `Scores` | scores.dfy | `max`, `np.argmax`, `np.mean` |
| `Permutations` | permutations.dfy | Fisher-Yates shuffle, index gathering, `zip` |
| `FileTree` | file_tree.dfy | `os.path.join`, `os.path.basename`, listings |
| `SignatureUtils` | signature_utils.dfy | `verify_signature` (version_1, version_2), `load_pairs` (version_2, new_model) |
| `SignatureUtils2` | signature_utils2.dfy | `compare_signatures` (new_model) |
| `DataPreparation` | data_preparation.dfy | `create_pairs`, `prepare_data` |
| `EmailRule` | email.dfy | `is_valid_email` |
| `UserStore` | user_store.dfy | the Users/Signatures tables, as class `Database` |
| `Forms` | forms.dfy | the add-user and verify handlers, combobox entries |
| `Uploads` | uploads.dfy | the three upload handlers |
| `OneSignature` | one_signature.dfy | `load_signature_database`, `compare_signatures` (test2_onesignature) |
| `PairBatches` | pair_batches.dfy | `SignaturePairGenerator` |
| `DuplicateNames` | duplicate_names.dfy | `find_similar_files` |

Where the code works step by step, the model is imperative. Loops become
methods whose `ensures` tie the result to a specification function; the
store and the pair generator are classes whose methods update their fields;
`random.shuffle` swaps in place in an array. The properties are proved
about the specification functions.

## Model

| member | source | states |
|---|---|---|
| `Scores.Max` | version_2/signature_utils.py:23 | the maximum of a non-empty score list is one of the scores and at least every score |
| `Scores.ArgMax` | test2_onesignature.py:78 | `np.argmax` is an in-range index holding the maximum, and every earlier index holds a strictly smaller score (first maximum) |
| `Scores.Mean` | new_model/signature_utils2.py:45 | the mean is undefined (NaN) exactly for an empty list |
| `Scores.MeanWithinRange` | new_model/signature_utils2.py:45 | the mean of a non-empty list lies between its minimum and its maximum |
| `SignatureUtils.Verify` | version_2/signature_utils.py:12-24 | an empty gallery is an error (`max([])` raises); otherwise the reported score is attained by some reference and bounds all of them, and acceptance is `maxScore > threshold`, strictly |
| `SignatureUtils.VerifySignature` | version_1/signature_utils.py:20-32 | the loop computing one score per reference, in order, and taking the max returns exactly `Verify` |
| `SignatureUtils.AcceptedIffSomeScoreAbove` | version_2/signature_utils.py:23-24 | a non-empty gallery is accepted iff some single reference scores strictly above the threshold |
| `SignatureUtils.VerifyOrderIndependent` | version_1/signature_utils.py:22-32 | reordering the gallery (same multiset) changes neither the score nor the decision |
| `SignatureUtils.LabelList.PopFront` | version_2/signature_utils.py:34 | `labels.pop(0)` returns the front label and removes exactly it; on an empty list it fails and leaves the list empty |
| `SignatureUtils.PairsLoadedIsFirstStop` | new_model/signature_utils2.py:15-20 | the pairs `load_pairs` gets through are exactly those before the first pair with an unloadable image or no label left |
| `SignatureUtils.LoadsAllIff` | version_2/signature_utils.py:27-35 | `load_pairs` gets through every pair iff every image loads and there are at least as many labels as pairs |
| `SignatureUtils.StopError` | version_2/signature_utils.py:30-34 | the exception at the stopping pair is the first of its two images that fails to load, else the `pop` on an empty list |
| `SignatureUtils.LoadPairs` | version_2/signature_utils.py:27-35 | it succeeds iff it gets through every pair, and then X1/X2 are the preprocessed images in order and y the first `len(pairs)` labels; otherwise it raises the stopping pair's error; either way exactly the labels of the pairs got through are removed from the caller's list |
| `SignatureUtils2.ImageFiles` | new_model/signature_utils2.py:29-33 | a path is selected iff it joins the directory with a listed name ending in `.png`, `.jpg` or `.jpeg` (case-sensitive) |
| `SignatureUtils2.LoadAll` | new_model/signature_utils2.py:38-39 | the selected images load iff each one does, giving one preprocessed image per path in order; otherwise the error names the first path that fails |
| `SignatureUtils2.LoadAllStopsAtFirst` | new_model/signature_utils2.py:38-39 | once a prefix of the paths fails to load, loading the whole list fails at the same path |
| `SignatureUtils2.CompareSignatures` | new_model/signature_utils2.py:24-50 | loading the probe, listing the folder, then one similarity per selected file returns exactly the specification, including its three errors |
| `SignatureUtils2.CompareOutcome` | new_model/signature_utils2.py:24-42 | a verdict is returned iff the probe loads, the folder exists and every selected image loads; an unreadable probe is reported before the folder is listed; otherwise the error names an unreadable selected image |
| `SignatureUtils2.VerdictHasWitness` | new_model/signature_utils2.py:38-48 | a Genuine verdict needs at least one selected image and one that scores at least the threshold; a Forged verdict on a folder with images has one that scores below it |
| `SignatureUtils2.AllReachingIsGenuine` | new_model/signature_utils2.py:45-48 | if the probe and every selected image load and every image scores at least the threshold, a verdict is returned and it is Genuine |
| `SignatureUtils2.AllBelowIsForged` | new_model/signature_utils2.py:45-48 | if the probe and every selected image load and every image scores below the threshold, a verdict is returned and it is Forged |
| `SignatureUtils2.NoImagesIsForged` | new_model/signature_utils2.py:25-48 | with a readable probe and no image names in the directory the mean is NaN and the verdict is Forged |
| `SignatureUtils2.TieSplitsTheRules` | new_model/signature_utils2.py:48 | when every score equals the threshold the mean rule says Genuine while the max rule of `verify_signature` rejects: `>=` against `>` |
| `DataPreparation.CombinationsCount` | new_model/data_preparation.py:17 | a folder of n images gives n·(n−1)/2 positive pairs |
| `DataPreparation.CombinationsComplete` | new_model/data_preparation.py:17-19 | every `(images[i], images[j])` with i < j is a positive pair |
| `DataPreparation.CombinationsSound` | new_model/data_preparation.py:17-19 | every positive pair is some `(images[i], images[j])` with i < j |
| `DataPreparation.CombinationsDistinct` | new_model/data_preparation.py:17-19 | distinct images give distinct pairs, none of them a self-pair |
| `DataPreparation.MatchedGenuineFolder` | new_model/data_preparation.py:23-24 | a forged folder `<root>forged/<name>_forged` is matched with `<root>genuine/<name>` |
| `DataPreparation.UntaggedFolderKeepsName` | new_model/data_preparation.py:23-24 | a folder name without `_forged` is kept, under the directory with every `forged` replaced by `genuine` |
| `DataPreparation.NegativePairs` | new_model/data_preparation.py:27-39 | one pair per genuine image, in order, genuine first and the second a member of the forged folder; `random.choice` over an empty forged folder raises when there are genuine images |
| `DataPreparation.CreatePairsSpec` | new_model/data_preparation.py:5-41 | pairs and labels have equal length and every label is 1 for positives, 0 for negatives |
| `DataPreparation.AppendCombinations` | new_model/data_preparation.py:17-19 | enumerating, for each image, its later partners in order and appending each pair yields exactly the combinations |
| `DataPreparation.AppendPartners` | new_model/data_preparation.py:17-19 | appending the pairs of one image with each later image adds exactly those pairs, in order |
| `DataPreparation.DrawNegatives` | new_model/data_preparation.py:36-39 | the negative-pair loop yields exactly `NegativePairs` |
| `DataPreparation.CollectFolderPairs` | new_model/data_preparation.py:11-39 | the body for one user folder yields exactly the specification, including the listing errors |
| `DataPreparation.CreatePairs` | new_model/data_preparation.py:5-41 | the nested loops return exactly `CreatePairsSpec` |
| `DataPreparation.PrepareData` | new_model/data_preparation.py:43-55 | the concatenate, zip, shuffle and unzip steps return exactly the specification |
| `DataPreparation.CombineKeepsLabels` | new_model/data_preparation.py:49-55 | it raises iff both pair lists are empty; otherwise the output is a permutation of the (pair, label) list, each label still beside its pair, with as many 1s as positive pairs and as many 0s as negative pairs |
| `DataPreparation.CreatedLabelsAreConstant` | new_model/data_preparation.py:19 | a successful `create_pairs` labels every pair with the constant of its kind |
| `DataPreparation.ReorderedLabelCounts` | new_model/data_preparation.py:52 | shuffling keeps the number of each label |
| `EmailRule.IsValidEmailIff` | version_2/main.py:13-16 | the pattern accepts exactly the core shape (local run, one `@`, label run, `.`, tail run), optionally followed by one newline (Python's `$`) |
| `EmailRule.MatchesCoreIff` | add_user.py:32-34 | the scanning matcher decides exactly the core shape |
| `EmailRule.ValidEmailHasOneAt` | main.py:8-11 | an accepted address holds exactly one `@` |
| `Strings.Split` | version_2/main.py:68 | `str.split` always returns at least one field |
| `Strings.SplitJoin` | version_2/main.py:59 | splitting a join on a separator that no part contains gives back the parts |
| `Strings.JoinSplit` | version_2/main.py:68 | joining the fields of a split gives back the string |
| `Strings.DecimalOfNatToString` | version_2/main.py:21 | the decimal text of an id reads back as that id |
| `Strings.NatToStringInjective` | main.py:16 | different ids have different decimal texts |
| `Strings.Lower` | image_checks/check_different_images.py:20 | lower-casing keeps the length and lowers each character |
| `UserStore.ImagesOf` | version_2/db_manager.py:44-47 | the images fetched for a key are at most the stored rows |
| `UserStore.StoredAfterInsert` | version_2/db_manager.py:38-47 | inserting images under a key makes exactly them appear, in order, after the images already stored for that key, and leaves other keys' images unchanged |
| `UserStore.Database.constructor` | version_2/db_manager.py:9-23 | fresh tables are empty and consistent |
| `UserStore.Database.AddUser` | add_user.py:49-57 | a taken e-mail fails (IntegrityError) and leaves the table unchanged; otherwise one user is appended under the next AUTOINCREMENT id, larger than every earlier id; ids stay unique and increasing and e-mails unique |
| `UserStore.Database.UserRows` | version_2/db_manager.py:33-36 | one (id, name) row per user, in table order |
| `UserStore.Database.AddSignature` | version_2/db_manager.py:38-42 | exactly one row is appended to the signatures, and the user table is unchanged |
| `Forms.SelectedKeyOfFormatted` | version_2/main.py:21-22 | `"{id} - {name}".split(" - ")[0]` is the id's text, whatever the name holds |
| `Forms.UserChoices` | add_user.py:82-85 | one combobox entry per user row |
| `Forms.ChoicesSelectTheirUsers` | main.py:13-16 | selecting an entry yields that user's id; users with different ids yield different keys |
| `Forms.AcceptedInput` | main.py:23-29 | the guards pass iff the name is non-empty and the e-mail has the pattern's shape |
| `Forms.HandleAddUser` | add_user.py:36-57 | a failed guard returns its warning and changes nothing; a taken e-mail returns "Email already exists!" and changes nothing; otherwise exactly one user is added under the next id |
| `Forms.HandleVerifySignature` | version_2/main.py:108-136 | the handler returns exactly `VerifyRequest`: the user guard, the file guard, the probe, the stored images, and the decision |
| `Forms.DecidedIffStoredSignatures` | main.py:60-84 | a decision is reached iff a user and a readable file are given and the user has stored signatures; a user with none gets the error |
| `Forms.VerifiedIffSomeStoredAbove` | test_verification.py:61-78 | the reported score is the best over the user's stored rows, and "Verified" holds iff some stored row scores strictly above 0.5 |
| `Uploads.SplitEntry` | version_2/main.py:68 | the entry always splits into at least one path |
| `Uploads.SelectionRoundTrip` | version_2/main.py:59-68 | splitting the `", "`-joined selection gives back the chosen paths when none contains `", "` |
| `Uploads.RemoveFirst` | version_2/main.py:92 | `list.remove` shortens a list holding the value by one and leaves any other list alone |
| `Uploads.RemoveFirstMultiset` | version_2/main.py:92 | `list.remove` takes away exactly one occurrence |
| `Uploads.UploadFrom` | version_2/main.py:78-102 | a run adds at most one image per remaining file |
| `Uploads.UploadLoop` | version_2/main.py:78-102 | the loop appends exactly the run's images under the user key and reports where it aborted |
| `Uploads.HandleUploadSignatures` | version_2/main.py:61-106 | the handler's outcome is `UploadRequest`'s, the store gains exactly the run's images under the selected key, and nothing is ever removed from the store |
| `Uploads.FreshFilesAllAdded` | version_2/main.py:97-99 | readable files whose bytes are not in the snapshot are all added, in order, without a prompt |
| `Uploads.NewDuplicatesBothAdded` | version_2/main.py:76-99 | two identical new files in one batch are both added, because the snapshot is never extended |
| `Uploads.DeclinedAddsOnlyNewImages` | version_2/main.py:94-95 | when every prompt is answered "no", only images absent from the snapshot are added |
| `Uploads.ReplaceKeepsStoredCopy` | version_2/main.py:90-93 | answering "yes" appends the new copy and the stored copy stays, so the store holds the image at least twice |
| `Uploads.FirstUnreadable` | version_2/main.py:100-102 | finds the first unreadable file at or after a position, with every file before it readable |
| `Uploads.AbortsAtFirstUnreadable` | version_2/main.py:100-102 | the run aborts exactly at the first unreadable file, and completes iff there is none |
| `Uploads.AttemptFrom` | main.py:52-57 | every remaining file ends up either added or failed |
| `Uploads.EveryFileAttempted` | main.py:52-58 | every readable file's bytes are added and every unreadable file is reported as failed, whatever its position |
| `Uploads.HandleUploadAll` | main.py:40-58 | the handler appends exactly the readable files' images under the selected key and reports the failures |
| `Uploads.UploadSignature` | add_user.py:59-80 | no user or no file changes nothing; an unreadable file reports the error and changes nothing; otherwise exactly one row is appended under the selected id |
| `Uploads.UploadedUnderSelectedId` | add_user.py:73-77 | an upload for the entry `"{id} - {name}"` becomes the last image fetched for that id |
| `FileTree.Basename` | test2_onesignature.py:48 | a basename holds no `/` |
| `FileTree.BasenameOfJoin` | test2_onesignature.py:43-48 | the basename of a joined path is the joined name |
| `OneSignature.FolderEntries` | test2_onesignature.py:41-49 | one folder yields equally many signatures and labels, at most one per file |
| `OneSignature.WalkEntries` | test2_onesignature.py:40-49 | signatures and labels always have equal length |
| `OneSignature.LoadSignatureDatabase` | test2_onesignature.py:31-51 | the nested walk loops return exactly `LoadDatabase`, which is empty for a missing folder |
| `OneSignature.FolderEntriesSound` | test2_onesignature.py:42-49 | every entry comes from a `.jpg`/`.png` file of that folder that loaded, labelled with the folder's basename |
| `OneSignature.WalkEntriesSound` | test2_onesignature.py:40-49 | every database entry comes from such a file of some walked folder |
| `OneSignature.FolderEntriesComplete` | test2_onesignature.py:42-49 | every such file that loads is in the folder's entries, labelled with the folder's basename |
| `OneSignature.WalkEntriesComplete` | test2_onesignature.py:40-49 | every such file that loads anywhere in the walk is in the database |
| `OneSignature.CompareSignatures` | test2_onesignature.py:54-91 | the scoring loop returns exactly `CompareSpec` |
| `OneSignature.BestMatchIsFirstMaximum` | test2_onesignature.py:72-80 | the chosen index is the first holding the maximum score, and the reported label is `labels[index]` |
| `OneSignature.AgreesWithVerify` | test2_onesignature.py:83 | the best score and the genuine verdict are those of `verify_signature` over the database at THRESHOLD 0.5, `>` strictly |
| `OneSignature.NoDatabaseNoDecision` | test2_onesignature.py:65-69 | a missing folder gives the empty-database error; that error happens iff no signature loaded |
| `PairBatches.FolderImages` | train/train4_2inputs.py:27 | a path is kept iff it joins the subfolder with a listed name ending in `jpg`, `jpeg` or `png` |
| `PairBatches.LoadImagePaths` | train/train4_2inputs.py:21-28 | the loop returns exactly `LoadImagePathsSpec`: a class folder that is not a directory raises |
| `PairBatches.ClassImagesFromSubfolders` | train/train5.py:21-28 | a gathered path is exactly a kept image of some listed entry that is a directory |
| `PairBatches.Slice` | train/train4_2inputs.py:34-35 | Python slicing: an in-range slice is the subsequence, and a slice starting at or past the end is empty |
| `PairBatches.BatchesCoverPrefix` | train/train5.py:35-36 | batches 0 .. n−1 of slices `[i·b, (i+1)·b)` visit the first n·b paths once each, in order |
| `PairBatches.ForgedPairSamples` | train/train4_2inputs.py:40-59 | a batch has `min` of the two lengths samples, each the genuine and the forged image at one position, every label 0 |
| `PairBatches.SelfAndForgedSamples` | train/train5.py:41-65 | each zipped pair emits (g, g, 1) then (g, f, 0): twice `min` samples, the first input always genuine, labels alternating 1, 0 |
| `PairBatches.Reindex` | train/train4_2inputs.py:68-69 | reindexing succeeds iff every index is in range |
| `PairBatches.ShuffledIndices` | train/train4_2inputs.py:64-65 | the shuffled `np.arange(n)` is a permutation of `range(n)` |
| `PairBatches.ForgedReindexFailsIffShorter` | train/train5.py:67-75 | the genuine reindexing always succeeds; the forged one raises iff there are fewer forged than genuine paths |
| `PairBatches.ShuffleKeepsPairs` | train/train4_2inputs.py:61-69 | with enough forged paths, the shuffle keeps every genuine path and the forged paths below the genuine count (the rest are dropped), and every original (genuine[k], forged[k]) pair stays aligned |
| `PairBatches.SignaturePairGenerator.constructor` | train/train5.py:12-17 | the fields hold the given batch size, flag and path lists |
| `PairBatches.SignaturePairGenerator.Length` | train/train5.py:30-31 | `__len__` is the number of full batches: n·b fits in both lists and (n+1)·b does not fit in the shorter; a batch size of 0 raises |
| `PairBatches.SignaturePairGenerator.GetForgedPairBatch` | train/train4_2inputs.py:33-38 | a batch below `__len__` holds exactly `batch_size` samples, built from the slices `[i·b, (i+1)·b)` of both lists |
| `PairBatches.SignaturePairGenerator.GetSelfAndForgedBatch` | train/train5.py:34-39 | a batch below `__len__` holds exactly 2·`batch_size` samples, built from the slices `[i·b, (i+1)·b)` |
| `PairBatches.SignaturePairGenerator.OnEpochEnd` | train/train5.py:67-75 | with shuffle off nothing changes; with it on, both lists are reindexed by one shuffled `arange` of the genuine count, and the forged reindexing raises after the genuine list was already reordered |
| `PairBatches.Open` | train/train4_2inputs.py:11-19 | the constructor loads both classes, fails on a missing class folder, shuffles once, and fails iff shuffling is on and there are fewer forged than genuine paths |
| `DuplicateNames.StepFiles` | image_checks/check_different_images.py:19-21 | one walked file per listed name of a step |
| `DuplicateNames.PathsNamed` | image_checks/check_different_images.py:18-22 | a group holds at most one path per walked file |
| `DuplicateNames.GroupsAreNameFilters` | image_checks/check_different_images.py:18-22 | there is a group exactly for each lower-cased name met, holding exactly the paths of the files with that name in walk order, so each path lands in exactly one group |
| `DuplicateNames.SimilarGroups` | image_checks/check_different_images.py:25-29 | every reported group has more than one path, and an empty tree reports nothing |
| `DuplicateNames.ReportedIffShared` | image_checks/check_different_images.py:25-27 | a name is reported iff at least two walked files carry it up to case, with all their paths |
| `DuplicateNames.SameNameUpToCaseReported` | image_checks/check_different_images.py:20-27 | two files whose names differ only in letter case are both reported under the lower-cased name |
| `DuplicateNames.FileStep` | image_checks/check_different_images.py:19-22 | the inner loop files one step's names exactly as `Groups` says |
| `DuplicateNames.FindSimilarFiles` | image_checks/check_different_images.py:4-29 | the two loops return exactly the groups with more than one path |
| `Permutations.Shuffle` | new_model/data_preparation.py:52 | the in-place swap loop leaves the array as `Shuffled` of its old contents |
| `Permutations.ShuffledPermutes` | new_model/data_preparation.py:52 | a shuffle keeps every element, as often as before |
| `Permutations.GatherPermutation` | train/train5.py:74-75 | reindexing by a permutation keeps every element, as often as before |

## Left out

- The similarity network (Keras model construction, training, saving and
  `model.predict`) is not modelled: scores are an opaque `score` function
  returning a `real`, and float32 rounding and NaN scores are ignored.
- Image decoding, resizing and normalisation (cv2, PIL, `load_img`) are
  opaque `preprocess` / `load` functions. A stored blob that fails to decode
  inside `verify_signature` is not modelled. Neither is `version_2`
  handing a decoded array to a path-based `preprocess_image`.
- In `train4_2inputs.py` and `train5.py`, images that fail to load are not
  modelled (`load` is total there).
- `main.py` imports `verify_signature` from `image_utils`, and that module is
  not part of this model. Its verify handler is modelled with the version 2
  `verify_signature` rule.
- Tkinter layout, message boxes and dialog widgets become returned outcomes
  and parameters. Clearing the form fields after success is not modelled.
- SQLite:
  - Type affinity is not modelled. Signature rows are keyed by the decimal
    text of the id, which is what the forms pass.
  - The foreign key is not enforced, as in SQLite by default.
  - Rows come back in insertion order, which SQLite does not promise without
    `ORDER BY`.
  - `upload_date` (`datetime.now()`) is not modelled.
  - Database errors other than the UNIQUE e-mail are not modelled.
- The version 2 add-user handler reports any exception as "Could not add
  user"; the model has only the UNIQUE e-mail failure, as `EmailAlreadyExists`.
- `str.lower` is modelled for ASCII letters only.
- `os.path` follows POSIX rules. Windows separators are not modelled.
- Listing order is whatever the given `Listing` or walk says.
- The e-mail pattern is modelled as the fixed character classes of its
  regular expression, not as a general regular-expression engine.
- `np.mean([])` is NaN and modelled as `None`. The verdict is then "Forged",
  since NaN `>=` anything is False. NaN warnings are not modelled.
- Randomness is injected. `random.choice` becomes `pick`, and the shuffles
  are Fisher-Yates passes driven by `draw` with `draw(i) <= i`. The
  distribution of either is not modelled.
- `DuplicateNames.FindSimilarFiles`: it returns a `map`, so the insertion
  order of the result dictionary and the printing loop are not modelled.
- `PairBatches.SignaturePairGenerator.GetForgedPairBatch` and `GetSelfAndForgedBatch`: a negative
  `index`, which Python slicing would count from the end, is not modelled.
  Keras only passes indices below `__len__`.
- `image_size` and the `subset` argument of `train4_2inputs.py` are not
  modelled: they only reach image loading.
- Scripts with no separable logic are not part of this model:
  - `image_checks/convert_images.py`, `check_images.py` and
    `image_utils/count_images.py`
  - `test/test0.py`, `testmodel.py` and `test/test1_vgg16.py`
  - `train/train1_h5.py` and `train/train3_vgg16.py`
  - the `version 2/` folder (`evaluate.py`, `main2.py`,
    `train6_2inputs.py`)
