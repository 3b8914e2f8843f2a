/** The signature upload handlers of the three forms:
    - `version_2/main.py`: the selected paths travel through the entry widget
      as one `", "`-joined string; each file already stored for the user (by
      its bytes, against a snapshot taken before the loop) needs the user's
      consent, and the first error aborts the rest;
    - `main.py`: every selected file is attempted and errors are reported one
      by one;
    - `add_user.py`: one file at a time.

    Reading a file is the injected `readFile` (None when `open`/`read`
    raises); the answers to the "replace it?" prompt are the injected
    `answer`, indexed by the position of the file in the selection. */
module Uploads {
  import opened Results
  import opened Strings
  import opened UserStore
  import opened Forms

  /** `", ".join(file_paths)`: what the file dialog writes into the entry. */
  function JoinSelection(paths: seq<string>): string
  {
    Join(paths, ", ")
  }

  /** `file_entry.get().split(", ")`. */
  function SplitEntry(entry: string): (paths: seq<string>)
    ensures |paths| > 0
  {
    Split(entry, ", ")
  }

  /** The entry gives back the selected paths when at least one was selected
      and none of them holds `", "`. */
  lemma SelectionRoundTrip(paths: seq<string>)
    requires |paths| > 0
    requires forall k :: 0 <= k < |paths| ==> !Contains(paths[k], ", ")
    ensures SplitEntry(JoinSelection(paths)) == paths
  {
    SplitJoin(paths, ", ");
  }

  datatype UploadOutcome =
    | NoUserChosen                    // "Please select a user!"
    | NoFilesChosen                   // an empty selection
    | UploadAborted(path: string)     // the error message for this file; later files are not attempted
    | UploadFinished(failed: seq<string>)  // the success message, after one error message per failed file

  /** `list.remove(x)`: drops the first occurrence of `x`. */
  function RemoveFirst(s: seq<Bytes>, x: Bytes): (r: seq<Bytes>)
    ensures x in s ==> |r| == |s| - 1
    ensures x !in s ==> r == s
  {
    if s == [] then []
    else if s[0] == x then s[1..]
    else [s[0]] + RemoveFirst(s[1..], x)
  }

  lemma {:induction false} RemoveFirstMultiset(s: seq<Bytes>, x: Bytes)
    requires x in s
    ensures multiset(RemoveFirst(s, x)) == multiset(s) - multiset{x}
  {
    if s[0] != x {
      RemoveFirstMultiset(s[1..], x);
      assert s == [s[0]] + s[1..];
    } else {
      assert s == [x] + s[1..];
    }
  }

  /** What the loop of `version_2/main.py` adds, and where it stopped. */
  datatype UploadRun = UploadRun(added: seq<Bytes>, abortedAt: Option<string>)

  /** What a readable file with bytes `data` adds: a new image is added
      without a prompt, a known one only when the user agrees to replace. */
  function Taken(snapshot: seq<Bytes>, data: Bytes, agreed: bool): seq<Bytes>
  {
    if data !in snapshot || agreed then [data] else []
  }

  /** The snapshot after that file: a replace drops one copy of the known
      image from the local list (never from the store). */
  function Kept(snapshot: seq<Bytes>, data: Bytes, agreed: bool): seq<Bytes>
  {
    if data in snapshot && agreed then RemoveFirst(snapshot, data) else snapshot
  }

  /** The duplicate-aware loop from file `i` on, against the local list
      `snapshot` of the user's stored images; an unreadable file ends it. */
  function UploadFrom(paths: seq<string>, i: nat, snapshot: seq<Bytes>,
                      readFile: string -> Option<Bytes>, answer: nat -> bool): (r: UploadRun)
    requires i <= |paths|
    decreases |paths| - i
    ensures |r.added| <= |paths| - i
  {
    if i == |paths| then UploadRun([], None)
    else match readFile(paths[i])
      case None => UploadRun([], Some(paths[i]))
      case Some(data) =>
        var rest := UploadFrom(paths, i + 1, Kept(snapshot, data, answer(i)), readFile, answer);
        UploadRun(Taken(snapshot, data, answer(i)) + rest.added, rest.abortedAt)
  }

  /** The loop has added `added` so far and the rest of the run is `rest`,
      together the whole run `goal`. */
  ghost predicate Resumes(goal: UploadRun, added: seq<Bytes>, rest: UploadRun)
  {
    goal.added == added + rest.added && goal.abortedAt == rest.abortedAt
  }

  /** One readable file moves the loop on by one position. */
  lemma UploadStep(goal: UploadRun, added: seq<Bytes>, paths: seq<string>, k: nat, snapshot: seq<Bytes>,
                   readFile: string -> Option<Bytes>, answer: nat -> bool, data: Bytes)
    requires k < |paths| && readFile(paths[k]) == Some(data)
    requires Resumes(goal, added, UploadFrom(paths, k, snapshot, readFile, answer))
    ensures Resumes(goal, added + Taken(snapshot, data, answer(k)),
                    UploadFrom(paths, k + 1, Kept(snapshot, data, answer(k)), readFile, answer))
  {
    var rest := UploadFrom(paths, k + 1, Kept(snapshot, data, answer(k)), readFile, answer);
    assert added + (Taken(snapshot, data, answer(k)) + rest.added) == added + Taken(snapshot, data, answer(k)) + rest.added;
  }

  /** The outcome of an upload request and the images it appends. */
  datatype UploadResult = UploadResult(outcome: UploadOutcome, added: seq<Bytes>)

  /** `handle_upload_signatures` of `version_2/main.py`. */
  function UploadRequest(store: seq<SignatureRow>, selection: string, entry: string,
                         readFile: string -> Option<Bytes>, answer: nat -> bool): UploadResult
  {
    if selection == "" then UploadResult(NoUserChosen, [])
    else if SplitEntry(entry) == [""] then UploadResult(NoFilesChosen, [])
    else
      var run := UploadFrom(SplitEntry(entry), 0, ImagesOf(store, SelectedUserKey(selection)), readFile, answer);
      UploadResult(if run.abortedAt.Some? then UploadAborted(run.abortedAt.value) else UploadFinished([]), run.added)
  }

  lemma AddRow(rows: seq<SignatureRow>, key: string, added: seq<Bytes>, data: Bytes)
    ensures rows + RowsFor(key, added) + [SignatureRow(key, data)] == rows + RowsFor(key, added + [data])
  {
    assert RowsFor(key, added) + [SignatureRow(key, data)] == RowsFor(key, added + [data]);
  }

  /** The body of the loop for a readable file: store it when `Taken` says
      so and move the snapshot on. */
  method UploadFile(db: Database, userId: string, data: Bytes, agreed: bool, snapshot: seq<Bytes>,
                    ghost base: seq<SignatureRow>, ghost added: seq<Bytes>)
    returns (next: seq<Bytes>)
    requires db.signatures == base + RowsFor(userId, added)
    modifies db
    ensures db.users == old(db.users) && db.lastUserId == old(db.lastUserId)
    ensures db.signatures == base + RowsFor(userId, added + Taken(snapshot, data, agreed))
    ensures next == Kept(snapshot, data, agreed)
  {
    next := snapshot;
    if data in snapshot {
      if agreed {
        next := RemoveFirst(snapshot, data);
        AddRow(base, userId, added, data);
        db.AddSignature(userId, data);
      } else {
        assert added + [] == added;
      }
    } else {
      AddRow(base, userId, added, data);
      db.AddSignature(userId, data);
    }
  }

  /** The loop of `handle_upload_signatures` in `version_2/main.py`, over the
      snapshot of the user's stored images taken before it. */
  method UploadLoop(db: Database, userId: string, filePaths: seq<string>, snapshot: seq<Bytes>,
                    readFile: string -> Option<Bytes>, answer: nat -> bool)
    returns (abortedAt: Option<string>)
    modifies db
    ensures db.users == old(db.users) && db.lastUserId == old(db.lastUserId)
    ensures abortedAt == UploadFrom(filePaths, 0, snapshot, readFile, answer).abortedAt
    ensures db.signatures == old(db.signatures) + RowsFor(userId, UploadFrom(filePaths, 0, snapshot, readFile, answer).added)
  {
    var existingSignatures := snapshot;
    ghost var goal := UploadFrom(filePaths, 0, snapshot, readFile, answer);
    ghost var added: seq<Bytes> := [];
    var k := 0;
    abortedAt := None;
    while k < |filePaths| && abortedAt.None?
      invariant k <= |filePaths|
      invariant db.users == old(db.users) && db.lastUserId == old(db.lastUserId)
      invariant db.signatures == old(db.signatures) + RowsFor(userId, added)
      invariant abortedAt.None? ==> Resumes(goal, added, UploadFrom(filePaths, k, existingSignatures, readFile, answer))
      invariant abortedAt.Some? ==> goal.added == added && goal.abortedAt == abortedAt
      decreases |filePaths| - k, abortedAt.None?
    {
      var imageData := readFile(filePaths[k]);
      if imageData.None? {
        abortedAt := Some(filePaths[k]);
        assert added + [] == added;
      } else {
        UploadStep(goal, added, filePaths, k, existingSignatures, readFile, answer, imageData.value);
        var next := UploadFile(db, userId, imageData.value, answer(k), existingSignatures, old(db.signatures), added);
        added := added + Taken(existingSignatures, imageData.value, answer(k));
        existingSignatures := next;
        k := k + 1;
      }
    }
    assert added + [] == added;
  }

  /** `handle_upload_signatures` of `version_2/main.py`. The store only grows:
      it receives exactly the images of the run, even when the run aborts. */
  method HandleUploadSignatures(db: Database, selection: string, entry: string,
                                readFile: string -> Option<Bytes>, answer: nat -> bool)
    returns (outcome: UploadOutcome)
    modifies db
    ensures db.users == old(db.users) && db.lastUserId == old(db.lastUserId)
    ensures outcome == UploadRequest(old(db.signatures), selection, entry, readFile, answer).outcome
    ensures db.signatures == old(db.signatures)
      + RowsFor(SelectedUserKey(selection), UploadRequest(old(db.signatures), selection, entry, readFile, answer).added)
  {
    if selection == "" {
      return NoUserChosen;
    }
    var filePaths := SplitEntry(entry);
    if filePaths == [""] {
      return NoFilesChosen;
    }
    var userId := SelectedUserKey(selection);
    var existingSignatures := db.SignaturesFor(userId);
    var abortedAt := UploadLoop(db, userId, filePaths, existingSignatures, readFile, answer);
    if abortedAt.Some? {
      return UploadAborted(abortedAt.value);
    }
    return UploadFinished([]);
  }

  /** Files whose bytes are not stored yet are all added, in order, without
      a prompt, and the run completes. */
  lemma {:induction false} FreshFilesAllAdded(paths: seq<string>, i: nat, snapshot: seq<Bytes>,
                                              readFile: string -> Option<Bytes>, answer: nat -> bool)
    requires i <= |paths|
    requires forall j :: i <= j < |paths| ==> readFile(paths[j]).Some? && readFile(paths[j]).value !in snapshot
    ensures UploadFrom(paths, i, snapshot, readFile, answer).abortedAt == None
    ensures |UploadFrom(paths, i, snapshot, readFile, answer).added| == |paths| - i
    ensures forall j :: i <= j < |paths| ==> Some(UploadFrom(paths, i, snapshot, readFile, answer).added[j - i]) == readFile(paths[j])
    decreases |paths| - i
  {
    if i < |paths| {
      FreshFilesAllAdded(paths, i + 1, snapshot, readFile, answer);
    }
  }

  /** The snapshot is never extended, so the same new image selected twice is
      added twice, with no prompt. */
  lemma NewDuplicatesBothAdded(p: string, q: string, data: Bytes, snapshot: seq<Bytes>,
                               readFile: string -> Option<Bytes>, answer: nat -> bool)
    requires readFile(p) == Some(data) && readFile(q) == Some(data) && data !in snapshot
    ensures UploadFrom([p, q], 0, snapshot, readFile, answer) == UploadRun([data, data], None)
  {
    FreshFilesAllAdded([p, q], 0, snapshot, readFile, answer);
  }

  /** When every prompt is declined, nothing already stored is added again. */
  lemma {:induction false} DeclinedAddsOnlyNewImages(paths: seq<string>, i: nat, snapshot: seq<Bytes>,
                                                     readFile: string -> Option<Bytes>, answer: nat -> bool)
    requires i <= |paths|
    requires forall j :: i <= j < |paths| ==> !answer(j)
    ensures forall x :: x in UploadFrom(paths, i, snapshot, readFile, answer).added ==> x !in snapshot
    decreases |paths| - i
  {
    if i < |paths| {
      DeclinedAddsOnlyNewImages(paths, i + 1, snapshot, readFile, answer);
    }
  }

  /** Replacing a stored image keeps the stored copy: after agreeing, the
      store holds one more copy of it than before. */
  lemma ReplaceKeepsStoredCopy(store: seq<SignatureRow>, key: string, p: string, data: Bytes,
                               readFile: string -> Option<Bytes>, answer: nat -> bool)
    requires readFile(p) == Some(data) && data in ImagesOf(store, key) && answer(0)
    ensures UploadFrom([p], 0, ImagesOf(store, key), readFile, answer) == UploadRun([data], None)
    ensures multiset(ImagesOf(store + RowsFor(key, [data]), key))[data]
         == multiset(ImagesOf(store, key))[data] + 1 >= 2
  {
    ImagesOfAppend(store, RowsFor(key, [data]), key);
    RowsForOwnImages(key, [data]);
  }

  /** The position of the first unreadable file from `i` on, if any. */
  function FirstUnreadable(paths: seq<string>, i: nat, readFile: string -> Option<Bytes>): (r: Option<nat>)
    requires i <= |paths|
    decreases |paths| - i
    ensures r.Some? ==> i <= r.value < |paths| && readFile(paths[r.value]).None?
    ensures r.Some? ==> forall j :: i <= j < r.value ==> readFile(paths[j]).Some?
    ensures r.None? ==> forall j :: i <= j < |paths| ==> readFile(paths[j]).Some?
  {
    if i == |paths| then None
    else if readFile(paths[i]).None? then Some(i)
    else FirstUnreadable(paths, i + 1, readFile)
  }

  /** The run stops at the first unreadable file, and completes exactly when
      every file is readable. */
  lemma {:induction false} AbortsAtFirstUnreadable(paths: seq<string>, i: nat, snapshot: seq<Bytes>,
                                                   readFile: string -> Option<Bytes>, answer: nat -> bool)
    requires i <= |paths|
    ensures UploadFrom(paths, i, snapshot, readFile, answer).abortedAt
         == if FirstUnreadable(paths, i, readFile).Some? then Some(paths[FirstUnreadable(paths, i, readFile).value]) else None
    decreases |paths| - i
  {
    if i < |paths| {
      var data := readFile(paths[i]);
      if data.Some? {
        AbortsAtFirstUnreadable(paths, i + 1, Kept(snapshot, data.value, answer(i)), readFile, answer);
      }
    }
  }

  /** What the loop of `main.py` uploads and which files it reports. */
  datatype BatchRun = BatchRun(added: seq<Bytes>, failed: seq<string>)

  /** The continue-on-error loop from file `i` on: every file is attempted. */
  function AttemptFrom(paths: seq<string>, i: nat, readFile: string -> Option<Bytes>): (r: BatchRun)
    requires i <= |paths|
    decreases |paths| - i
    ensures |r.added| + |r.failed| == |paths| - i
  {
    if i >= |paths| then BatchRun([], [])
    else
      var rest := AttemptFrom(paths, i + 1, readFile);
      match readFile(paths[i])
      case None => BatchRun(rest.added, [paths[i]] + rest.failed)
      case Some(data) => BatchRun([data] + rest.added, rest.failed)
  }

  /** Each readable file is uploaded and each unreadable one reported; no other
      path is reported. */
  lemma {:induction false} EveryFileAttempted(paths: seq<string>, i: nat, readFile: string -> Option<Bytes>)
    requires i <= |paths|
    ensures var r := AttemptFrom(paths, i, readFile);
      && (forall j :: i <= j < |paths| && readFile(paths[j]).Some? ==> readFile(paths[j]).value in r.added)
      && (forall j :: i <= j < |paths| && readFile(paths[j]).None? ==> paths[j] in r.failed)
      && (forall p :: p in r.failed ==> readFile(p).None?)
    decreases |paths| - i
  {
    if i < |paths| {
      EveryFileAttempted(paths, i + 1, readFile);
    }
  }

  /** `handle_upload_signatures` of `main.py`. */
  function UploadAllRequest(selection: string, paths: seq<string>, readFile: string -> Option<Bytes>): UploadResult
  {
    if selection == "" then UploadResult(NoUserChosen, [])
    else if paths == [] then UploadResult(NoFilesChosen, [])
    else
      var run := AttemptFrom(paths, 0, readFile);
      UploadResult(UploadFinished(run.failed), run.added)
  }

  /** `handle_upload_signatures` of `main.py`: an error on one file does not
      stop the later ones, and the success message follows regardless. */
  method HandleUploadAll(db: Database, selection: string, paths: seq<string>, readFile: string -> Option<Bytes>)
    returns (outcome: UploadOutcome)
    modifies db
    ensures db.users == old(db.users) && db.lastUserId == old(db.lastUserId)
    ensures outcome == UploadAllRequest(selection, paths, readFile).outcome
    ensures db.signatures == old(db.signatures) + RowsFor(SelectedUserKey(selection), UploadAllRequest(selection, paths, readFile).added)
  {
    if selection == "" {
      return NoUserChosen;
    }
    if paths == [] {
      return NoFilesChosen;
    }
    var userId := SelectedUserKey(selection);
    ghost var added: seq<Bytes> := [];
    var failed: seq<string> := [];
    for k := 0 to |paths|
      invariant db.users == old(db.users) && db.lastUserId == old(db.lastUserId)
      invariant db.signatures == old(db.signatures) + RowsFor(userId, added)
      invariant AttemptFrom(paths, 0, readFile) == BatchRun(added + AttemptFrom(paths, k, readFile).added,
                                                            failed + AttemptFrom(paths, k, readFile).failed)
    {
      var imageData := readFile(paths[k]);
      if imageData.None? {
        failed := failed + [paths[k]];
      } else {
        AddRow(old(db.signatures), userId, added, imageData.value);
        db.AddSignature(userId, imageData.value);
        added := added + [imageData.value];
      }
    }
    return UploadFinished(failed);
  }

  /** `upload_signature` of `add_user.py`: one file, one row. */
  method UploadSignature(db: Database, selection: string, filePath: string, readFile: string -> Option<Bytes>)
    returns (outcome: UploadOutcome)
    modifies db
    ensures db.users == old(db.users) && db.lastUserId == old(db.lastUserId)
    ensures selection == "" ==> outcome == NoUserChosen && db.signatures == old(db.signatures)
    ensures selection != "" && filePath == "" ==> outcome == NoFilesChosen && db.signatures == old(db.signatures)
    ensures selection != "" && filePath != "" && readFile(filePath).None? ==>
      outcome == UploadAborted(filePath) && db.signatures == old(db.signatures)
    ensures selection != "" && filePath != "" && readFile(filePath).Some? ==>
      && outcome == UploadFinished([])
      && db.signatures == old(db.signatures) + [SignatureRow(SelectedUserKey(selection), readFile(filePath).value)]
  {
    if selection == "" {
      return NoUserChosen;
    }
    if filePath == "" {
      return NoFilesChosen;
    }
    var imageData := readFile(filePath);
    if imageData.None? {
      return UploadAborted(filePath);
    }
    var userId := SelectedUserKey(selection);
    db.AddSignature(userId, imageData.value);
    return UploadFinished([]);
  }

  /** A row uploaded for the entry "id - name" lands under that id: the id's
      images gain exactly the new one. */
  lemma UploadedUnderSelectedId(store: seq<SignatureRow>, id: nat, name: string, data: Bytes)
    ensures ImagesOf(store + [SignatureRow(SelectedUserKey(FormatUser(id, name)), data)], NatToString(id))
         == ImagesOf(store, NatToString(id)) + [data]
  {
    SelectedKeyOfFormatted(id, name);
    ImagesOfAppend(store, [SignatureRow(NatToString(id), data)], NatToString(id));
  }
}
