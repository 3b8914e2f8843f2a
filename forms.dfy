/** The logic behind the enrolment and verification forms of `main.py`,
    `version_2/main.py`, `add_user.py` and `test_verification.py`, without
    the widgets: the "id - name" entries of the user combobox, the input
    guards of adding a user, and the verification request against the store.

    The text of the widgets is passed in; message boxes become the returned
    outcome. */
module Forms {
  import opened Results
  import opened Strings
  import opened EmailRule
  import opened UserStore
  import opened SignatureUtils

  /** `f"{user[0]} - {user[1]}"`. */
  function FormatUser(id: nat, name: string): string
  {
    NatToString(id) + " - " + name
  }

  /** `selected_user.split(" - ")[0]`: the user key passed to the store. */
  function SelectedUserKey(selection: string): string
  {
    Split(selection, " - ")[0]
  }

  /** Splitting a formatted entry gives back the decimal id, whatever the
      name holds (the id's digits never start a separator). */
  lemma SelectedKeyOfFormatted(id: nat, name: string)
    ensures SelectedUserKey(FormatUser(id, name)) == NatToString(id)
  {
    var digits := NatToString(id);
    assert forall i :: 0 <= i < |digits| ==> digits[i] != " - "[0] by {
      assert forall i :: 0 <= i < |digits| ==> IsDigit(digits[i]);
    }
    FirstFieldOf(digits, " - ", name);
  }

  /** `refresh_users`: the combobox values, one per user row. */
  function UserChoices(rows: seq<(nat, string)>): (r: seq<string>)
    ensures |r| == |rows|
  {
    seq(|rows|, i requires 0 <= i < |rows| => FormatUser(rows[i].0, rows[i].1))
  }

  /** Selecting an entry of the combobox yields that user's id, and entries
      of users with different ids yield different keys. */
  lemma ChoicesSelectTheirUsers(rows: seq<(nat, string)>, i: nat, j: nat)
    requires i < |rows| && j < |rows|
    ensures SelectedUserKey(UserChoices(rows)[i]) == NatToString(rows[i].0)
    ensures rows[i].0 != rows[j].0 ==> SelectedUserKey(UserChoices(rows)[i]) != SelectedUserKey(UserChoices(rows)[j])
  {
    SelectedKeyOfFormatted(rows[i].0, rows[i].1);
    SelectedKeyOfFormatted(rows[j].0, rows[j].1);
    if NatToString(rows[i].0) == NatToString(rows[j].0) {
      NatToStringInjective(rows[i].0, rows[j].0);
    }
  }

  datatype InputError =
    | MissingField  // "Name and email are required!"
    | InvalidEmail  // "Please enter a valid email address!"

  /** The guards in front of the insert: both fields filled, then the e-mail rule. */
  function CheckUserInput(name: string, email: string): Result<(), InputError>
  {
    if name == "" || email == "" then Err(MissingField)
    else if !IsValidEmail(email) then Err(InvalidEmail)
    else Ok(())
  }

  /** The guards accept exactly a non-empty name with an address of the
      pattern's shape (an empty address never has that shape). */
  lemma AcceptedInput(name: string, email: string)
    ensures CheckUserInput(name, email).Ok?
        <==> name != "" && (CoreShape(email) || (|email| > 0 && email[|email| - 1] == '\n' && CoreShape(email[..|email| - 1])))
  {
    IsValidEmailIff(email);
  }

  datatype AddUserOutcome =
    | Rejected(reason: InputError)
    | EmailAlreadyExists  // the IntegrityError of the UNIQUE e-mail
    | UserAdded(id: nat)

  /** `add_user` / `handle_add_user`: check the fields, then insert. Nothing
      is inserted when a guard fails or the e-mail is taken. */
  method HandleAddUser(db: Database, name: string, email: string) returns (outcome: AddUserOutcome)
    requires db.Valid()
    modifies db
    ensures db.Valid()
    ensures CheckUserInput(name, email).Err? ==>
      && outcome == Rejected(CheckUserInput(name, email).error)
      && db.users == old(db.users) && db.lastUserId == old(db.lastUserId) && db.signatures == old(db.signatures)
    ensures CheckUserInput(name, email).Ok? && EmailInUse(old(db.users), email) ==>
      && outcome == EmailAlreadyExists
      && db.users == old(db.users) && db.lastUserId == old(db.lastUserId) && db.signatures == old(db.signatures)
    ensures CheckUserInput(name, email).Ok? && !EmailInUse(old(db.users), email) ==>
      && outcome == UserAdded(old(db.lastUserId) + 1)
      && db.users == old(db.users) + [User(old(db.lastUserId) + 1, name, email)]
      && db.lastUserId == old(db.lastUserId) + 1
      && db.signatures == old(db.signatures)
  {
    var check := CheckUserInput(name, email);
    if check.Err? {
      return Rejected(check.error);
    }
    var inserted := db.AddUser(name, email);
    if inserted.Err? {
      return EmailAlreadyExists;
    }
    return UserAdded(inserted.value);
  }

  datatype VerifyOutcome =
    | NoUserSelected       // "Please select a user!"
    | NoFileSelected       // empty path or cancelled dialog
    | ProbeUnreadable      // preprocessing the probe raised
    | NoGenuineSignatures  // "No genuine signatures found for this user."
    | Decided(maxScore: real, verified: bool)

  /** The verification request: the selected user's stored signatures,
      scored against the probe by `verify_signature` with its default
      threshold. */
  function VerifyRequest<P>(store: seq<SignatureRow>, selection: string, filePath: string,
                            preprocess: string -> Option<P>, score: (P, Bytes) -> real): VerifyOutcome
  {
    if selection == "" then NoUserSelected
    else if filePath == "" then NoFileSelected
    else match preprocess(filePath)
      case None => ProbeUnreadable
      case Some(probe) =>
        var genuine := ImagesOf(store, SelectedUserKey(selection));
        if genuine == [] then NoGenuineSignatures
        else
          var d := Verify(probe, genuine, score, DefaultThreshold).value;
          Decided(d.maxScore, d.accepted)
  }

  /** `handle_verify_signature` (and `verify_signature` of the test form):
      the guards, the fetch, one score per stored row, the decision. */
  method HandleVerifySignature<P>(db: Database, selection: string, filePath: string,
                                  preprocess: string -> Option<P>, score: (P, Bytes) -> real)
    returns (outcome: VerifyOutcome)
    ensures outcome == VerifyRequest(db.signatures, selection, filePath, preprocess, score)
  {
    if selection == "" {
      return NoUserSelected;
    }
    if filePath == "" {
      return NoFileSelected;
    }
    var uploaded := preprocess(filePath);
    if uploaded.None? {
      return ProbeUnreadable;
    }
    var userId := SelectedUserKey(selection);
    var genuineSignatures := db.SignaturesFor(userId);
    if genuineSignatures == [] {
      return NoGenuineSignatures;
    }
    var decision := VerifySignature(uploaded.value, genuineSignatures, score, DefaultThreshold);
    return Decided(decision.value.maxScore, decision.value.accepted);
  }

  /** A decision is reached exactly when a user and a readable file are given
      and the user has stored signatures; a user without stored signatures
      gets the error and no decision. */
  lemma DecidedIffStoredSignatures<P>(store: seq<SignatureRow>, selection: string, filePath: string,
                                      preprocess: string -> Option<P>, score: (P, Bytes) -> real)
    ensures VerifyRequest(store, selection, filePath, preprocess, score).Decided?
        <==> selection != "" && filePath != "" && preprocess(filePath).Some?
             && ImagesOf(store, SelectedUserKey(selection)) != []
    ensures selection != "" && filePath != "" && preprocess(filePath).Some?
            && ImagesOf(store, SelectedUserKey(selection)) == []
        ==> VerifyRequest(store, selection, filePath, preprocess, score) == NoGenuineSignatures
  {
  }

  /** The reported score is the best score over the user's stored signatures,
      and the signature is Verified exactly when some stored signature scores
      strictly above 0.5. */
  lemma VerifiedIffSomeStoredAbove<P>(store: seq<SignatureRow>, selection: string, filePath: string,
                                      preprocess: string -> Option<P>, score: (P, Bytes) -> real)
    requires VerifyRequest(store, selection, filePath, preprocess, score).Decided?
    ensures preprocess(filePath).Some?
    ensures
      var probe := preprocess(filePath).value;
      var genuine := ImagesOf(store, SelectedUserKey(selection));
      var outcome := VerifyRequest(store, selection, filePath, preprocess, score);
      && (forall i :: 0 <= i < |genuine| ==> score(probe, genuine[i]) <= outcome.maxScore)
      && (exists i :: 0 <= i < |genuine| && score(probe, genuine[i]) == outcome.maxScore)
      && (outcome.verified <==> exists i :: 0 <= i < |genuine| && score(probe, genuine[i]) > 0.5)
  {
    var probe := preprocess(filePath).value;
    var genuine := ImagesOf(store, SelectedUserKey(selection));
    AcceptedIffSomeScoreAbove(probe, genuine, score, DefaultThreshold);
  }
}
