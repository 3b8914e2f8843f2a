/** The SQLite store shared by the forms (`add_user.py`, `main.py`,
    `version_2/db_manager.py`): a Users table with an AUTOINCREMENT id and a
    UNIQUE e-mail, and a Signatures table of image blobs keyed by user.

    Signature rows are keyed by the text the forms pass as `user_id` (the
    first field of the selected "id - name" entry). The upload timestamp is
    not modelled. */
module UserStore {
  import opened Results

  type Bytes = seq<bv8>

  datatype User = User(id: nat, name: string, email: string)

  datatype SignatureRow = SignatureRow(userKey: string, image: Bytes)

  /** The UNIQUE constraint on `email` raising `sqlite3.IntegrityError`. */
  datatype StoreError = EmailTaken

  predicate EmailInUse(users: seq<User>, email: string)
  {
    exists i :: 0 <= i < |users| && users[i].email == email
  }

  /** `SELECT image_data FROM Signatures WHERE user_id = ?`, in insertion order. */
  function ImagesOf(rows: seq<SignatureRow>, key: string): (r: seq<Bytes>)
    ensures |r| <= |rows|
  {
    if rows == [] then []
    else (if rows[0].userKey == key then [rows[0].image] else []) + ImagesOf(rows[1..], key)
  }

  /** Appending rows appends their matching images and nothing else. */
  lemma {:induction false} ImagesOfAppend(rows: seq<SignatureRow>, extra: seq<SignatureRow>, key: string)
    ensures ImagesOf(rows + extra, key) == ImagesOf(rows, key) + ImagesOf(extra, key)
  {
    if rows != [] {
      assert (rows + extra)[1..] == rows[1..] + extra;
      ImagesOfAppend(rows[1..], extra, key);
    } else {
      assert rows + extra == extra;
    }
  }

  /** The rows `add_signature(key, image)` inserts for a list of images. */
  function RowsFor(key: string, images: seq<Bytes>): seq<SignatureRow>
  {
    seq(|images|, i requires 0 <= i < |images| => SignatureRow(key, images[i]))
  }

  /** Inserting images under `key` makes exactly those images appear, in
      order, after the ones already stored for `key`; other users' images are
      untouched. */
  lemma StoredAfterInsert(rows: seq<SignatureRow>, key: string, images: seq<Bytes>, other: string)
    requires other != key
    ensures ImagesOf(rows + RowsFor(key, images), key) == ImagesOf(rows, key) + images
    ensures ImagesOf(rows + RowsFor(key, images), other) == ImagesOf(rows, other)
  {
    ImagesOfAppend(rows, RowsFor(key, images), key);
    ImagesOfAppend(rows, RowsFor(key, images), other);
    RowsForOwnImages(key, images);
    RowsForOtherImages(key, images, other);
  }

  lemma {:induction false} RowsForOwnImages(key: string, images: seq<Bytes>)
    ensures ImagesOf(RowsFor(key, images), key) == images
  {
    if images != [] {
      assert RowsFor(key, images)[1..] == RowsFor(key, images[1..]);
      RowsForOwnImages(key, images[1..]);
      assert images == [images[0]] + images[1..];
    }
  }

  lemma {:induction false} RowsForOtherImages(key: string, images: seq<Bytes>, other: string)
    requires other != key
    ensures ImagesOf(RowsFor(key, images), other) == []
  {
    if images != [] {
      assert RowsFor(key, images)[1..] == RowsFor(key, images[1..]);
      RowsForOtherImages(key, images[1..], other);
    }
  }

  class Database {
    var users: seq<User>
    /** The AUTOINCREMENT counter of Users: the largest id ever handed out. */
    var lastUserId: nat
    var signatures: seq<SignatureRow>

    /** Ids are positive, below the counter and increasing in rowid order;
        e-mails are unique. */
    ghost predicate Valid()
      reads this
    {
      && (forall i :: 0 <= i < |users| ==> 0 < users[i].id <= lastUserId)
      && (forall i, j :: 0 <= i < j < |users| ==> users[i].id < users[j].id)
      && (forall i, j :: 0 <= i < j < |users| ==> users[i].email != users[j].email)
    }

    /** `CREATE TABLE IF NOT EXISTS` on a fresh database file. */
    constructor ()
      ensures Valid()
      ensures users == [] && signatures == [] && lastUserId == 0
    {
      users := [];
      lastUserId := 0;
      signatures := [];
    }

    /** `INSERT INTO Users (name, email) VALUES (?, ?)`: fails on a taken
        e-mail and leaves the table as it was; otherwise the new row gets the
        next AUTOINCREMENT id, larger than every id handed out before. */
    method AddUser(name: string, email: string) returns (r: Result<nat, StoreError>)
      requires Valid()
      modifies this
      ensures Valid()
      ensures signatures == old(signatures)
      ensures EmailInUse(old(users), email) ==>
        r == Err(EmailTaken) && users == old(users) && lastUserId == old(lastUserId)
      ensures !EmailInUse(old(users), email) ==>
        && r == Ok(old(lastUserId) + 1)
        && users == old(users) + [User(old(lastUserId) + 1, name, email)]
        && lastUserId == old(lastUserId) + 1
      ensures r.Ok? ==> forall i :: 0 <= i < |old(users)| ==> old(users)[i].id < r.value
    {
      if EmailInUse(users, email) {
        return Err(EmailTaken);
      }
      lastUserId := lastUserId + 1;
      users := users + [User(lastUserId, name, email)];
      return Ok(lastUserId);
    }

    /** `SELECT user_id, name FROM Users`. */
    function UserRows(): (rows: seq<(nat, string)>)
      reads this
      ensures |rows| == |users|
      ensures forall i :: 0 <= i < |rows| ==> rows[i] == (users[i].id, users[i].name)
    {
      seq(|users|, i requires 0 <= i < |users| reads this => (users[i].id, users[i].name))
    }

    /** `get_signatures(user_id)`. */
    function SignaturesFor(key: string): seq<Bytes>
      reads this
    {
      ImagesOf(signatures, key)
    }

    /** `INSERT INTO Signatures (user_id, image_data, upload_date)`. The
        foreign key is not enforced (SQLite leaves it off by default), so any
        key is accepted. */
    method AddSignature(key: string, image: Bytes)
      modifies this
      ensures signatures == old(signatures) + [SignatureRow(key, image)]
      ensures users == old(users) && lastUserId == old(lastUserId)
    {
      signatures := signatures + [SignatureRow(key, image)];
    }
  }
}
