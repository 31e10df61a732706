/**
 * `UserDataComponent`: the profile store. The repository behind it is a table
 * of `UserDataEntity` rows keyed by uuid, modelled as a map; its two database
 * constraints (uuid is the primary key, email is unique) make an insert or a
 * save that would break them fail with `DataIntegrityViolation`.
 */
module UserComponent {
  import opened Optional
  import opened Entity
  import opened ChangedProfile
  import opened UserDto
  import opened ProfileMerge

  /** `UserNotFoundException` and Spring's `DataIntegrityViolationException`. */
  datatype Error = UserNotFound | DataIntegrityViolation

  /** The outcome of an operation that returns nothing. */
  datatype Outcome = Pass | Fail(error: Error)

  /** The outcome of an operation that returns a value. */
  datatype Result<T> = Success(value: T) | Failure(error: Error)

  /** The content of the `user_data` table, keyed by uuid. */
  type Table = map<Uuid, UserDataEntity>

  /** Each row sits under its own uuid, so there is at most one row per uuid. */
  ghost predicate KeyedByUuid(t: Table) {
    forall u :: u in t ==> t[u].uuid == u
  }

  /** No two rows share an email. */
  ghost predicate EmailsUnique(t: Table) {
    forall u, v :: u in t && v in t && u != v ==> t[u].email != t[v].email
  }

  /** The invariant the database constraints keep. */
  ghost predicate WellFormed(t: Table) {
    KeyedByUuid(t) && EmailsUnique(t)
  }

  /** Some row has this email. */
  predicate HasEmail(t: Table, email: string) {
    exists u :: u in t && t[u].email == email
  }

  /** Some row other than the one under `self` has this email. */
  predicate EmailTakenByOther(t: Table, self: Uuid, email: string) {
    exists v :: v in t && v != self && t[v].email == email
  }

  /**
   * `repository.addUser`: insert a new row, refused when its uuid or its email
   * is already in the table.
   */
  function AddUser(t: Table, e: UserDataEntity): (r: Result<Table>)
    ensures r.Failure? <==> e.uuid in t || HasEmail(t, e.email)
    ensures r.Failure? ==> r.error == DataIntegrityViolation
    ensures r.Success? ==> r.value.Keys == t.Keys + {e.uuid} && r.value[e.uuid] == e
    ensures r.Success? ==> forall u :: u in t ==> r.value[u] == t[u]
  {
    if e.uuid in t || HasEmail(t, e.email) then Failure(DataIntegrityViolation)
    else Success(t[e.uuid := e])
  }

  /**
   * `editProfile`: look the row up by uuid, merge the change into it and save
   * it back under the same uuid. The save is refused when the merged email
   * belongs to another row.
   */
  function Edit(t: Table, userUuid: Uuid, data: ChangedProfileData): (r: Result<Table>)
    ensures userUuid !in t ==> r == Failure(UserNotFound)
    ensures userUuid in t ==>
      (r.Failure? <==> EmailTakenByOther(t, userUuid, Merge(t[userUuid], data).email))
    ensures userUuid in t && r.Failure? ==> r.error == DataIntegrityViolation
    ensures r.Success? ==> userUuid in t && r.value.Keys == t.Keys
    ensures r.Success? ==> r.value[userUuid] == Merge(t[userUuid], data)
    ensures r.Success? ==> forall v :: v in t && v != userUuid ==> r.value[v] == t[v]
  {
    if userUuid !in t then Failure(UserNotFound)
    else
      var updated := Merge(t[userUuid], data);
      if EmailTakenByOther(t, userUuid, updated.email) then Failure(DataIntegrityViolation)
      else Success(t[userUuid := updated])
  }

  /** Inserting keeps both constraints. */
  lemma AddUserPreservesWellFormed(t: Table, e: UserDataEntity)
    requires WellFormed(t)
    requires AddUser(t, e).Success?
    ensures WellFormed(AddUser(t, e).value)
  {
  }

  /** A successful edit keeps both constraints: the uuid stays and the email stays unique. */
  lemma EditPreservesWellFormed(t: Table, userUuid: Uuid, data: ChangedProfileData)
    requires WellFormed(t)
    requires Edit(t, userUuid, data).Success?
    ensures WellFormed(Edit(t, userUuid, data).value)
  {
  }

  /** An edit that supplies nothing succeeds and leaves the table as it was. */
  lemma EditNoChange(t: Table, userUuid: Uuid)
    requires WellFormed(t)
    requires userUuid in t
    ensures Edit(t, userUuid, NoChange) == Success(t)
  {
    MergeNoChange(t[userUuid]);
    assert !EmailTakenByOther(t, userUuid, t[userUuid].email);
    assert t[userUuid := t[userUuid]] == t;
  }

  /** Repeating a successful edit succeeds again and changes nothing more. */
  lemma EditIdempotent(t: Table, userUuid: Uuid, data: ChangedProfileData)
    requires Edit(t, userUuid, data).Success?
    ensures Edit(Edit(t, userUuid, data).value, userUuid, data) == Edit(t, userUuid, data)
  {
    var t' := Edit(t, userUuid, data).value;
    MergeIdempotent(t[userUuid], data);
    assert Merge(t'[userUuid], data) == t'[userUuid];
    forall v | v in t' && v != userUuid
      ensures t'[v].email != t'[userUuid].email
    {
      assert t'[v] == t[v];
    }
    assert t'[userUuid := t'[userUuid]] == t';
  }

  /** A present photo URL survives every successful edit. */
  lemma EditNeverClearsPhoto(t: Table, userUuid: Uuid, data: ChangedProfileData)
    requires userUuid in t && t[userUuid].photoUrl.Some?
    requires Edit(t, userUuid, data).Success?
    ensures Edit(t, userUuid, data).value[userUuid].photoUrl.Some?
  {
    MergeNeverClearsPhoto(t[userUuid], data);
  }

  /** In a well-formed table an email identifies at most one row. */
  lemma EmailIdentifiesRow(t: Table, u: Uuid, v: Uuid)
    requires WellFormed(t)
    requires u in t && v in t && t[u].email == t[v].email
    ensures u == v && t[u] == t[v]
  {
  }

  /** No element occurs twice. */
  ghost predicate Distinct(s: seq<string>) {
    forall i, j :: 0 <= i < j < |s| ==> s[i] != s[j]
  }

  /** The emails of the rows under the uuids in `s`. */
  ghost function EmailsOf(t: Table, s: set<Uuid>): set<string> {
    set u | u in s && u in t :: t[u].email
  }

  /** One step of the scan: adding the email of a row not yet seen keeps the list exact and duplicate-free. */
  lemma ScanStep(t: Table, emails: seq<string>, seen: set<Uuid>, u: Uuid)
    requires EmailsUnique(t) && u in t && u !in seen
    requires |emails| == |seen|
    requires forall e :: e in emails <==> e in EmailsOf(t, seen)
    requires Distinct(emails)
    ensures |emails + [t[u].email]| == |seen + {u}|
    ensures forall e :: e in emails + [t[u].email] <==> e in EmailsOf(t, seen + {u})
    ensures Distinct(emails + [t[u].email])
  {
    var x := t[u].email;
    assert EmailsOf(t, seen + {u}) == EmailsOf(t, seen) + {x};
    assert x !in EmailsOf(t, seen);
    assert x !in emails;
  }

  lemma EmailsOfAll(t: Table)
    ensures forall e :: e in EmailsOf(t, t.Keys) <==> HasEmail(t, e)
  {
  }

  /** The profile store over the repository's table. */
  class UserDataComponent {
    var table: Table

    ghost predicate Valid()
      reads this
    {
      WellFormed(table)
    }

    constructor ()
      ensures Valid() && table == map[]
    {
      table := map[];
    }

    /** `createUserData`: copy the eight fields into a new row and insert it. */
    method CreateUserData(userData: UserPrivateData) returns (r: Outcome)
      requires Valid()
      modifies this
      ensures Valid()
      ensures AddUser(old(table), ToEntity(userData)) ==
        (if r.Pass? then Success(table) else Failure(r.error))
      ensures r.Fail? ==> table == old(table)
    {
      var entity := UserDataEntity(
        uuid := userData.uuid,
        email := userData.email,
        password := userData.password,
        salt := userData.salt,
        firstName := userData.firstName,
        lastName := userData.lastName,
        birthDate := userData.birthDate,
        photoUrl := userData.photoUrl
      );
      if entity.uuid in table || HasEmail(table, entity.email) {
        r := Fail(DataIntegrityViolation);
      } else {
        AddUserPreservesWellFormed(table, entity);
        table := table[entity.uuid := entity];
        r := Pass;
      }
    }

    /** `findUserDataByEmail`: whether some row has this email. */
    method FindUserDataByEmail(email: string) returns (found: bool)
      ensures found <==> exists u :: u in table && table[u].email == email
    {
      found := HasEmail(table, email);
    }

    /** `getUserData`: the public view of the row under `userUuid`. */
    method GetUserData(userUuid: Uuid) returns (r: Result<UserData>)
      ensures userUuid !in table ==> r == Failure(UserNotFound)
      ensures userUuid in table ==> r == Success(ToUserData(table[userUuid]))
    {
      if userUuid !in table {
        r := Failure(UserNotFound);
      } else {
        r := Success(ToUserData(table[userUuid]));
      }
    }

    /** `getUserPrivateData`: the private view of the row with this email. */
    method GetUserPrivateData(email: string) returns (r: Result<UserPrivateData>)
      ensures r.Failure? <==> !HasEmail(table, email)
      ensures r.Failure? ==> r.error == UserNotFound
      ensures r.Success? ==> r.value.email == email
      ensures r.Success? ==> ToEntity(r.value) in table.Values
    {
      if u :| u in table && table[u].email == email {
        r := Success(ToUserPrivateData(table[u]));
      } else {
        r := Failure(UserNotFound);
      }
    }

    /** `editProfile`: merge `data` into the row under `userUuid` and save it. */
    method EditProfile(userUuid: Uuid, data: ChangedProfileData) returns (r: Outcome)
      requires Valid()
      modifies this
      ensures Valid()
      ensures Edit(old(table), userUuid, data) ==
        (if r.Pass? then Success(table) else Failure(r.error))
      ensures r.Fail? ==> table == old(table)
    {
      if userUuid !in table {
        r := Fail(UserNotFound);
        return;
      }
      var user := table[userUuid];
      var updated := Merge(user, data);
      if EmailTakenByOther(table, user.uuid, updated.email) {
        r := Fail(DataIntegrityViolation);
      } else {
        EditPreservesWellFormed(table, userUuid, data);
        table := table[user.uuid := updated];
        r := Pass;
      }
    }

    /** `getUserEmails`: one email per row, each row once. */
    method GetUserEmails() returns (emails: seq<string>)
      requires Valid()
      ensures |emails| == |table|
      ensures forall e :: e in emails <==> HasEmail(table, e)
      ensures Distinct(emails)
    {
      emails := [];
      var rest := table.Keys;
      ghost var seen: set<Uuid> := {};
      while rest != {}
        invariant rest + seen == table.Keys && rest !! seen
        invariant |emails| == |seen|
        invariant forall e :: e in emails <==> e in EmailsOf(table, seen)
        invariant Distinct(emails)
        decreases rest
      {
        var u :| u in rest;
        ScanStep(table, emails, seen, u);
        emails := emails + [table[u].email];
        rest := rest - {u};
        seen := seen + {u};
      }
      EmailsOfAll(table);
    }
  }
}
