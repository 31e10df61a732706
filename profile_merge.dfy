/** The field merge at the heart of `editProfile`. */
module ProfileMerge {
  import opened Optional
  import opened Entity
  import opened ChangedProfile

  /** One field after the merge: the supplied value when there is one, the stored value otherwise. */
  ghost predicate FieldMerged<T>(stored: T, change: Option<T>, merged: T) {
    && (change.Some? ==> merged == change.value)
    && (change.None? ==> merged == stored)
  }

  /**
   * The merge, stated field by field, independently for each field. The photo
   * URL is nullable on both sides, so a null in the change keeps the stored one.
   */
  ghost predicate MergedFrom(user: UserDataEntity, data: ChangedProfileData, r: UserDataEntity) {
    && r.uuid == user.uuid
    && FieldMerged(user.email, data.email, r.email)
    && FieldMerged(user.password, data.password, r.password)
    && FieldMerged(user.salt, data.salt, r.salt)
    && FieldMerged(user.firstName, data.firstName, r.firstName)
    && FieldMerged(user.lastName, data.lastName, r.lastName)
    && FieldMerged(user.birthDate, data.birthDate, r.birthDate)
    && r.photoUrl == (if data.photoUrl.Some? then data.photoUrl else user.photoUrl)
  }

  /** The record `editProfile` saves: each field is `data.f ?: user.f`; the uuid is always the stored one. */
  function Merge(user: UserDataEntity, data: ChangedProfileData): (r: UserDataEntity)
    ensures r.uuid == user.uuid
    ensures data.email.Some? ==> r.email == data.email.value
    ensures data.email.None? ==> r.email == user.email
    ensures data.password.Some? ==> r.password == data.password.value
    ensures data.password.None? ==> r.password == user.password
    ensures data.salt.Some? ==> r.salt == data.salt.value
    ensures data.salt.None? ==> r.salt == user.salt
    ensures data.firstName.Some? ==> r.firstName == data.firstName.value
    ensures data.firstName.None? ==> r.firstName == user.firstName
    ensures data.lastName.Some? ==> r.lastName == data.lastName.value
    ensures data.lastName.None? ==> r.lastName == user.lastName
    ensures data.birthDate.Some? ==> r.birthDate == data.birthDate.value
    ensures data.birthDate.None? ==> r.birthDate == user.birthDate
    ensures data.photoUrl.Some? ==> r.photoUrl == data.photoUrl
    ensures data.photoUrl.None? ==> r.photoUrl == user.photoUrl
  {
    UserDataEntity(
      uuid := user.uuid,
      email := Elvis(data.email, user.email),
      salt := Elvis(data.salt, user.salt),
      password := Elvis(data.password, user.password),
      firstName := Elvis(data.firstName, user.firstName),
      lastName := Elvis(data.lastName, user.lastName),
      birthDate := Elvis(data.birthDate, user.birthDate),
      photoUrl := if data.photoUrl.Some? then data.photoUrl else user.photoUrl
    )
  }

  /** `Merge` is the one record that satisfies the field-by-field description. */
  lemma MergeIsFieldwise(user: UserDataEntity, data: ChangedProfileData, r: UserDataEntity)
    ensures MergedFrom(user, data, r) <==> r == Merge(user, data)
  {
  }

  /** A change that supplies nothing leaves the record as it was. */
  lemma MergeNoChange(user: UserDataEntity)
    ensures Merge(user, NoChange) == user
  {
  }

  /** Applying the same change twice gives the record that applying it once gives. */
  lemma MergeIdempotent(user: UserDataEntity, data: ChangedProfileData)
    ensures Merge(Merge(user, data), data) == Merge(user, data)
  {
  }

  /**
   * When the change supplies password and salt together or neither, the stored
   * pair is either wholly the new one or wholly the old one.
   */
  lemma MergeKeepsCredentialPair(user: UserDataEntity, data: ChangedProfileData)
    requires CredentialsPaired(data)
    ensures var r := Merge(user, data);
      || (data.password.Some? && data.salt.Some? && r.password == data.password.value && r.salt == data.salt.value)
      || (r.password == user.password && r.salt == user.salt)
  {
  }

  /**
   * `editProfile` itself does not check the pairing: a change carrying a
   * password hash but no salt stores the new hash beside the old salt.
   */
  lemma MergeUnpairedKeepsOldSalt(user: UserDataEntity, data: ChangedProfileData)
    requires data.password.Some? && data.salt.None?
    ensures Merge(user, data).password == data.password.value
    ensures Merge(user, data).salt == user.salt
  {
  }

  /**
   * The stored password stays a hash of some secret under the stored salt:
   * either the old binding is kept, or a paired change installs the hash of the
   * new secret under the new salt. `encrypt` stands for the hasher, whose
   * implementation is not part of this model.
   */
  lemma MergePreservesHashBinding(user: UserDataEntity, data: ChangedProfileData,
                                  encrypt: (string, string) -> string,
                                  oldSecret: string, newSecret: string)
    requires user.password == encrypt(oldSecret, user.salt)
    requires CredentialsPaired(data)
    requires data.salt.Some? ==> data.password == Some(encrypt(newSecret, data.salt.value))
    ensures var r := Merge(user, data);
      r.password == encrypt(if data.salt.Some? then newSecret else oldSecret, r.salt)
  {
  }

  /** `?:` cannot turn a present photo URL into null: this path never clears a photo. */
  lemma MergeNeverClearsPhoto(user: UserDataEntity, data: ChangedProfileData)
    requires user.photoUrl.Some?
    ensures Merge(user, data).photoUrl.Some?
  {
  }
}
