/** The partial update applied to a stored profile. */
module ChangedProfile {
  import opened Optional
  import opened Entity

  /**
   * Every field is optional; `None` means "keep the stored value". There is no
   * `uuid` field, so a change cannot re-key a user. `password` arrives already
   * hashed, next to the `salt` it was hashed with. `photoUrl` is not among the
   * fields of the Kotlin class, although the merge reads `data.photoUrl`; it is
   * added here, optional like the others.
   */
  datatype ChangedProfileData = ChangedProfileData(
    email: Option<string>,
    password: Option<string>,
    salt: Option<string>,
    firstName: Option<string>,
    lastName: Option<string>,
    birthDate: Option<Date>,
    photoUrl: Option<string>
  )

  /** The change that supplies no field at all. */
  const NoChange: ChangedProfileData := ChangedProfileData(None, None, None, None, None, None, None)

  /** The caller's duty: a new password hash comes with its new salt, and a new salt with its hash. */
  predicate CredentialsPaired(data: ChangedProfileData) {
    data.password.Some? <==> data.salt.Some?
  }
}
