/** The persistent user record, stored in the table `user_data`. */
module Entity {
  import opened Optional

  /** A `java.util.UUID`: a 128-bit value. */
  newtype Uuid = n: int | 0 <= n < 0x1_0000_0000_0000_0000_0000_0000_0000_0000

  /** A `java.time.LocalDate`, as a count of days from a fixed epoch. */
  datatype Date = Date(epochDay: int)

  /**
   * One row of `user_data`. `uuid` is the primary key, `email` is unique across
   * users, `password` is a hash made with `salt`. Every field is mandatory
   * except `photoUrl`, the only one of `Option` type.
   */
  datatype UserDataEntity = UserDataEntity(
    uuid: Uuid,
    email: string,
    password: string,
    salt: string,
    firstName: string,
    lastName: string,
    birthDate: Date,
    photoUrl: Option<string>
  )

  /** A Kotlin data class compares structurally: two records are equal exactly when all eight fields are. */
  lemma EntityEqualIffFieldsEqual(a: UserDataEntity, b: UserDataEntity)
    ensures a == b <==>
      && a.uuid == b.uuid
      && a.email == b.email
      && a.password == b.password
      && a.salt == b.salt
      && a.firstName == b.firstName
      && a.lastName == b.lastName
      && a.birthDate == b.birthDate
      && a.photoUrl == b.photoUrl
  {
  }
}
