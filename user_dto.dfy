/**
 * The two views of a user that the component hands out. Their Kotlin classes
 * and the mappers `toUserData` / `toUserPrivateData` are not part of this
 * model; they are taken to be the plain field projections.
 */
module UserDto {
  import opened Optional
  import opened Entity

  /** The private view, with the credentials: what `createUserData` receives and `getUserPrivateData` returns. */
  datatype UserPrivateData = UserPrivateData(
    uuid: Uuid,
    email: string,
    password: string,
    salt: string,
    firstName: string,
    lastName: string,
    birthDate: Date,
    photoUrl: Option<string>
  )

  /** The public view: the record without `password` and `salt`. */
  datatype UserData = UserData(
    uuid: Uuid,
    email: string,
    firstName: string,
    lastName: string,
    birthDate: Date,
    photoUrl: Option<string>
  )

  /** The record `createUserData` builds from its argument, field by field. */
  function ToEntity(p: UserPrivateData): (e: UserDataEntity)
    ensures e.uuid == p.uuid && e.email == p.email
    ensures e.password == p.password && e.salt == p.salt
    ensures e.firstName == p.firstName && e.lastName == p.lastName
    ensures e.birthDate == p.birthDate && e.photoUrl == p.photoUrl
  {
    UserDataEntity(p.uuid, p.email, p.password, p.salt, p.firstName, p.lastName, p.birthDate, p.photoUrl)
  }

  function ToUserPrivateData(e: UserDataEntity): UserPrivateData {
    UserPrivateData(e.uuid, e.email, e.password, e.salt, e.firstName, e.lastName, e.birthDate, e.photoUrl)
  }

  function ToUserData(e: UserDataEntity): UserData {
    UserData(e.uuid, e.email, e.firstName, e.lastName, e.birthDate, e.photoUrl)
  }

  /** The private view and the record carry the same information: each conversion undoes the other. */
  lemma PrivateDataRoundTrip(p: UserPrivateData, e: UserDataEntity)
    ensures ToUserPrivateData(ToEntity(p)) == p
    ensures ToEntity(ToUserPrivateData(e)) == e
  {
  }

  /** The public view loses exactly the credentials: records that differ only there look the same. */
  lemma PublicViewHidesCredentials(a: UserDataEntity, b: UserDataEntity)
    ensures ToUserData(a) == ToUserData(b) <==>
      a == b.(password := a.password, salt := a.salt)
  {
  }
}
