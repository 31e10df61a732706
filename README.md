# Gandalf user-profile store, modelled in Dafny

This project models the core of the `gandalf` user-profile service:

- the user record `UserDataEntity` (eight fields; `uuid` is the primary key, `email` is unique, only `photoUrl` is optional);
- the partial-update record `ChangedProfileData` (every field optional, no uuid);
- `UserDataComponent`, the profile store over a uuid-keyed table. It can create a record, test whether an email exists, fetch by uuid, fetch by email, list all emails, and edit a profile by merging a change into the stored record;
- `S3ImageClient`, which uploads an image into a bucket and builds its public URL.

Files and modules:

- `optional.dfy` (`Optional`): Kotlin's nullable values and the elvis operator `?:`.
- `entity.dfy` (`Entity`): the record type.
- `changed_profile.dfy` (`ChangedProfile`): the change record.
- `user_dto.dfy` (`UserDto`): the public and private views.
- `profile_merge.dfy` (`ProfileMerge`): the field merge of `editProfile`, as a pure function.
- `user_data_component.dfy` (`UserComponent`): a pure specification of the table operations (`AddUser`, `Edit`), their lemmas, and the class `UserDataComponent`. The class's methods update the `table` field and are proved against that specification.
- `s3_image_client.dfy` (`S3Image`): the image client as a class over a map of stored objects.

The types encode which fields are mandatory: every field of `UserDataEntity` has a plain type except `photoUrl`, which is an `Option`. Every field of `ChangedProfileData` is an `Option`. The change record has no uuid field, so an edit can never re-key a user.

The repository `UserDataRepository` is not part of this model. Its table is the `table` field of `UserDataComponent.UserDataComponent`. The table's two database constraints are the uuid primary key and the unique email. An insert or a save that would break one of them fails with `DataIntegrityViolation`, the exception that the documentation of `createUserData` names. `WellFormed` states both constraints, and every state-changing method preserves it.

Where the code and its documentation disagree, the model follows the code:

- The declared `ChangedProfileData` (src/main/kotlin/ru/liljarn/gandalf/domain/model/dto/ChangedProfileData.kt:5-12) has no `photoUrl` field. Yet `editProfile` reads `data.photoUrl` (src/main/kotlin/ru/liljarn/gandalf/domain/service/user/component/UserDataComponent.kt:123). The model's change record adds `photoUrl` as an optional field.
- `photoUrl` is merged with `?:` like every other field. So `editProfile` can never clear a stored photo URL (`MergeNeverClearsPhoto`, `EditNeverClearsPhoto`). Clearing a photo must take another path, and none is in this model.
- The documentation of `editProfile` says password and salt change only together. The code merges the two fields independently. `EditProfile` therefore accepts any change, as the code does. The pairing is a precondition of `MergeKeepsCredentialPair` and `MergePreservesHashBinding`. `MergeUnpairedKeepsOldSalt` shows what an unpaired change does: it stores the new hash beside the old salt.
- One might expect separate errors for a duplicate identifier and a duplicate email. The code documents a single exception for both, so the model has the single error `DataIntegrityViolation`.
- The password in `ChangedProfileData` is already hashed, next to its salt. Hashing a plaintext secret happens in `UserService`, which is not part of this model.

## Model

| member | source | states |
|---|---|---|
| `Entity.EntityEqualIffFieldsEqual` | src/main/kotlin/ru/liljarn/gandalf/domain/model/entity/UserDataEntity.kt:30-77 | two records are equal exactly when all eight fields are equal (data-class equality) |
| `UserDto.ToEntity` | src/main/kotlin/ru/liljarn/gandalf/domain/service/user/component/UserDataComponent.kt:48-57 | the record built by `createUserData` has each of its eight fields equal to the same field of the input |
| `UserDto.PrivateDataRoundTrip` | src/main/kotlin/ru/liljarn/gandalf/domain/service/user/component/UserDataComponent.kt:46-58 | converting the private view to a record and back, or a record to the private view and back, gives the original |
| `UserDto.PublicViewHidesCredentials` | src/main/kotlin/ru/liljarn/gandalf/domain/service/user/component/UserDataComponent.kt:78-83 | two records have the same public view exactly when they differ at most in password and salt |
| `ProfileMerge.Merge` | src/main/kotlin/ru/liljarn/gandalf/domain/service/user/component/UserDataComponent.kt:114-125 | the merged record keeps the stored uuid; each other field is the change's value when present and the stored value when absent; a null photo URL in the change keeps the stored one |
| `ProfileMerge.MergeIsFieldwise` | src/main/kotlin/ru/liljarn/gandalf/domain/service/user/component/UserDataComponent.kt:117-123 | a record satisfies the field-by-field merge description exactly when it equals `Merge`'s result |
| `ProfileMerge.MergeNoChange` | src/main/kotlin/ru/liljarn/gandalf/domain/service/user/component/UserDataComponent.kt:117-123 | a change with every field absent leaves the record identical |
| `ProfileMerge.MergeIdempotent` | src/main/kotlin/ru/liljarn/gandalf/domain/service/user/component/UserDataComponent.kt:117-123 | applying the same change twice equals applying it once |
| `ProfileMerge.MergeKeepsCredentialPair` | src/main/kotlin/ru/liljarn/gandalf/domain/service/user/component/UserDataComponent.kt:106-119 | if the change supplies password and salt together or neither, the stored (password, salt) pair is either wholly new or wholly old |
| `ProfileMerge.MergeUnpairedKeepsOldSalt` | src/main/kotlin/ru/liljarn/gandalf/domain/service/user/component/UserDataComponent.kt:118-119 | a change with a password but no salt stores the new password beside the old salt: the code does not enforce the pairing |
| `ProfileMerge.MergePreservesHashBinding` | src/main/kotlin/ru/liljarn/gandalf/domain/model/entity/UserDataEntity.kt:42-54 | if the stored password is the hash of a secret under the stored salt, and the change pairs a new salt with the hash of a new secret under it, then after the merge the stored password is again the hash of a secret under the stored salt |
| `ProfileMerge.MergeNeverClearsPhoto` | src/main/kotlin/ru/liljarn/gandalf/domain/service/user/component/UserDataComponent.kt:123 | a present stored photo URL is still present after any merge |
| `UserComponent.AddUser` | src/main/kotlin/ru/liljarn/gandalf/domain/service/user/component/UserDataComponent.kt:38-58 | inserting fails with `DataIntegrityViolation` exactly when the uuid or the email is already stored; on success the new record is under its uuid and every old record is unchanged |
| `UserComponent.Edit` | src/main/kotlin/ru/liljarn/gandalf/domain/service/user/component/UserDataComponent.kt:109-126 | an unknown uuid fails with `UserNotFound`; otherwise the edit fails exactly when the merged email belongs to another record; on success the keys are unchanged, the edited record is the merge, and every other record is unchanged |
| `UserComponent.AddUserPreservesWellFormed` | src/main/kotlin/ru/liljarn/gandalf/domain/model/entity/UserDataEntity.kt:34-40 | a successful insert keeps one record per uuid, each under its own uuid, and no two records sharing an email |
| `UserComponent.EditPreservesWellFormed` | src/main/kotlin/ru/liljarn/gandalf/domain/service/user/component/UserDataComponent.kt:114-125 | a successful edit keeps the records keyed by uuid and the emails unique |
| `UserComponent.EditNoChange` | src/main/kotlin/ru/liljarn/gandalf/domain/service/user/component/UserDataComponent.kt:117-123 | on a well-formed table, an edit with every field absent succeeds and leaves the table identical |
| `UserComponent.EditIdempotent` | src/main/kotlin/ru/liljarn/gandalf/domain/service/user/component/UserDataComponent.kt:110-125 | repeating a successful edit succeeds again and gives the same table |
| `UserComponent.EditNeverClearsPhoto` | src/main/kotlin/ru/liljarn/gandalf/domain/service/user/component/UserDataComponent.kt:123 | after a successful edit, a record that had a photo URL still has one |
| `UserComponent.EmailIdentifiesRow` | src/main/kotlin/ru/liljarn/gandalf/domain/model/entity/UserDataEntity.kt:37-40 | in a well-formed table, two records with the same email are the same record |
| `UserComponent.UserDataComponent.CreateUserData` | src/main/kotlin/ru/liljarn/gandalf/domain/service/user/component/UserDataComponent.kt:45-58 | the new table is `AddUser` of the old table and the record built from the input; on failure the table is unchanged and the error matches `AddUser` |
| `UserComponent.UserDataComponent.FindUserDataByEmail` | src/main/kotlin/ru/liljarn/gandalf/domain/service/user/component/UserDataComponent.kt:66-68 | returns true exactly when some stored record has the email; changes nothing |
| `UserComponent.UserDataComponent.GetUserData` | src/main/kotlin/ru/liljarn/gandalf/domain/service/user/component/UserDataComponent.kt:77-83 | fails with `UserNotFound` when no record has the uuid, and otherwise returns that record's public view; changes nothing |
| `UserComponent.UserDataComponent.GetUserPrivateData` | src/main/kotlin/ru/liljarn/gandalf/domain/service/user/component/UserDataComponent.kt:92-95 | fails with `UserNotFound` exactly when no record has the email; otherwise returns the private view of a stored record carrying that email; changes nothing |
| `UserComponent.UserDataComponent.EditProfile` | src/main/kotlin/ru/liljarn/gandalf/domain/service/user/component/UserDataComponent.kt:109-126 | the new table and the outcome are those of `Edit` on the old table; on failure the table is unchanged |
| `UserComponent.UserDataComponent.GetUserEmails` | src/main/kotlin/ru/liljarn/gandalf/domain/service/user/component/UserDataComponent.kt:137-138 | returns one email per stored record, with no duplicates, and an email occurs in the list exactly when some record has it; changes nothing |
| `S3Image.S3ImageClient.GetImageUrl` | src/main/kotlin/ru/liljarn/gandalf/infrastructure/client/S3ImageClient.kt:31-33 | the URL is the storage host, then the bucket name, then '/', then the object name |
| `S3Image.S3ImageClient.UploadImage` | src/main/kotlin/ru/liljarn/gandalf/infrastructure/client/S3ImageClient.kt:18-29 | stores the bytes, marked public-read, under the name in the configured bucket, changes no other object, and returns exactly `GetImageUrl(name)`, whatever the bytes |
| `S3Image.ImageUrlInjective` | src/main/kotlin/ru/liljarn/gandalf/infrastructure/client/S3ImageClient.kt:32 | for a fixed bucket, distinct names give distinct URLs |
| `S3Image.ImageUrlRoundTrip` | src/main/kotlin/ru/liljarn/gandalf/infrastructure/client/S3ImageClient.kt:31-33 | when the bucket name holds no '/', parsing the URL gives back the bucket and the name |
| `S3Image.ParseImageUrlSound` | src/main/kotlin/ru/liljarn/gandalf/infrastructure/client/S3ImageClient.kt:31-33 | every URL that parses is the URL built from the bucket and key it parses to, and that bucket holds no '/' |
| `S3Image.ImageUrlBucketWithSlashCollides` | src/main/kotlin/ru/liljarn/gandalf/infrastructure/client/S3ImageClient.kt:32 | a bucket name holding '/' breaks the previous property: bucket `a/b` with name `c` and bucket `a` with name `b/c` give the same URL |

## Left out

- HTTP controllers, bearer-token stripping, the management-token check and JWT parsing: framework wiring around the core, not modelled.
- `EncryptionService`: an interface with no implementation. Hashing appears only as the function parameter `encrypt` of `MergePreservesHashBinding`.
- The randomness of `generateSalt` is not modelled.
- `UserService`, which turns a `ChangeProfileDataRequest` into a `ChangedProfileData`, is not part of this model. Neither are `ImageService`, `ImageClient` and `WebClientFactory`, which only delegate.
- The mappers `toUserData` and `toUserPrivateData` are not part of this model. They are taken to be plain field projections.
- `UserData` and `UserPrivateData` are not part of this model. Their fields follow the record.
- `LocalDate` is an integer day count. `UUID` is a 128-bit integer.
- The text of each `UserNotFoundException` message is not modelled; only the error kind is.
- Spring's `@Transactional` semantics and the lost-update race of concurrent edits are not modelled. Each method is one atomic step on the table.
- The S3 network call can fail, and `InputStream.readBytes()` is I/O. Neither is modelled: the upload always succeeds, and the file is its bytes.
- `UserComponent.UserDataComponent.GetUserPrivateData`: says that the returned view belongs to some record with the email, not which one. `EmailIdentifiesRow` shows that a well-formed table holds only one.
- `UserComponent.UserDataComponent.GetUserEmails`: the order of the list is not specified, because the repository query behind it gives no order. The repository query is modelled as a scan over the table's keys.
