# Patient records and identity-pair login, in Dafny

This project models the core of a clinic's patient service. It has two parts.

- **The patient-record store** (`models.dfy`, module `Models`). A `Store` class holds the user rows and keeps two uniqueness constraints: no two rows share a national ID, and no two share a phone number. A `User` class is one patient object in memory. Its `Save` applies the default-instruction fill rule and then writes the row. The rule works like this: when a record is being added and its surgery type is set, each of the six blank instruction fields takes its text from the static table `DefaultInstructions`. A type the table does not know leaves the blank fields blank. A `UserManager` class creates ordinary users and superusers.
- **The login view** (`views.dfy`, module `Views`). `Login` is a pure function over the store's rows. It finds the first row whose national ID and phone number both equal the request's. On a hit it answers 200 with the token pair issued for that row. On a miss it answers 400 with one fixed error message.

`wrappers.dfy` holds the `Option` and `Result` datatypes. Two things are parameters rather than globals:

- The instruction table is a parameter of the fill. `DefaultInstructions` is the table the system uses, so the lemmas about the concrete texts name it.
- The token signer is the function parameter `tokensFor`.

Translated strings are kept as opaque string constants holding their source text.

Python's `self._state.adding` is modelled as the explicit `adding` argument of `Save`. Whether `Save` inserts or updates depends on the primary key, as in the ORM: a user without an `id` is inserted, and a user with one updates its row. Store order is primary-key order. That is the order in which the unordered `.filter(...).first()` picks its row.

## Model

| member | source | states |
|---|---|---|
| `Models.FillBlanks` | patients/models.py:82-93 | Every blank field takes the default's text and every non-blank field keeps its own, for all six fields. |
| `Models.FillUsesTable` | patients/models.py:80-93 | When a record is added with a surgery type the table knows, each field that was blank ends up equal to that type's table entry for the field. |
| `Models.FillNeverOverwrites` | patients/models.py:82-93 | For any arguments, a field that was non-blank before the save is unchanged after it. |
| `Models.FillSkipped` | patients/models.py:80 | On an update, or when the surgery type is None or empty, all six fields are left as they were. |
| `Models.FillUnknownType` | patients/models.py:81-93 | A surgery type missing from the table is no error: the fill changes nothing, so every blank field stays empty. |
| `Models.FillIdempotent` | patients/models.py:82-93 | Applying the fill twice with the same arguments gives the same six fields as applying it once. |
| `Models.DefaultInstructions` | patients/models.py:19-35 | Definition, no contract: the static table, with the six default texts of `intertro` and of `brain`. |
| `Models.DefaultsFor` | patients/models.py:81-93 | Definition, no contract: the type's table entry, or, for an unknown type, the empty entry from which every field reads `''`. |
| `Models.FillApplies` | patients/models.py:80 | Definition, no contract: the fill runs only while the record is being added and its surgery type is neither None nor `''`. |
| `Models.SavedInstructions` | patients/models.py:80-93 | Definition, no contract: the six instruction fields as the fill leaves them. The fill lemmas below and the contracts of `User.FillDefaults` and `User.Save` are stated through it. |
| `Models.TableKeys` | patients/models.py:19-35 | The system's table has exactly the keys `intertro` and `brain`. |
| `Models.TableEntriesNonBlank` | patients/models.py:19-35 | Every key of the system's table is `intertro` or `brain`, and each entry gives non-empty text for all six fields. |
| `Models.BrainAllBlank` | patients/models.py:28-34 | Adding a `brain` record whose six fields are blank yields exactly the six `brain` defaults. |
| `Models.BrainCustomWarning` | patients/models.py:82-93 | Adding a `brain` record with custom warning signs keeps that text and fills the other five fields with the `brain` defaults. |
| `Models.UnknownTypeStaysBlank` | patients/models.py:81 | Adding a record of type `unknown_code` with blank fields leaves all six fields empty. |
| `Models.UniqueIdentities` | patients/models.py:60-61 | Definition, no contract: the two `unique=True` constraints, no two rows share a national ID and no two share a phone number. |
| `Models.CollidesExcept` | patients/models.py:60-61 | Definition, no contract: the database's uniqueness test on an UPDATE of row `skip`, some other row holds the record's national ID or phone number. |
| `Models.Collides` | patients/models.py:60-61 | Definition, no contract: the uniqueness test on an INSERT, some row holds the record's national ID or phone number. |
| `Models.CollisionByIdentity` | patients/models.py:60-61 | Whether a record collides with the stored rows depends only on its national ID and phone number. |
| `Models.AppendKeepsUnique` | patients/models.py:60-61 | Appending a row that shares neither identity field with a stored row keeps both uniqueness constraints. |
| `Models.ReplaceKeepsUnique` | patients/models.py:60-61 | Replacing a row by one that shares neither identity field with any other row keeps both uniqueness constraints. |
| `Models.IndexOf` | patients/models.py:94 | The primary-key lookup of the UPDATE that `super().save` issues for a user with a key (`WHERE id = pk`): the position it returns holds the key, and no earlier position does. |
| `Models.Store.Valid` | patients/models.py:60-61 | Definition, no contract: the store invariant, unique national IDs, unique phone numbers, one primary key per row, keys increasing in row order and below the next key. Every store, save and manager contract keeps it. |
| `Models.Store.constructor` | patients/models.py:60-61 | A new store is empty and satisfies the invariant: unique national IDs, unique phone numbers, increasing primary keys. |
| `Models.Store.Insert` | patients/models.py:60-61 | The insert succeeds exactly when no stored row has the same national ID or phone number. On success the row is appended under a fresh key. On a collision it returns an integrity error and leaves the store unchanged. The invariant is kept either way. |
| `Models.Store.Update` | patients/models.py:60-61 | An update overwrites only the row with the given key. It succeeds exactly when a row has that key and no other row holds the new national ID or phone number. Otherwise the store is unchanged and the error says why: `DoesNotExist` for a missing key, `IntegrityError` for a collision. |
| `Models.User.constructor` | patients/models.py:56-72 | A new user has the given national ID, phone, surgery type and doctor. Every other field has its default: empty instruction texts, no demographics, active, not admin, no key. |
| `Models.User.FillDefaults` | patients/models.py:80-93 | The six guarded assignments leave the six instruction fields as the fill rule defines them, and change only those six fields (the modifies frame). |
| `Models.User.Save` | patients/models.py:79-94 | After a save, the object's record is the old one with only the instructions changed as the fill rule says. A user without a key is inserted, and gets the new key on success. A user with a key updates its row. |
| `Models.NewRecord` | patients/models.py:43-45 | Definition, no contract: the record `create_user` stores, with the given identity, type and doctor, the field defaults, and the instructions filled as on an add. |
| `Models.NewRecordShape` | patients/models.py:43-45 | A record made by `create_user` is active and not admin. It carries the given identity, type and doctor. Its instructions are the type's table entry, or all blank when the type is absent or unknown. |
| `Models.UserManager.constructor` | patients/models.py:39 | A manager writes to the given store. It fills records from the given table. |
| `Models.UserManager.CreateUser` | patients/models.py:40-46 | A missing or empty national ID fails with nothing stored. Otherwise creation succeeds exactly when the new record collides with no row. On success the stored row and the returned user equal the fresh filled record. On a collision the store is unchanged. |
| `Models.UserManager.CreateSuperuser` | patients/models.py:48-52 | It gives what `CreateUser` gives, except that the stored row and the returned user have `isAdmin` set. The failure cases are the same. The second save, an update, is proved never to fail. |
| `Views.InvalidCredentials` | patients/views.py:20 | Definition, no contract: the one error message of every failed login. |
| `Views.Matches` | patients/views.py:14-16 | Definition, no contract: a row passes the filter when the request's national ID and phone number are both present and equal to the row's. |
| `Views.FirstMatchAt` | patients/views.py:16 | Definition, no contract: row `k` is the row `.first()` picks, it matches the filter and no earlier row in store order does. `Views.Login`'s contract names the picked row through it. |
| `Views.FirstMatchFrom` | patients/views.py:16 | It returns the position of the first row from `from` on whose national ID and phone number match the request, or none when no such row exists. |
| `Views.Login` | patients/views.py:13-20 | Status 200 exactly when some row matches both fields. The 200 body holds the tokens of the first matching row in store order. Every other outcome is status 400 with the one fixed error message. As a function of the rows, it cannot change the store. |
| `Views.FailuresAlike` | patients/views.py:20 | Any two failed logins yield identical responses, whatever store, request or reason. |
| `Views.JointMatchOnly` | patients/views.py:16 | A request fails when no single row holds both the national ID and the phone number, even if each appears in some row on its own. |
| `Views.MissingFieldFails` | patients/views.py:14-16 | A request that lacks either field matches no row and fails. |
| `Views.FirstMatchByIdentity` | patients/views.py:16 | Two row sequences with the same identity pairs, row by row, give the same first match. |
| `Views.LoginByIdentityOnly` | patients/views.py:16 | Login does not consult `is_active`, `is_admin` or any non-identity field. Rows that differ only in those fields succeed or fail alike, and they pick the same row. |
| `Views.LoginFindsTheRecord` | patients/views.py:16-19 | In a store that keeps the uniqueness invariant, logging in with a stored row's pair returns exactly that row's tokens. |
| `Views.LoginScenarios` | patients/views.py:16-20 | A one-patient store with national ID `0012345678` and phone `09120000000` behaves as follows. The exact pair gets that patient's tokens. A wrong phone and an unknown pair both get status 400 with the same message. |

## Left out

- Password handling is not modelled. `set_password` (patients/models.py:44) and the `password` column (patients/models.py:72) belong to an external hashing library, so `create_user` and `create_superuser` take no password here.
- Token issuing is not modelled. `tokens()` and `RefreshToken.for_user` (patients/models.py:99-104) belong to an external signing library, so they are the parameter `tokensFor: Record -> Tokens`. The model does not state that tokens are non-empty. `RefreshToken.for_user` receives the user object and keys its tokens on the user's primary key, which `Record` does not hold. In the model the tokens are a function of the record's columns instead. `RefreshToken.for_user` also puts a fresh random token ID and the issue and expiry times into every token, so two logins for the same row get different tokens, while the fixed `tokensFor` gives the same pair each time. No lemma compares tokens across two calls, and no proved property depends on this.
- `__str__` (patients/models.py:96-97) is presentation only.
- The `last_login` column, inherited from Django's base user class and hidden from the admin (patients/models.py:112), is not modelled. This core never writes it.
- The `SURGERY_TYPES` and `DOCTORS` choice lists (patients/models.py:9-18) and the `max_length` limits are not modelled. `save` checks neither: they are form and database checks.
- The admin back office (`UserAdmin`, `admin.site.register`, patients/models.py:108-123) is UI configuration. Administrative edits and deletes go through it and are not part of this model.
- HTTP concerns are not modelled: CSRF exemption, `APIView`, `AllowAny` and request parsing (patients/views.py:1-12). A request field is either absent (`None`) or a string. JSON values of other types are not modelled.
- The atomicity of the uniqueness constraints under concurrent inserts is not modelled. The store is a single-threaded in-memory table.
- `Models.Store.Update`: when no row has the given key, Django's `save` falls back to an INSERT. The model instead returns `DoesNotExist` and leaves the store unchanged. Within this core, updates happen only right after an insert (`create_superuser`), where the row always exists.
- A phone number of `None` in `create_user` is not modelled. The column is non-null, so the database would refuse it. Here the phone number is always a string.
- patients/views.py:16 filters on the identity pair alone and has no `is_active` filter, so an inactive record can log in. The model follows the code (`Views.LoginByIdentityOnly`).
- The source raises exceptions for its errors: the `ValueError` for a missing national ID (patients/models.py:41-42) and the database's integrity errors. Here both are `Failure` results (`MissingNationalId`, `IntegrityError`).
