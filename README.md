# Inventory service: ownership-scoped user and material store

This project models the record store behind the HTTP handlers of a small
multi-tenant inventory tracker. Users register with an email and a
password. They log in and receive a one-hour access token. They then manage
their own list of materials (name, quantity, unit, price). Every material
lookup is filtered by `(id, owner == identity)`, so another user's row
behaves exactly like a missing one.

The model is a state machine over two tables:

- `models.dfy` (module `Models`): the `User` and `Material` rows as
  datatypes. The table constraints are predicates: primary keys, unique
  email, and the owner foreign key. Columns declared non-null are
  non-optional fields, so "non-null" holds by construction.
- `security.dfy` (module `Security`): the password hasher, as an
  uninterpreted pair of functions `Hasher(hash, check)`. Its one assumed
  property, `Sound(h)`, says `check(hash(p), p)` holds for every `p`. The
  module also holds the access token, which carries the identity claim and
  `expiresAt = now + 3600`.
- `queries.dfy` (module `Queries`): the ORM queries the handlers issue, as
  recursive functions over the tables in store order. Here
  `filter_by(...).first()` is the first matching index, `query.get(id)` is
  the row with that key, and `filter_by(user_id=...).all()` is the owner's
  rows. The module also proves lemmas on how the owner's rows change under
  append, remove and in-place rewrite.
- `handlers.dfy` (module `Handlers`): the request body is a map from field
  name to JSON value, and the response is a `(status, payload)` pair. The
  read-only handlers `Login`, `GetProfile` and `GetMaterials` are functions
  of the tables. The writing handlers are methods of class `Store`: it holds
  `users: seq<User>`, `materials: seq<Material>` and the two key generators,
  and its invariant `Valid()` is the primary-key and unique-email
  constraints plus the bounds on the two key counters. The foreign key is
  not part of `Valid()`. Each writing method ensures instead that it
  preserves the foreign key; `AddMaterial` does so only when the identity
  is a user.
- `properties.dfy` (module `Properties`): lemmas that relate several
  handlers, plus two client methods that replay the register / add /
  list walk-through.

Conventions taken from the code:

- In `register`, `add_material` and `change_password`, a field whose JSON
  value does not fit its column gives `500` and leaves the store unchanged.
  This covers an absent field, `null`, or a value of the wrong type. In the
  source the failure is a raised exception from the hash call or the
  commit, and the commit is rolled back.
- In `update_material` an absent key keeps the row's old value. Only a key
  that is present with a value that does not fit its column gives `500`,
  and then nothing changes.
- Keys are handed out by a counter starting at 1. The counter is above
  every existing key.
- The verified token identity is an argument of the protected handlers. The
  clock `now` is an argument of the handlers that issue tokens.

Behaviours of the code that a reader might not expect:

- `register` does not check that the email is non-empty. The model does not
  check either.
- Material creation does not check that fields are present. A missing field
  only fails at commit, which gives 500.
- `change_password` answers `400 'Invalid old password'` both when the
  user is missing and when the old password fails. It is not a 401.
- A 404 from an update or delete is the framework's not-found page
  (`first_or_404`), not a JSON message.

## Model

| member | source | states |
|---|---|---|
| Models.UserTableAppend | models.py:11-12 | appending a user whose id and email are both new keeps user ids and emails unique |
| Models.MaterialTableRemove | app.py:85-87 | deleting row i keeps material ids unique and the foreign key holding, and leaves no row with row i's id; the other rows keep their order |
| Queries.FindUserByEmail | app.py:26 | the result is the first user with that email, or no user has it |
| Queries.FindUserById | app.py:109 | the result is a user with that id, or no user has it |
| Queries.FindOwned | app.py:72 | the result is the first row with that id AND that owner; absence means every row with that id belongs to someone else or there is none |
| Queries.OwnedBy | app.py:95 | the result contains exactly the rows of the table whose owner is the identity |
| Queries.OwnedByConcat | app.py:95 | filtering by owner distributes over concatenation, so store order is kept |
| Queries.OwnedByAppend | app.py:62-64 | appending a row adds it at the end of its owner's rows and to no other owner's |
| Queries.OwnedByRemove | app.py:86-87 | the owner's rows before removal are the rows before row i, then row i if the owner holds it, then the rows after it; after removal row i is gone from that sequence; every other owner's rows are unchanged |
| Queries.OwnedByReplace | app.py:74-78 | rewriting a row in place, keeping its owner, leaves every other owner's rows unchanged |
| Handlers.Login | app.py:38-50 | 200 with a token for user u exactly when the body names u's email and the password checks against u's digest; 500 exactly when the named user exists and the password is not a string; every other outcome is the one response 401 'Invalid credentials' |
| Handlers.GetProfile | app.py:105-116 | 404 'User not found' exactly when no user has the identity's id, otherwise 200 with that user's id and email |
| Handlers.GetMaterials | app.py:91-102 | always 200; the items are exactly the id/name/quantity/price/unit projections of the identity's rows |
| Handlers.ApplyUpdate | app.py:74-78 | a key present in the body overwrites that field and an absent key keeps the old value; id and owner never change; the update fails exactly when a present value does not fit its column |
| Handlers.Store.constructor | models.py:9-22 | the store starts with empty tables, both key counters at 1, and Valid() (primary keys, unique email, counter bounds) established |
| Handlers.Store.Register | app.py:20-36 | a taken email gives 400 and no table changes; otherwise an email or password that is absent, null or not a string gives 500 and no table changes; otherwise exactly one user is appended with a fresh id and the digest hash(password), and 201 returns a token for that id expiring one hour after now; the constraints and the foreign key are preserved |
| Handlers.Store.AddMaterial | app.py:52-66 | a name, quantity, price or unit that is absent, null or does not fit its column gives 500 and no table changes; otherwise exactly one row is appended with the given fields, a fresh id and the identity as owner, and 201 is returned; no other owner's rows change; the foreign key is preserved when the identity is a user |
| Handlers.Store.UpdateMaterial | app.py:68-80 | 404 and no change when no row has (id, identity); otherwise only that row is replaced by ApplyUpdate's result (200), or nothing changes (500); no other owner's rows change |
| Handlers.Store.DeleteMaterial | app.py:82-89 | 404 and no change when no row has (id, identity); otherwise exactly that row is removed, no row with the id remains, and no other owner's rows change |
| Handlers.Store.ChangePassword | app.py:119-135 | 400 'Invalid old password' and no change when the user is missing or the old password fails the check; otherwise only that user's digest becomes hash(new_password), with 500 for a non-string password |
| Properties.LoginAfterRegister | app.py:29-50 | the user that register appends can log in at once with the same credentials, receiving a token for its id |
| Properties.LoginAfterChangePassword | app.py:126-135 | after the digest is replaced by hash(new), logging in with the new password succeeds for that user |
| Properties.LoginFailuresAlike | app.py:44-47 | an unknown email and a wrong password give the identical 401 response |
| Properties.ForeignRowIsMissing | app.py:72 | a row with the requested id that belongs to another user is not found, just like a missing id |
| Properties.ListingAfterAdd | app.py:61-66 | after a material is added, its owner's listing is the old listing with the new row's projection at the end |
| Properties.ListingAfterDelete | app.py:85-89 | after a row is deleted, no listing contains an item with its id |
| Properties.EmptyUpdateKeepsRow | app.py:74-77 | an update body without any of the four keys leaves the row unchanged |
| Properties.UpdateIdempotent | app.py:74-77 | applying the same update body twice gives the same row as applying it once |
| Properties.RegisterScenario | app.py:20-50 | register returns 201 with a token for id 1; the same email a second time returns 400; login returns 200 with a token for id 1 |
| Properties.MaterialScenario | app.py:52-102 | adding the bolt returns 201, and the listing is exactly one item (1, "bolt", 10, 0.5, "pcs") |

## Left out

- HTTP routing, JSON parsing, `jsonify` and the CORS setup. A body that is not a JSON object is out of scope; bodies are maps.
- Configuration loading, `create_all` and migrations: these are startup and I/O.
- Token signing and verification, including the `@jwt_required` 401 pre-step and the expiry check. The verified identity is an argument, and a token is kept only as its identity and expiry.
- The pbkdf2 internals of the hasher, and salting. `hash` is one deterministic function, so two users with equal passwords get equal digests in the model.
- Floating point: a price is a real that nothing computes with, and a JSON integer price becomes the same real value.
- Type coercions that the storage engine might apply. A value of the wrong JSON type is modelled as a failed commit (500), for example a string quantity or a boolean. In `register` a non-string email also gives 500. In `Login` a non-string email matches nobody and gets 401; the engine might instead raise (500) or coerce a number.
- Key reuse: the storage engine may hand out a deleted row's id again. The model's counters never reuse a key; either way, a new key is distinct from every existing one.
- Session and commit semantics, and races between concurrent requests.
- The `String(120)` length limits, which the handlers never enforce.
- The finite range of the `Integer` column, which is a storage-engine detail. A quantity outside the engine's range is stored in the model. In the source the commit would fail and the handler would answer 500.
- The storage engine's string collation. Emails are compared as exact character sequences, both in the lookup and in the uniqueness rule. An engine with a case-insensitive collation would treat `A@x.com` and `a@x.com` as equal.
- Handlers.GetMaterials: its contract gives the members of the listing. The store order is stated separately: Queries.OwnedByConcat and Properties.ListingAfterAdd cover it.
- Handlers.Store.AddMaterial: the foreign key is preserved only when the identity names an existing user. The handler does not check this. A verified identity always came from a token issued for a registered user, and users are never deleted.
