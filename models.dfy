/**
  The two tables of the inventory service: users and their materials.
  Every column declared `nullable=False` is a non-optional field here, so
  "non-null" holds by construction; the key and uniqueness constraints are
  the predicates below.
 */
module Models {

  type UserId = nat
  type MaterialId = nat
  type Password = string
  /** What the `password` column stores: the output of the password hasher. */
  type Digest = string

  /** A material's price: a real that nothing computes with. */
  datatype Price = Price(amount: real)

  datatype User = User(id: UserId, email: string, password: Digest)

  datatype Material = Material(
    id: MaterialId,
    name: string,
    quantity: int,
    unit: string,
    price: Price,
    userId: UserId)

  /** `id` is the primary key of the user table. */
  predicate UniqueUserIds(users: seq<User>)
  {
    forall i, j :: 0 <= i < j < |users| ==> users[i].id != users[j].id
  }

  /** `email` is declared unique. */
  predicate UniqueEmails(users: seq<User>)
  {
    forall i, j :: 0 <= i < j < |users| ==> users[i].email != users[j].email
  }

  /** The constraints of the user table. */
  predicate UserTable(users: seq<User>)
  {
    UniqueUserIds(users) && UniqueEmails(users)
  }

  /** `id` is the primary key of the material table. */
  predicate UniqueMaterialIds(materials: seq<Material>)
  {
    forall i, j :: 0 <= i < j < |materials| ==> materials[i].id != materials[j].id
  }

  /** The foreign key `material.user_id -> user.id`. */
  predicate OwnersExist(users: seq<User>, materials: seq<Material>)
  {
    forall i :: 0 <= i < |materials| ==>
      exists j :: 0 <= j < |users| && users[j].id == materials[i].userId
  }

  /** Adding a row whose email no row has keeps emails unique, and likewise for ids. */
  lemma UserTableAppend(users: seq<User>, u: User)
    requires UserTable(users)
    requires forall i :: 0 <= i < |users| ==> users[i].id != u.id && users[i].email != u.email
    ensures UserTable(users + [u])
  {
  }

  /** Removing row `i` keeps material ids unique and the foreign key holding, and leaves no row with its id. */
  lemma MaterialTableRemove(users: seq<User>, materials: seq<Material>, i: nat)
    requires i < |materials|
    ensures var rest := materials[..i] + materials[i + 1..];
      && (forall j :: 0 <= j < |rest| ==> rest[j] == if j < i then materials[j] else materials[j + 1])
      && (UniqueMaterialIds(materials) ==> UniqueMaterialIds(rest))
      && (UniqueMaterialIds(materials) ==> forall j :: 0 <= j < |rest| ==> rest[j].id != materials[i].id)
      && (OwnersExist(users, materials) ==> OwnersExist(users, rest))
  {
  }
}
