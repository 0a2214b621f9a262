/**
  The ORM queries the handlers issue, as functions over the tables in store
  order: `filter_by(...).first()` returns the first matching row,
  `query.get(id)` the row with that key, `filter_by(...).all()` every
  matching row in order.
 */
module Queries {

  import opened Wrappers
  import opened Models

  /** `User.query.filter_by(email=email).first()`, as an index into `users`. */
  function FindUserByEmail(users: seq<User>, email: string): (r: Option<nat>)
    ensures r.Some? ==> r.value < |users| && users[r.value].email == email
    ensures r.Some? ==> forall j :: 0 <= j < r.value ==> users[j].email != email
    ensures r.None? ==> forall j :: 0 <= j < |users| ==> users[j].email != email
  {
    if |users| == 0 then None
    else if users[0].email == email then Some(0)
    else match FindUserByEmail(users[1..], email)
      case None => None
      case Some(k) => Some(k + 1)
  }

  /** `User.query.get(id)`, as an index into `users`. */
  function FindUserById(users: seq<User>, id: UserId): (r: Option<nat>)
    ensures r.Some? ==> r.value < |users| && users[r.value].id == id
    ensures r.None? ==> forall j :: 0 <= j < |users| ==> users[j].id != id
  {
    if |users| == 0 then None
    else if users[0].id == id then Some(0)
    else match FindUserById(users[1..], id)
      case None => None
      case Some(k) => Some(k + 1)
  }

  /**
    `Material.query.filter_by(id=id, user_id=owner).first()`: a row with that
    id owned by somebody else is not a match.
   */
  function FindOwned(materials: seq<Material>, id: MaterialId, owner: UserId): (r: Option<nat>)
    ensures r.Some? ==> r.value < |materials| && materials[r.value].id == id && materials[r.value].userId == owner
    ensures r.Some? ==> forall j :: 0 <= j < r.value ==> !(materials[j].id == id && materials[j].userId == owner)
    ensures r.None? ==> forall j :: 0 <= j < |materials| ==> !(materials[j].id == id && materials[j].userId == owner)
  {
    if |materials| == 0 then None
    else if materials[0].id == id && materials[0].userId == owner then Some(0)
    else match FindOwned(materials[1..], id, owner)
      case None => None
      case Some(k) => Some(k + 1)
  }

  /** `Material.query.filter_by(user_id=owner).all()`: the owner's rows, in store order. */
  function OwnedBy(materials: seq<Material>, owner: UserId): (r: seq<Material>)
    ensures |r| <= |materials|
    ensures forall m :: m in r <==> m in materials && m.userId == owner
  {
    if |materials| == 0 then []
    else
      var rest := OwnedBy(materials[1..], owner);
      assert forall m :: m in materials <==> m == materials[0] || m in materials[1..];
      if materials[0].userId == owner then [materials[0]] + rest else rest
  }

  /** Filtering distributes over concatenation, so the order of the store is kept. */
  lemma {:induction false} OwnedByConcat(a: seq<Material>, b: seq<Material>, owner: UserId)
    ensures OwnedBy(a + b, owner) == OwnedBy(a, owner) + OwnedBy(b, owner)
  {
    if |a| == 0 {
      assert a + b == b;
    } else {
      assert (a + b)[0] == a[0];
      assert (a + b)[1..] == a[1..] + b;
      OwnedByConcat(a[1..], b, owner);
    }
  }

  lemma OwnedBySingle(m: Material, owner: UserId)
    ensures OwnedBy([m], owner) == if m.userId == owner then [m] else []
  {
  }

  /** The owner's rows around position `i`. */
  lemma OwnedBySplit(materials: seq<Material>, i: nat, owner: UserId)
    requires i < |materials|
    ensures OwnedBy(materials, owner)
         == OwnedBy(materials[..i], owner) + OwnedBy([materials[i]], owner) + OwnedBy(materials[i + 1..], owner)
  {
    assert materials == materials[..i] + [materials[i]] + materials[i + 1..];
    OwnedByConcat(materials[..i] + [materials[i]], materials[i + 1..], owner);
    OwnedByConcat(materials[..i], [materials[i]], owner);
  }

  /** Appending a row adds it to its owner's rows, at the end, and to nobody else's. */
  lemma OwnedByAppend(materials: seq<Material>, m: Material, owner: UserId)
    ensures OwnedBy(materials + [m], owner)
         == OwnedBy(materials, owner) + (if m.userId == owner then [m] else [])
  {
    OwnedByConcat(materials, [m], owner);
    OwnedBySingle(m, owner);
  }

  /** Removing row `i` removes it from its owner's rows and changes nobody else's. */
  lemma OwnedByRemove(materials: seq<Material>, i: nat, owner: UserId)
    requires i < |materials|
    ensures OwnedBy(materials, owner)
         == OwnedBy(materials[..i], owner)
            + (if materials[i].userId == owner then [materials[i]] else [])
            + OwnedBy(materials[i + 1..], owner)
    ensures OwnedBy(materials[..i] + materials[i + 1..], owner)
         == OwnedBy(materials[..i], owner) + OwnedBy(materials[i + 1..], owner)
    ensures materials[i].userId != owner ==>
      OwnedBy(materials[..i] + materials[i + 1..], owner) == OwnedBy(materials, owner)
  {
    OwnedByConcat(materials[..i], materials[i + 1..], owner);
    OwnedBySplit(materials, i, owner);
    OwnedBySingle(materials[i], owner);
  }

  /** Rewriting row `i` in place, keeping its owner, changes nobody else's rows. */
  lemma OwnedByReplace(materials: seq<Material>, i: nat, m: Material, owner: UserId)
    requires i < |materials| && m.userId == materials[i].userId
    ensures OwnedBy(materials[i := m], owner)
         == OwnedBy(materials[..i], owner) + OwnedBy([m], owner) + OwnedBy(materials[i + 1..], owner)
    ensures materials[i].userId != owner ==> OwnedBy(materials[i := m], owner) == OwnedBy(materials, owner)
  {
    var t := materials[i := m];
    assert t[..i] == materials[..i] && t[i + 1..] == materials[i + 1..] && t[i] == m;
    OwnedBySplit(t, i, owner);
    OwnedBySplit(materials, i, owner);
    OwnedBySingle(m, owner);
    OwnedBySingle(materials[i], owner);
  }
}
