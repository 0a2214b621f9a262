/**
  The HTTP handlers of the inventory service. Requests arrive as a JSON body
  (a map from field name to value), protected routes receive the identity of
  an already-verified token, and every handler answers with a status code and
  a payload. The read-only handlers are functions of the tables; the ones
  that write are methods of `Store`, which holds the two tables.
 */
module Handlers {

  import opened Wrappers
  import opened Models
  import opened Security
  import opened Queries

  /** A value of a JSON request body; `Other` is a boolean, array or object. */
  datatype Value = Null | Text(s: string) | Whole(n: int) | Fraction(x: real) | Other

  type Body = map<string, Value>

  /** `data.get(key)`: an absent key reads as null. */
  function Field(body: Body, key: string): Value
  {
    if key in body then body[key] else Null
  }

  function AsText(v: Value): Option<string>
  {
    if v.Text? then Some(v.s) else None
  }

  /** What an `Integer` column accepts. */
  function AsQuantity(v: Value): Option<int>
  {
    if v.Whole? then Some(v.n) else None
  }

  /** What a `Float` column accepts: a JSON integer or a JSON fraction. */
  function AsPrice(v: Value): Option<Price>
  {
    match v
    case Whole(n) => Some(Price(n as real))
    case Fraction(x) => Some(Price(x))
    case _ => None
  }

  /** One item of the `GET /materials` listing. */
  datatype MaterialView = MaterialView(id: MaterialId, name: string, quantity: int, price: Price, unit: string)

  datatype Payload =
    | Msg(text: string)
    | Token(token: AccessToken)
    | Items(items: seq<MaterialView>)
    | Profile(id: UserId, email: string)
    | NotFoundPage   // the page `first_or_404` aborts with
    | ServerError    // the page of an uncaught exception: a failed hash call or commit

  datatype Response = Response(status: int, payload: Payload)

  const INVALID_CREDENTIALS := Response(401, Msg("Invalid credentials"))
  const EMAIL_TAKEN := Response(400, Msg("Email already registered"))
  const INVALID_OLD_PASSWORD := Response(400, Msg("Invalid old password"))
  const NOT_FOUND := Response(404, NotFoundPage)
  const INTERNAL_ERROR := Response(500, ServerError)

  function View(m: Material): MaterialView
  {
    MaterialView(m.id, m.name, m.quantity, m.price, m.unit)
  }

  /** Some user has the email the body names. A non-string email matches no stored email. */
  predicate EmailTaken(users: seq<User>, email: Value)
  {
    email.Text? && exists i :: 0 <= i < |users| && users[i].email == email.s
  }

  /** The body names `u` by email. */
  predicate Names(u: User, body: Body)
  {
    Field(body, "email") == Text(u.email)
  }

  /** The body names `u` and its password verifies against `u`'s stored digest. */
  predicate Accepts(h: Hasher, u: User, body: Body)
  {
    Names(u, body) && Field(body, "password").Text? && h.check(u.password, Field(body, "password").s)
  }

  /**
    `POST /login`. An unknown email and a wrong password give the same 401
    answer; a password that is not a string makes the check raise.
   */
  function Login(h: Hasher, users: seq<User>, body: Body, now: int): (r: Response)
    requires UniqueEmails(users)
    ensures r.status == 200 <==> exists i :: 0 <= i < |users| && Accepts(h, users[i], body)
    ensures forall i :: 0 <= i < |users| && Accepts(h, users[i], body) ==>
      r == Response(200, Token(IssueToken(users[i].id, now)))
    ensures r.status == 500 <==>
      exists i :: 0 <= i < |users| && Names(users[i], body) && !Field(body, "password").Text?
    ensures r.status != 200 && r.status != 500 ==> r == INVALID_CREDENTIALS
  {
    var email := Field(body, "email");
    if !email.Text? then INVALID_CREDENTIALS
    else match FindUserByEmail(users, email.s)
      case None => INVALID_CREDENTIALS
      case Some(i) =>
        var password := Field(body, "password");
        if !password.Text? then INTERNAL_ERROR
        else if !h.check(users[i].password, password.s) then INVALID_CREDENTIALS
        else Response(200, Token(IssueToken(users[i].id, now)))
  }

  /** `GET /profile` for the verified `identity`. */
  function GetProfile(users: seq<User>, identity: UserId): (r: Response)
    requires UniqueUserIds(users)
    ensures r.status == 404 <==> forall i :: 0 <= i < |users| ==> users[i].id != identity
    ensures r.status == 404 ==> r == Response(404, Msg("User not found"))
    ensures forall i :: 0 <= i < |users| && users[i].id == identity ==>
      r == Response(200, Profile(users[i].id, users[i].email))
  {
    match FindUserById(users, identity)
    case None => Response(404, Msg("User not found"))
    case Some(i) => Response(200, Profile(users[i].id, users[i].email))
  }

  /** `GET /materials` for the verified `identity`: the owner's rows, projected, in store order. */
  function GetMaterials(materials: seq<Material>, identity: UserId): (r: Response)
    ensures r.status == 200 && r.payload.Items?
    ensures forall v :: v in r.payload.items <==>
      exists m :: m in materials && m.userId == identity && View(m) == v
  {
    var owned := OwnedBy(materials, identity);
    var items := seq(|owned|, k requires 0 <= k < |owned| => View(owned[k]));
    forall v
      ensures v in items <==> exists m :: m in materials && m.userId == identity && View(m) == v
    {
      if v in items {
        var k :| 0 <= k < |items| && items[k] == v;
        assert owned[k] in owned;
      }
      if m :| m in materials && m.userId == identity && View(m) == v {
        var k :| 0 <= k < |owned| && owned[k] == m;
        assert items[k] == v;
      }
    }
    Response(200, Items(items))
  }

  /** A value the body gives for `key` fits that column. */
  predicate Fits(key: string, v: Value)
  {
    if key == "quantity" then AsQuantity(v).Some?
    else if key == "price" then AsPrice(v).Some?
    else AsText(v).Some?
  }

  const UPDATABLE: set<string> := {"name", "quantity", "price", "unit"}

  /**
    The row after `material.key = data.get(key, material.key)` for each of
    the four fields, or `None` when a given value does not fit its column, so
    that the commit fails and the row keeps its old value.
   */
  function ApplyUpdate(m: Material, body: Body): (r: Option<Material>)
    ensures r.None? <==> exists k :: k in UPDATABLE && k in body && !Fits(k, body[k])
    ensures r.Some? ==> r.value.id == m.id && r.value.userId == m.userId
    ensures r.Some? ==> if "name" in body then body["name"] == Text(r.value.name) else r.value.name == m.name
    ensures r.Some? ==> if "quantity" in body then body["quantity"] == Whole(r.value.quantity) else r.value.quantity == m.quantity
    ensures r.Some? ==> if "price" in body then AsPrice(body["price"]) == Some(r.value.price) else r.value.price == m.price
    ensures r.Some? ==> if "unit" in body then body["unit"] == Text(r.value.unit) else r.value.unit == m.unit
  {
    var name := if "name" in body then AsText(body["name"]) else Some(m.name);
    var quantity := if "quantity" in body then AsQuantity(body["quantity"]) else Some(m.quantity);
    var price := if "price" in body then AsPrice(body["price"]) else Some(m.price);
    var unit := if "unit" in body then AsText(body["unit"]) else Some(m.unit);
    if name.Some? && quantity.Some? && price.Some? && unit.Some? then
      Some(m.(name := name.value, quantity := quantity.value, price := price.value, unit := unit.value))
    else
      None
  }

  /** The two tables and the key generators of the database. */
  class Store {
    const hasher: Hasher
    var users: seq<User>
    var materials: seq<Material>
    var nextUserId: UserId
    var nextMaterialId: MaterialId

    /**
      The primary-key and unique-email constraints, and every key below the
      next one to be handed out. The foreign key is not part of it: each
      writing method ensures it is preserved (`AddMaterial` only when the
      identity is a user).
     */
    ghost predicate Valid()
      reads this
    {
      UserTable(users) && UniqueMaterialIds(materials)
      && (forall i :: 0 <= i < |users| ==> users[i].id < nextUserId)
      && (forall i :: 0 <= i < |materials| ==> materials[i].id < nextMaterialId)
    }

    constructor (hasher: Hasher)
      ensures Valid() && this.hasher == hasher
      ensures users == [] && materials == [] && nextUserId == 1 && nextMaterialId == 1
    {
      this.hasher := hasher;
      users, materials := [], [];
      nextUserId, nextMaterialId := 1, 1;
    }

    /** `POST /register`. */
    method Register(body: Body, now: int) returns (r: Response)
      requires Valid()
      modifies this
      ensures Valid()
      ensures materials == old(materials) && nextMaterialId == old(nextMaterialId)
      ensures EmailTaken(old(users), Field(body, "email")) ==>
        r == EMAIL_TAKEN && users == old(users) && nextUserId == old(nextUserId)
      ensures !EmailTaken(old(users), Field(body, "email"))
              && !(Field(body, "email").Text? && Field(body, "password").Text?) ==>
        r == INTERNAL_ERROR && users == old(users) && nextUserId == old(nextUserId)
      ensures !EmailTaken(old(users), Field(body, "email"))
              && Field(body, "email").Text? && Field(body, "password").Text? ==>
        users == old(users) + [User(old(nextUserId), Field(body, "email").s, hasher.hash(Field(body, "password").s))]
        && nextUserId == old(nextUserId) + 1
        && r == Response(201, Token(IssueToken(old(nextUserId), now)))
      ensures OwnersExist(old(users), old(materials)) ==> OwnersExist(users, materials)
    {
      var email := Field(body, "email");
      var password := Field(body, "password");
      if email.Text? && FindUserByEmail(users, email.s).Some? {
        return EMAIL_TAKEN;
      }
      if !email.Text? || !password.Text? {
        return INTERNAL_ERROR;
      }
      var user := User(nextUserId, email.s, hasher.hash(password.s));
      UserTableAppend(users, user);
      ghost var before := users;
      users := users + [user];
      nextUserId := nextUserId + 1;
      assert forall i :: 0 <= i < |before| ==> users[i] == before[i];
      r := Response(201, Token(IssueToken(user.id, now)));
    }

    /** `POST /materials` for the verified `identity`. */
    method AddMaterial(identity: UserId, body: Body) returns (r: Response)
      requires Valid()
      modifies this
      ensures Valid()
      ensures users == old(users) && nextUserId == old(nextUserId)
      ensures AsText(Field(body, "name")).Some? && AsQuantity(Field(body, "quantity")).Some?
              && AsPrice(Field(body, "price")).Some? && AsText(Field(body, "unit")).Some? ==>
        materials == old(materials) + [Material(old(nextMaterialId),
                                                AsText(Field(body, "name")).value,
                                                AsQuantity(Field(body, "quantity")).value,
                                                AsText(Field(body, "unit")).value,
                                                AsPrice(Field(body, "price")).value,
                                                identity)]
        && nextMaterialId == old(nextMaterialId) + 1
        && r == Response(201, Msg("Material added successfully"))
      ensures !(AsText(Field(body, "name")).Some? && AsQuantity(Field(body, "quantity")).Some?
                && AsPrice(Field(body, "price")).Some? && AsText(Field(body, "unit")).Some?) ==>
        materials == old(materials) && nextMaterialId == old(nextMaterialId) && r == INTERNAL_ERROR
      ensures forall o :: o != identity ==> OwnedBy(materials, o) == OwnedBy(old(materials), o)
      ensures OwnersExist(old(users), old(materials)) && (exists j :: 0 <= j < |users| && users[j].id == identity) ==>
        OwnersExist(users, materials)
    {
      var name := AsText(Field(body, "name"));
      var quantity := AsQuantity(Field(body, "quantity"));
      var price := AsPrice(Field(body, "price"));
      var unit := AsText(Field(body, "unit"));
      if name.None? || quantity.None? || price.None? || unit.None? {
        return INTERNAL_ERROR;
      }
      var material := Material(nextMaterialId, name.value, quantity.value, unit.value, price.value, identity);
      ghost var before := materials;
      materials := materials + [material];
      nextMaterialId := nextMaterialId + 1;
      assert forall i :: 0 <= i < |before| ==> materials[i] == before[i];
      forall o | o != identity
        ensures OwnedBy(materials, o) == OwnedBy(before, o)
      {
        OwnedByAppend(before, material, o);
      }
      r := Response(201, Msg("Material added successfully"));
    }

    /** `PUT /materials/<id>` for the verified `identity`. */
    method UpdateMaterial(identity: UserId, id: MaterialId, body: Body) returns (r: Response)
      requires Valid()
      modifies this
      ensures Valid()
      ensures users == old(users) && nextUserId == old(nextUserId) && nextMaterialId == old(nextMaterialId)
      ensures FindOwned(old(materials), id, identity).None? ==> r == NOT_FOUND && materials == old(materials)
      ensures forall i :: 0 <= i < |old(materials)| && old(materials)[i].id == id && old(materials)[i].userId == identity ==>
        match ApplyUpdate(old(materials)[i], body)
        case None => r == INTERNAL_ERROR && materials == old(materials)
        case Some(m) => r == Response(200, Msg("Material updated successfully")) && materials == old(materials)[i := m]
      ensures forall o :: o != identity ==> OwnedBy(materials, o) == OwnedBy(old(materials), o)
      ensures OwnersExist(old(users), old(materials)) ==> OwnersExist(users, materials)
    {
      var found := FindOwned(materials, id, identity);
      if found.None? {
        return NOT_FOUND;
      }
      var i := found.value;
      var updated := ApplyUpdate(materials[i], body);
      if updated.None? {
        return INTERNAL_ERROR;
      }
      ghost var before := materials;
      materials := materials[i := updated.value];
      forall o | o != identity
        ensures OwnedBy(materials, o) == OwnedBy(before, o)
      {
        OwnedByReplace(before, i, updated.value, o);
      }
      r := Response(200, Msg("Material updated successfully"));
    }

    /** `DELETE /materials/<id>` for the verified `identity`. */
    method DeleteMaterial(identity: UserId, id: MaterialId) returns (r: Response)
      requires Valid()
      modifies this
      ensures Valid()
      ensures users == old(users) && nextUserId == old(nextUserId) && nextMaterialId == old(nextMaterialId)
      ensures FindOwned(old(materials), id, identity).None? ==> r == NOT_FOUND && materials == old(materials)
      ensures forall i :: 0 <= i < |old(materials)| && old(materials)[i].id == id && old(materials)[i].userId == identity ==>
        r == Response(200, Msg("Material deleted successfully")) && materials == old(materials)[..i] + old(materials)[i + 1..]
      ensures r.status == 200 ==> forall j :: 0 <= j < |materials| ==> materials[j].id != id
      ensures forall o :: o != identity ==> OwnedBy(materials, o) == OwnedBy(old(materials), o)
      ensures OwnersExist(old(users), old(materials)) ==> OwnersExist(users, materials)
    {
      var found := FindOwned(materials, id, identity);
      if found.None? {
        return NOT_FOUND;
      }
      var i := found.value;
      ghost var before := materials;
      materials := materials[..i] + materials[i + 1..];
      MaterialTableRemove(users, before, i);
      assert forall o :: o != identity ==> OwnedBy(materials, o) == OwnedBy(before, o) by {
        forall o | o != identity
          ensures OwnedBy(before[..i] + before[i + 1..], o) == OwnedBy(before, o)
        {
          OwnedByRemove(before, i, o);
        }
      }
      r := Response(200, Msg("Material deleted successfully"));
    }

    /** `PUT /change-password` for the verified `identity`. */
    method ChangePassword(identity: UserId, body: Body) returns (r: Response)
      requires Valid()
      modifies this
      ensures Valid()
      ensures materials == old(materials) && nextUserId == old(nextUserId) && nextMaterialId == old(nextMaterialId)
      ensures FindUserById(old(users), identity).None? ==> r == INVALID_OLD_PASSWORD && users == old(users)
      ensures forall i :: 0 <= i < |old(users)| && old(users)[i].id == identity ==>
        var oldPassword, newPassword := Field(body, "old_password"), Field(body, "new_password");
        if !oldPassword.Text? then
          r == INTERNAL_ERROR && users == old(users)
        else if !hasher.check(old(users)[i].password, oldPassword.s) then
          r == INVALID_OLD_PASSWORD && users == old(users)
        else if !newPassword.Text? then
          r == INTERNAL_ERROR && users == old(users)
        else
          r == Response(200, Msg("Password changed successfully"))
          && users == old(users)[i := old(users)[i].(password := hasher.hash(newPassword.s))]
      ensures OwnersExist(old(users), old(materials)) ==> OwnersExist(users, materials)
    {
      var oldPassword := Field(body, "old_password");
      var newPassword := Field(body, "new_password");
      var found := FindUserById(users, identity);
      if found.None? {
        return INVALID_OLD_PASSWORD;
      }
      var i := found.value;
      if !oldPassword.Text? {
        return INTERNAL_ERROR;
      }
      if !hasher.check(users[i].password, oldPassword.s) {
        return INVALID_OLD_PASSWORD;
      }
      if !newPassword.Text? {
        return INTERNAL_ERROR;
      }
      ghost var before := users;
      users := users[i := users[i].(password := hasher.hash(newPassword.s))];
      assert forall j :: 0 <= j < |users| ==> users[j].id == before[j].id && users[j].email == before[j].email;
      r := Response(200, Msg("Password changed successfully"));
    }
  }
}
