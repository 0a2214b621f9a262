/**
  Properties that relate several handlers: logging in after registering or
  changing a password, indistinguishable login failures, ownership scoping
  of the material rows, and the partial-update rule.
 */
module Properties {

  import opened Wrappers
  import opened Models
  import opened Security
  import opened Queries
  import opened Handlers

  function Credentials(email: string, password: Password): Body
  {
    map["email" := Text(email), "password" := Text(password)]
  }

  /** The row `Register` appends can log in at once with the same credentials. */
  lemma LoginAfterRegister(h: Hasher, users: seq<User>, id: UserId, email: string, password: Password, now: int)
    requires Sound(h) && UserTable(users)
    requires forall i :: 0 <= i < |users| ==> users[i].id != id && users[i].email != email
    ensures UserTable(users + [User(id, email, h.hash(password))])
    ensures Login(h, users + [User(id, email, h.hash(password))], Credentials(email, password), now)
         == Response(200, Token(IssueToken(id, now)))
  {
    var u := User(id, email, h.hash(password));
    UserTableAppend(users, u);
    var t := users + [u];
    assert t[|users|] == u;
    assert Accepts(h, t[|users|], Credentials(email, password));
  }

  /** After `ChangePassword` rewrites user `i`'s digest, the new password logs that user in. */
  lemma LoginAfterChangePassword(h: Hasher, users: seq<User>, i: nat, password: Password, now: int)
    requires Sound(h) && UserTable(users) && i < |users|
    ensures UserTable(users[i := users[i].(password := h.hash(password))])
    ensures Login(h, users[i := users[i].(password := h.hash(password))], Credentials(users[i].email, password), now)
         == Response(200, Token(IssueToken(users[i].id, now)))
  {
    var t := users[i := users[i].(password := h.hash(password))];
    assert forall j :: 0 <= j < |t| ==> t[j].id == users[j].id && t[j].email == users[j].email;
    assert Accepts(h, t[i], Credentials(users[i].email, password));
  }

  /** An unknown email and a wrong password are answered identically. */
  lemma LoginFailuresAlike(h: Hasher, users: seq<User>, body: Body, now: int)
    requires UniqueEmails(users)
    ensures (forall i :: 0 <= i < |users| ==> !Names(users[i], body)) ==>
      Login(h, users, body, now) == INVALID_CREDENTIALS
    ensures forall i :: (0 <= i < |users| && Names(users[i], body) && Field(body, "password").Text?
                         && !h.check(users[i].password, Field(body, "password").s)) ==>
      Login(h, users, body, now) == INVALID_CREDENTIALS
  {
  }

  /**
    A row with the requested id that belongs to another user is invisible:
    update and delete see no match and answer 404, as for a missing id.
   */
  lemma ForeignRowIsMissing(materials: seq<Material>, i: nat, identity: UserId)
    requires UniqueMaterialIds(materials) && i < |materials| && materials[i].userId != identity
    ensures FindOwned(materials, materials[i].id, identity) == None
  {
  }

  /** The listing after `AddMaterial` is the old listing with the new row's projection at the end. */
  lemma {:induction false} ListingAfterAdd(materials: seq<Material>, m: Material)
    ensures GetMaterials(materials + [m], m.userId).payload.items
         == GetMaterials(materials, m.userId).payload.items + [View(m)]
  {
    var o := m.userId;
    OwnedByAppend(materials, m, o);
    var a, b := OwnedBy(materials, o), OwnedBy(materials + [m], o);
    assert b == a + [m];
    var xs := GetMaterials(materials + [m], o).payload.items;
    var ys := GetMaterials(materials, o).payload.items;
    assert |xs| == |b| && |ys| == |a|;
    assert forall k :: 0 <= k < |ys| ==> xs[k] == View(b[k]) == View(a[k]) == ys[k];
    assert xs[|a|] == View(m);
  }

  /** Once row `i` is deleted, no item of anybody's listing carries its id. */
  lemma ListingAfterDelete(materials: seq<Material>, i: nat, owner: UserId)
    requires UniqueMaterialIds(materials) && i < |materials|
    ensures forall v :: v in GetMaterials(materials[..i] + materials[i + 1..], owner).payload.items ==>
      v.id != materials[i].id
  {
  }

  /** An update body with none of the four keys leaves the row as it was. */
  lemma EmptyUpdateKeepsRow(m: Material, body: Body)
    requires forall k :: k in UPDATABLE ==> k !in body
    ensures ApplyUpdate(m, body) == Some(m)
  {
  }

  /** Applying the same update twice is the same as applying it once. */
  lemma UpdateIdempotent(m: Material, body: Body)
    requires ApplyUpdate(m, body).Some?
    ensures ApplyUpdate(ApplyUpdate(m, body).value, body) == ApplyUpdate(m, body)
  {
  }

  /** Alice registers, cannot register the same email again, and logs in. */
  method RegisterScenario(h: Hasher, now: int) returns (registered: Response, again: Response, login: Response)
    requires Sound(h)
    ensures registered == Response(201, Token(IssueToken(1, now)))
    ensures again == EMAIL_TAKEN
    ensures login == Response(200, Token(IssueToken(1, now)))
  {
    var store := new Store(h);
    var alice := Credentials("alice@x.com", "pw1");
    assert Field(alice, "email") == Text("alice@x.com") && Field(alice, "password") == Text("pw1");
    assert !EmailTaken([], Field(alice, "email"));
    registered := store.Register(alice, now);
    assert store.users == [User(1, "alice@x.com", h.hash("pw1"))];
    assert store.users[0].email == "alice@x.com";
    again := store.Register(alice, now);
    LoginAfterRegister(h, [], 1, "alice@x.com", "pw1", now);
    login := Login(h, store.users, alice, now);
  }

  /** User 1 adds a bolt and lists exactly that bolt. */
  method MaterialScenario(h: Hasher) returns (added: Response, listing: Response)
    ensures added == Response(201, Msg("Material added successfully"))
    ensures listing == Response(200, Items([MaterialView(1, "bolt", 10, Price(0.5), "pcs")]))
  {
    var store := new Store(h);
    var bolt := map["name" := Text("bolt"), "quantity" := Whole(10), "price" := Fraction(0.5), "unit" := Text("pcs")];
    assert Field(bolt, "name") == Text("bolt") && Field(bolt, "quantity") == Whole(10);
    assert Field(bolt, "price") == Fraction(0.5) && Field(bolt, "unit") == Text("pcs");
    added := store.AddMaterial(1, bolt);
    assert store.materials == [Material(1, "bolt", 10, "pcs", Price(0.5), 1)];
    ListingAfterAdd([], Material(1, "bolt", 10, "pcs", Price(0.5), 1));
    assert OwnedBy([], 1) == [];
    listing := GetMaterials(store.materials, 1);
  }
}
