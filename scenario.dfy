/** The grant/check/revoke scenario of acl_test.go (TestAllow), starting from a fresh store.
    The staff member's object ID is a parameter, standing for the ID the test generates. */
module Scenario {
  import opened Wrappers
  import opened Permissions
  import opened Store
  import opened Acl

  /** A staff member: type "staff", identified by its object ID. */
  function Staff(id: ObjectId): (r: Rolable)
    ensures Resolve(r) == ("staff", ObjectRef(id))
  {
    Obj(Some("staff"), Some(ObjectRef(id)))
  }

  /** An article: type "article", identified by its number printed in decimal. */
  function Article(digits: string): (r: Rolable)
    ensures Resolve(r) == ("article", Text(digits))
  {
    Obj(Some("article"), Some(Text(digits)))
  }

  /** One grant of the scenario, for an actor that resolves: it succeeds and adds its key. */
  method Grant(acl: Acl, rolable: Rolable, action: string, resource: Rolable, ghost keys: set<Key>)
    returns (err: Option<AclError>)
    requires acl.store.Valid() && Keys(acl.store.coll) == keys
    requires Resolve(rolable).0 != ""
    modifies acl.store
    ensures acl.store.Valid()
    ensures err == None
    ensures Keys(acl.store.coll) == keys + {KeyFor(rolable, action, resource)}
  {
    AllowOutcome(acl.store.Snapshot(), rolable, action, resource);
    err := acl.Allow(rolable, action, resource);
  }

  /** The five grants of the scenario: the staff member may view, create, update and delete
      the article, and a guest may view a document. */
  method GrantAll(acl: Acl, staff: Rolable, article: Rolable) returns (errors: seq<Option<AclError>>)
    requires acl.store.Valid() && acl.store.coll == []
    requires Resolve(staff).0 == "staff"
    modifies acl.store
    ensures acl.store.Valid()
    ensures errors == [None, None, None, None, None]
    ensures Keys(acl.store.coll) == {KeyFor(staff, "view", article), KeyFor(staff, "create", article),
                                     KeyFor(staff, "update", article), KeyFor(staff, "delete", article),
                                     KeyFor(Str("guest"), "view", Str("doc"))}
  {
    ghost var view, create := KeyFor(staff, "view", article), KeyFor(staff, "create", article);
    ghost var update, delete := KeyFor(staff, "update", article), KeyFor(staff, "delete", article);
    assert Keys(acl.store.coll) == {};
    var e1 := Grant(acl, staff, "view", article, {});
    var e2 := Grant(acl, staff, "create", article, {view});
    var e3 := Grant(acl, staff, "update", article, {view, create});
    var e4 := Grant(acl, staff, "delete", article, {view, create, update});
    var e5 := Grant(acl, Str("guest"), "view", Str("doc"), {view, create, update, delete});
    errors := [e1, e2, e3, e4, e5];
  }

  /** One check of the scenario, for an actor that resolves: it answers whether the key is held. */
  method Check(acl: Acl, rolable: Rolable, action: string, resource: Rolable, ghost keys: set<Key>)
    returns (can: bool, err: Option<AclError>)
    requires acl.store.Valid() && Keys(acl.store.coll) == keys
    requires Resolve(rolable).0 != ""
    ensures can == (KeyFor(rolable, action, resource) in keys)
    ensures err == None
  {
    CanMeansGranted(acl.store.Snapshot(), rolable, action, resource);
    can, err := acl.Can(rolable, action, resource);
  }

  /** One revocation of the scenario, of a key that is held: it succeeds and takes the key away. */
  method Revoke(acl: Acl, rolable: Rolable, action: string, resource: Rolable, ghost keys: set<Key>)
    returns (err: Option<AclError>)
    requires acl.store.Valid() && Keys(acl.store.coll) == keys
    requires Resolve(rolable).0 != "" && KeyFor(rolable, action, resource) in keys
    modifies acl.store
    ensures acl.store.Valid()
    ensures err == None
    ensures Keys(acl.store.coll) == keys - {KeyFor(rolable, action, resource)}
  {
    RemovePermissionOutcome(acl.store.Snapshot(), rolable, action, resource);
    err := acl.RemovePermission(rolable, action, resource);
  }

  /** Every call of the scenario succeeds, and the six checks give the answers the test expects. */
  method TestAllow(staffId: ObjectId) returns (verdicts: seq<bool>, errors: seq<Option<AclError>>)
    requires staffId.Valid()
    ensures verdicts == [true, true, false, false, true, false]
    ensures |errors| == 13 && forall e :: e in errors ==> e.None?
  {
    var store := new MongoStore();
    var acl := new Acl(store);
    var staff, article := Staff(staffId), Article("123");
    var guest, doc := Str("guest"), Str("doc");
    ghost var view, create := KeyFor(staff, "view", article), KeyFor(staff, "create", article);
    ghost var update, delete := KeyFor(staff, "update", article), KeyFor(staff, "delete", article);
    ghost var guestView := KeyFor(guest, "view", doc);
    ghost var keys := {view, create, update, delete, guestView};
    var grants := GrantAll(acl, staff, article);

    assert KeyFor(staff, "rm", article) !in keys;
    var c1, e1 := Check(acl, staff, "view", article, keys);
    var c2, e2 := Check(acl, staff, "delete", article, keys);
    var c3, e3 := Check(acl, staff, "rm", article, keys);

    var e4 := Revoke(acl, staff, "delete", article, keys);
    keys := keys - {delete};
    assert guestView in keys;

    var c5, e5 := Check(acl, staff, "delete", article, keys);
    var c6, e6 := Check(acl, guest, "view", doc, keys);

    var e7 := Revoke(acl, guest, "view", doc, keys);
    keys := keys - {guestView};
    var c8, e8 := Check(acl, guest, "view", doc, keys);

    verdicts := [c1, c2, c3, c5, c6, c8];
    errors := grants + [e1, e2, e3, e4, e5, e6, e7, e8];
  }
}
