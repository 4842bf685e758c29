/** The value types of the access-control list (acl.go): identities, permission records,
    natural keys, the errors the engine reports, and the resolution of actors and resources. */
module Permissions {
  import opened Wrappers

  /** The surrogate key of a stored record. A `bson.ObjectId` is a 12-byte string that is
      valid when it has exactly 12 bytes; here those bytes are abstracted to a serial number,
      and every empty or malformed ID is `Unset`. */
  datatype ObjectId = Unset | Oid(serial: nat) {
    predicate Valid() { Oid? }
  }

  /** An identity value returned by `ACLIdentity()`: a string, an integer or an object ID.
      Two identities match exactly when they are equal values of the same kind. */
  datatype Ident = Text(s: string) | Number(n: int) | ObjectRef(oid: ObjectId)

  /** The identity given to an actor or resource that supplies none. */
  const Wildcard: Ident := Text("*")

  /** A persisted or candidate permission; the field names follow the record's stored form
      (g, gid, a, r, rid). */
  datatype Permission = Permission(id: ObjectId, gType: string, gid: Ident, action: string,
                                   rType: string, rid: Ident)

  /** The natural key of a permission: everything but its surrogate ID. */
  datatype Key = Key(g: string, gid: Ident, a: string, r: string, rid: Ident)

  function KeyOf(p: Permission): Key {
    Key(p.gType, p.gid, p.action, p.rType, p.rid)
  }

  /** The errors a store reports. `NotFound` is the driver's not-found signal; the other two
      are the database refusing an upsert that would change a record's `_id` or reuse one. */
  datatype StoreError = NotFound | ImmutableId | DuplicateId

  /** What a store's `Get` hands back: Go's pair of a possibly-nil record and a possibly-nil error. */
  datatype Reply = Reply(perm: Option<Permission>, err: Option<StoreError>)

  /** The errors of the engine. `ResourceUnresolved` belongs to a check the code never reaches
      (see `PermissionFromInterface`). */
  datatype AclError = RolableUnresolved | ResourceUnresolved | StoreFailure(cause: StoreError)

  /** An actor or resource as the engine receives it: a bare string, or an object that may
      implement the `Type` capability (ACLType) and may implement the `Identity` capability
      (ACLIdentity), independently of each other. */
  datatype Rolable = Str(s: string) | Obj(aclType: Option<string>, identity: Option<Ident>)

  /** rolableFromInterface: the (type, identity) pair of an actor or resource. */
  function Resolve(v: Rolable): (r: (string, Ident))
    // a bare string is its own type, with the wildcard identity
    ensures v.Str? ==> r == (v.s, Wildcard)
    // an object's type comes from its Type capability, and is empty without one
    ensures v.Obj? ==> r.0 == v.aclType.GetOr("")
    // an object's identity comes from its Identity capability, and is the wildcard without one
    ensures v.Obj? ==> r.1 == v.identity.GetOr(Wildcard)
  {
    match v
    case Str(s) => (s, Wildcard)
    case Obj(t, i) => (t.GetOr(""), i.GetOr(Wildcard))
  }

  /** permissionFromInterface, as written: the actor's type is tested twice and the resource's
      type never, so an unresolvable resource yields a permission whose resource type is "". */
  function PermissionFromInterface(rolable: Rolable, action: string, resource: Rolable)
    : (r: Result<Permission, AclError>)
    ensures r.Failure? <==> Resolve(rolable).0 == ""
    ensures r.Failure? ==> r.error == RolableUnresolved
    ensures r.Success? ==> r.value.id == Unset
    ensures r.Success? ==> (r.value.gType, r.value.gid) == Resolve(rolable)
    ensures r.Success? ==> (r.value.rType, r.value.rid) == Resolve(resource)
    ensures r.Success? ==> r.value.action == action
  {
    var (ptype, pid) := Resolve(rolable);
    if ptype == "" then
      Failure(RolableUnresolved)
    else
      var (rtype, rid) := Resolve(resource);
      if ptype == "" then
        Failure(ResourceUnresolved)
      else
        Success(Permission(Unset, ptype, pid, action, rtype, rid))
  }

  /** The resource side is never rejected: a resource object without a Type capability is
      accepted for any resolvable actor and gives an empty resource type. */
  lemma UnresolvedResourceAccepted(rolable: Rolable, action: string, id: Option<Ident>)
    requires Resolve(rolable).0 != ""
    ensures PermissionFromInterface(rolable, action, Obj(None, id)).Success?
    ensures PermissionFromInterface(rolable, action, Obj(None, id)).value.rType == ""
    ensures PermissionFromInterface(rolable, action, Obj(None, id)).value.rid == id.GetOr(Wildcard)
  {
  }

  /** The resolved type is empty exactly for the empty string and for an object whose Type
      capability is missing or yields "". */
  lemma ResolveEmptyType(v: Rolable)
    ensures Resolve(v).0 == "" <==> v == Str("") || (v.Obj? && v.aclType in {None, Some("")})
  {
  }

  /** The two capabilities of an object are applied independently: the type does not depend on
      the identity capability, nor the identity on the type capability. */
  lemma CapabilitiesIndependent(t: Option<string>, u: Option<string>, i: Option<Ident>, j: Option<Ident>)
    ensures Resolve(Obj(t, i)).0 == Resolve(Obj(t, j)).0
    ensures Resolve(Obj(t, i)).1 == Resolve(Obj(u, i)).1
  {
  }
}
