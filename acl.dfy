/** The permission engine (acl.go): Allow, Can and RemovePermission build the key of the
    permission they are asked about and make one store call each. */
module Acl {
  import opened Wrappers
  import opened Permissions
  import opened Store

  /** A store error, surfaced verbatim as the engine's error. */
  function Lift(e: Option<StoreError>): Option<AclError> {
    match e
    case None => None
    case Some(cause) => Some(StoreFailure(cause))
  }

  /** The natural key of the permission that (rolable, action, resource) stands for. */
  function KeyFor(rolable: Rolable, action: string, resource: Rolable): (k: Key) {
    Key(Resolve(rolable).0, Resolve(rolable).1, action, Resolve(resource).0, Resolve(resource).1)
  }

  /** The permission the engine builds has that key and no ID. */
  lemma KeyForBuilt(rolable: Rolable, action: string, resource: Rolable)
    requires PermissionFromInterface(rolable, action, resource).Success?
    ensures KeyOf(PermissionFromInterface(rolable, action, resource).value) == KeyFor(rolable, action, resource)
    ensures !PermissionFromInterface(rolable, action, resource).value.id.Valid()
  {
  }

  /** The permission is granted in the store: the actor resolves, and a record carries its key. */
  predicate Granted(s: State, rolable: Rolable, action: string, resource: Rolable) {
    Resolve(rolable).0 != "" && KeyFor(rolable, action, resource) in Keys(s.coll)
  }

  /** Can's reading of the store's reply: not-found is a plain "no", a record is "yes", and
      anything else is the store's error with "no". */
  function Verdict(reply: Reply): (r: (bool, Option<AclError>))
    ensures reply.err == Some(NotFound) ==> r == (false, None)
    ensures reply.err != Some(NotFound) && reply.perm.Some? ==> r == (true, None)
    ensures reply.err != Some(NotFound) && reply.perm.None? ==> r == (false, Lift(reply.err))
    ensures r.0 ==> reply.perm.Some? && r.1.None?
  {
    if reply.err == Some(NotFound) then (false, None)
    else if reply.perm.Some? then (true, None)
    else (false, Lift(reply.err))
  }

  /** On the replies a store's lookup gives, Can says "yes" exactly when a record matches, and
      never reports an error. */
  lemma VerdictOfLookup(coll: seq<Permission>, args: Permission)
    ensures Verdict(Lookup(coll, args)) == (HasMatch(coll, SelectorOf(args)), None)
  {
  }

  /** Allow: resolve, then upsert the permission; on a resolution error the store is not called. */
  function AllowSpec(s: State, rolable: Rolable, action: string, resource: Rolable)
    : (r: (State, Option<AclError>))
  {
    match PermissionFromInterface(rolable, action, resource)
    case Failure(e) => (s, Some(e))
    case Success(perm) =>
      var (s', e) := UpsertSpec(s, perm);
      (s', Lift(e))
  }

  /** Can: resolve, then look the permission up by its natural key. */
  function CanSpec(s: State, rolable: Rolable, action: string, resource: Rolable)
    : (r: (bool, Option<AclError>))
  {
    match PermissionFromInterface(rolable, action, resource)
    case Failure(e) => (false, Some(e))
    case Success(perm) => Verdict(Lookup(s.coll, perm))
  }

  /** RemovePermission: resolve, then remove the permission by its natural key; the store's
      not-found error passes through unchanged. */
  function RemovePermissionSpec(s: State, rolable: Rolable, action: string, resource: Rolable)
    : (r: (State, Option<AclError>))
  {
    match PermissionFromInterface(rolable, action, resource)
    case Failure(e) => (s, Some(e))
    case Success(perm) =>
      var (s', e) := RemoveSpec(s, perm);
      (s', Lift(e))
  }

  /** Allow fails exactly when the actor does not resolve, and then changes nothing; otherwise
      it adds exactly the permission's key and keeps the store well-formed. */
  lemma AllowOutcome(s: State, rolable: Rolable, action: string, resource: Rolable)
    ensures AllowSpec(s, rolable, action, resource).1.None? <==> Resolve(rolable).0 != ""
    ensures Resolve(rolable).0 == "" ==> AllowSpec(s, rolable, action, resource) == (s, Some(RolableUnresolved))
    ensures Resolve(rolable).0 != "" ==>
              Keys(AllowSpec(s, rolable, action, resource).0.coll) == Keys(s.coll) + {KeyFor(rolable, action, resource)}
    ensures WellFormed(s) ==> WellFormed(AllowSpec(s, rolable, action, resource).0)
  {
    if Resolve(rolable).0 != "" {
      var perm := PermissionFromInterface(rolable, action, resource).value;
      KeyForBuilt(rolable, action, resource);
      UpsertOutcome(s, perm);
      UpsertKeys(s, perm);
      if WellFormed(s) {
        UpsertWellFormed(s, perm);
      }
    }
  }

  /** Can answers "yes" exactly when the permission is granted, and reports an error only when
      the actor does not resolve. */
  lemma CanMeansGranted(s: State, rolable: Rolable, action: string, resource: Rolable)
    ensures CanSpec(s, rolable, action, resource).0 <==> Granted(s, rolable, action, resource)
    ensures CanSpec(s, rolable, action, resource).1 ==
            if Resolve(rolable).0 == "" then Some(RolableUnresolved) else None
  {
    if Resolve(rolable).0 != "" {
      var perm := PermissionFromInterface(rolable, action, resource).value;
      KeyForBuilt(rolable, action, resource);
      VerdictOfLookup(s.coll, perm);
      KeysMatch(s.coll, KeyOf(perm));
    }
  }

  /** RemovePermission fails with the resolution error when the actor does not resolve, and
      changes nothing; otherwise it reports the store's `NotFound` exactly when the permission
      was not granted. On a well-formed store it takes away exactly the permission's key. */
  lemma RemovePermissionOutcome(s: State, rolable: Rolable, action: string, resource: Rolable)
    ensures Resolve(rolable).0 == "" ==>
              RemovePermissionSpec(s, rolable, action, resource) == (s, Some(RolableUnresolved))
    ensures Resolve(rolable).0 != "" ==>
              RemovePermissionSpec(s, rolable, action, resource).1 in {None, Some(StoreFailure(NotFound))}
    ensures Resolve(rolable).0 != "" ==>
              (RemovePermissionSpec(s, rolable, action, resource).1.Some?
               <==> !Granted(s, rolable, action, resource))
    ensures WellFormed(s) ==> WellFormed(RemovePermissionSpec(s, rolable, action, resource).0)
    ensures WellFormed(s) && Resolve(rolable).0 != "" ==>
              Keys(RemovePermissionSpec(s, rolable, action, resource).0.coll)
              == Keys(s.coll) - {KeyFor(rolable, action, resource)}
  {
    if Resolve(rolable).0 != "" {
      var perm := PermissionFromInterface(rolable, action, resource).value;
      KeyForBuilt(rolable, action, resource);
      RemoveOutcome(s, perm);
      KeysMatch(s.coll, KeyOf(perm));
      if WellFormed(s) {
        RemoveWellFormed(s, perm);
        RemoveKeys(s, perm);
      }
    }
  }

  /** For an actor that resolves, Allow and RemovePermission hand the store call's outcome back
      unchanged: the store's new state, no error exactly when the store reports none, and
      otherwise the store's own error. */
  lemma StoreErrorsPassThrough(s: State, rolable: Rolable, action: string, resource: Rolable)
    requires Resolve(rolable).0 != ""
    ensures var perm := PermissionFromInterface(rolable, action, resource).value;
            && AllowSpec(s, rolable, action, resource).0 == UpsertSpec(s, perm).0
            && (AllowSpec(s, rolable, action, resource).1.None? <==> UpsertSpec(s, perm).1.None?)
            && (UpsertSpec(s, perm).1.Some? ==>
                  AllowSpec(s, rolable, action, resource).1 == Some(StoreFailure(UpsertSpec(s, perm).1.value)))
    ensures var perm := PermissionFromInterface(rolable, action, resource).value;
            && RemovePermissionSpec(s, rolable, action, resource).0 == RemoveSpec(s, perm).0
            && (RemovePermissionSpec(s, rolable, action, resource).1.None? <==> RemoveSpec(s, perm).1.None?)
            && (RemoveSpec(s, perm).1.Some? ==>
                  RemovePermissionSpec(s, rolable, action, resource).1
                  == Some(StoreFailure(RemoveSpec(s, perm).1.value)))
  {
  }

  /** Granting twice leaves the store as granting once, with the same outcome. */
  lemma {:induction false} AllowIdempotent(s: State, rolable: Rolable, action: string, resource: Rolable)
    ensures AllowSpec(AllowSpec(s, rolable, action, resource).0, rolable, action, resource)
            == AllowSpec(s, rolable, action, resource)
  {
    if PermissionFromInterface(rolable, action, resource).Success? {
      UpsertIdempotent(s, PermissionFromInterface(rolable, action, resource).value);
    }
  }

  /** After a successful grant exactly one record of a well-formed store carries the key. */
  lemma AllowLeavesOneRecord(s: State, rolable: Rolable, action: string, resource: Rolable)
    requires WellFormed(s) && Resolve(rolable).0 != ""
    ensures var c := AllowSpec(s, rolable, action, resource).0.coll;
            exists i :: 0 <= i < |c| && KeyOf(c[i]) == KeyFor(rolable, action, resource)
    ensures var c := AllowSpec(s, rolable, action, resource).0.coll;
            forall i, j :: 0 <= i < |c| && 0 <= j < |c| &&
              KeyOf(c[i]) == KeyFor(rolable, action, resource) &&
              KeyOf(c[j]) == KeyFor(rolable, action, resource)
              ==> i == j
  {
    var perm := PermissionFromInterface(rolable, action, resource).value;
    KeyForBuilt(rolable, action, resource);
    UpsertOutcome(s, perm);
    UpsertLeavesOneRecord(s, perm);
  }

  /** After a grant, Can answers yes without error. */
  lemma AllowThenCan(s: State, rolable: Rolable, action: string, resource: Rolable)
    requires Resolve(rolable).0 != ""
    ensures CanSpec(AllowSpec(s, rolable, action, resource).0, rolable, action, resource) == (true, None)
  {
    AllowOutcome(s, rolable, action, resource);
    CanMeansGranted(AllowSpec(s, rolable, action, resource).0, rolable, action, resource);
  }

  /** After a removal from a well-formed store, Can answers no without error, whether or not
      the permission had been granted. */
  lemma RevocationComplete(s: State, rolable: Rolable, action: string, resource: Rolable)
    requires WellFormed(s) && Resolve(rolable).0 != ""
    ensures CanSpec(RemovePermissionSpec(s, rolable, action, resource).0, rolable, action, resource)
            == (false, None)
  {
    RemovePermissionOutcome(s, rolable, action, resource);
    CanMeansGranted(RemovePermissionSpec(s, rolable, action, resource).0, rolable, action, resource);
  }

  /** A grant changes no answer of Can about a permission with another key. */
  lemma AllowIsolated(s: State, rolable: Rolable, action: string, resource: Rolable,
                      rolable': Rolable, action': string, resource': Rolable)
    requires KeyFor(rolable, action, resource) != KeyFor(rolable', action', resource')
    ensures CanSpec(AllowSpec(s, rolable, action, resource).0, rolable', action', resource')
            == CanSpec(s, rolable', action', resource')
  {
    AllowOutcome(s, rolable, action, resource);
    CanMeansGranted(s, rolable', action', resource');
    CanMeansGranted(AllowSpec(s, rolable, action, resource).0, rolable', action', resource');
  }

  /** Granting one action on a resource says nothing about another action on it. */
  lemma ActionSpecificity(s: State, rolable: Rolable, action: string, other: string, resource: Rolable)
    requires action != other
    ensures CanSpec(AllowSpec(s, rolable, action, resource).0, rolable, other, resource)
            == CanSpec(s, rolable, other, resource)
  {
    AllowIsolated(s, rolable, action, resource, rolable, other, resource);
  }

  /** A removal from a well-formed store changes no answer of Can about a permission with
      another key. */
  lemma RemovePermissionIsolated(s: State, rolable: Rolable, action: string, resource: Rolable,
                                 rolable': Rolable, action': string, resource': Rolable)
    requires WellFormed(s)
    requires KeyFor(rolable, action, resource) != KeyFor(rolable', action', resource')
    ensures CanSpec(RemovePermissionSpec(s, rolable, action, resource).0, rolable', action', resource')
            == CanSpec(s, rolable', action', resource')
  {
    RemovePermissionOutcome(s, rolable, action, resource);
    CanMeansGranted(s, rolable', action', resource');
    CanMeansGranted(RemovePermissionSpec(s, rolable, action, resource).0, rolable', action', resource');
  }

  /** The access-control list over its store; the store is shared, not owned. */
  class Acl {
    var store: MongoStore

    /** New: an engine over the given store. */
    constructor (store: MongoStore)
      ensures this.store == store
    {
      this.store := store;
    }

    /** Allow: grant the permission; the store changes as AllowSpec says and stays well-formed. */
    method Allow(rolable: Rolable, action: string, resource: Rolable) returns (err: Option<AclError>)
      requires store.Valid()
      modifies store
      ensures store.Valid()
      ensures (store.Snapshot(), err) == AllowSpec(old(store.Snapshot()), rolable, action, resource)
    {
      var perm := PermissionFromInterface(rolable, action, resource);
      if perm.Failure? {
        return Some(perm.error);
      }
      var e := store.Upsert(perm.value);
      err := Lift(e);
    }

    /** RemovePermission: revoke the permission; the store changes as RemovePermissionSpec says. */
    method RemovePermission(rolable: Rolable, action: string, resource: Rolable) returns (err: Option<AclError>)
      requires store.Valid()
      modifies store
      ensures store.Valid()
      ensures (store.Snapshot(), err) == RemovePermissionSpec(old(store.Snapshot()), rolable, action, resource)
    {
      var perm := PermissionFromInterface(rolable, action, resource);
      if perm.Failure? {
        return Some(perm.error);
      }
      var e := store.Remove(perm.value);
      err := Lift(e);
    }

    /** Can: ask whether the permission is granted, reading the store's reply as Verdict does. */
    method Can(rolable: Rolable, action: string, resource: Rolable) returns (can: bool, err: Option<AclError>)
      ensures (can, err) == CanSpec(store.Snapshot(), rolable, action, resource)
    {
      var permission := PermissionFromInterface(rolable, action, resource);
      if permission.Failure? {
        return false, Some(permission.error);
      }
      var perm, e := store.Get(permission.value);
      if e == Some(NotFound) {
        return false, None;
      }
      if perm.Some? {
        return true, None;
      }
      return false, Lift(e);
    }
  }
}
