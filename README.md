# go-acl in Dafny

A model of go-acl, a small access-control list written in Go. The list stores permissions in a
document collection (MongoDB through the mgo driver).

A permission says that an actor may perform an action on a resource. It is stored as one
record with these fields:

- `g` and `gid`: the actor's type and identity;
- `a`: the action;
- `r` and `rid`: the resource's type and identity;
- `_id`: a surrogate object ID.

Actors and resources are resolved to a `(type, identity)` pair:

- a bare string stands for itself, with the wildcard identity `"*"`;
- an object supplies its type through the `Type` capability and its identity through the
  `Identity` capability, and the two capabilities are independent.

The engine's three operations each build the permission's natural key and make exactly one
store call:

- `Allow` upserts the permission by its natural key.
- `Can` looks it up. "Not found" is read as a plain "no".
- `RemovePermission` removes it.

The project has five files:

- `wrappers.dfy`: `Option` and `Result`.
- `permission.dfy` (module `Permissions`):
  - the value types: object IDs, identities, permissions, natural keys, errors;
  - the closed `Rolable` datatype, which stands for Go's run-time probing of `interface{}`
    values;
  - `Resolve` (rolableFromInterface) and `PermissionFromInterface`.
- `store.dfy` (module `Store`):
  - the collection as a sequence of records in insertion order;
  - the pure specification of `Get`, `Upsert` and `Remove` over a `State`;
  - the store invariant `WellFormed`;
  - the class `MongoStore`, whose methods update its `coll` and `nextSerial` fields and are
    proved equal to the specification functions.
- `acl.dfy` (module `Acl`):
  - the specification functions `AllowSpec`, `CanSpec` and `RemovePermissionSpec`;
  - the lemmas about them;
  - the class `Acl`, whose methods call the store object.
- `scenario.dfy` (module `Scenario`): the `TestAllow` scenario of acl_test.go, written as a
  client of the two classes.

## Modelling decisions

- **The unresolved-resource quirk is kept.** permissionFromInterface tests the actor's
  resolved type twice (acl.go:97 and acl.go:102) and never tests the resource's. So a
  resource that resolves to the empty type is accepted, giving a permission whose `r` field
  is `""`. Its stated intent is to reject such a resource. The model keeps the code's
  behaviour:
  - `PermissionFromInterface` fails exactly when the actor does not resolve;
  - `UnresolvedResourceAccepted` states the consequence;
  - the `ResourceUnresolved` error exists but is never produced.
- **Object IDs.** A `bson.ObjectId` is abstracted to `Unset | Oid(serial)`. `Valid()` holds
  for `Oid`. A record inserted without a valid ID gets a fresh one from the store's
  `nextSerial` counter. This stands for the database assigning a new object ID.
- **Upsert.** Upsert follows the database's replace-upsert by the 5-tuple:
  - When a record matches, it is replaced by `p` with the record's `_id` kept. The permission
    has `omitempty` on its ID, so an unset ID is not sent. If `p` carries a valid ID that
    differs from the record's, the database refuses to change `_id` (`ImmutableId`).
  - When no record matches, `p` is inserted with its own valid ID. If that ID is already
    used, the result is `DuplicateId`. Without a valid ID, `p` gets a fresh one.
- **Get and Remove on no match.** Both report `NotFound`, the driver's `ErrNotFound`. Both
  pick the first matching record in collection order. RemovePermission passes the store's
  error through unchanged.
- **The `Store` interface.** It is bound to the one `MongoStore` model here, so `Acl.store`
  has type `MongoStore`.
- **The store invariant.** `MongoStore.Valid()` requires that every record has a valid ID
  below `nextSerial`, that no two records share an ID, and that no two share a natural key.
  The constructor establishes it and every mutating method keeps it. The engine's mutating
  methods require it of the store they are given.
- **Can on other store errors.** `Verdict`, Can's reading of the store's reply, covers every
  (record, error) pair a store could return:
  - not found gives "no" without error;
  - a record gives "yes";
  - otherwise the store's error is returned with "no".
  The in-memory store itself only ever replies with a record or `NotFound`.

## Model

| member | source | states |
|---|---|---|
| Permissions.Resolve | acl.go:81-93 | A bare string resolves to itself with the wildcard identity. An object's type is its Type capability's value, or "" without one. Its identity is its Identity capability's value, or the wildcard without one. |
| Permissions.CapabilitiesIndependent | acl.go:86-91 | The resolved type does not depend on the Identity capability, and the resolved identity does not depend on the Type capability. |
| Permissions.ResolveEmptyType | acl.go:81-93 | The resolved type is empty exactly for the empty string and for an object whose Type capability is missing or yields "". |
| Permissions.PermissionFromInterface | acl.go:95-113 | It fails, with the actor error, exactly when the actor's type is "". On success the permission has no ID, the actor's pair as (g, gid), the resource's pair as (r, rid), and the given action. |
| Permissions.UnresolvedResourceAccepted | acl.go:101-104 | A resource without a Type capability is accepted for any resolvable actor, and yields resource type "" with its own identity or the wildcard. |
| Store.FindFirst | store.go:39-48 | The driver's `One`: the index of the first record the selector matches, with no match before it. It is absent exactly when no record matches. |
| Store.Lookup | store.go:37-50 | Get yields a record exactly when it yields no error. Its only error is NotFound. A record is returned exactly when one matches the selector, and that record is in the collection and matches. |
| Store.LookupByIdIgnoresTuple | store.go:38-41 | With a valid ID, Get depends only on the ID, not on the tuple fields. |
| Store.LookupByTuple | store.go:42-49 | Without a valid ID, Get finds a record exactly when some record has all five fields equal to the argument's. |
| Store.AtMostOneMatch | store.go:37-76 | In a well-formed store a valid ID or a natural key matches at most one record. |
| Store.UpsertOutcome | store.go:53-62 | Upsert fails only when p carries a valid ID, and never with NotFound. An upsert that adds no record leaves the state unchanged. A record is added exactly when p's key was absent and the upsert succeeds; it has p's key and a valid ID, p's own ID when valid. |
| Store.UpsertReplaceIsIdentity | store.go:54-60 | Replacing the matching record by p with the record's ID kept changes nothing. |
| Store.UpsertWellFormed | store.go:53-62 | Upsert keeps the store invariant: valid IDs below the counter, unique IDs, unique natural keys. |
| Store.UpsertKeys | store.go:53-62 | A successful upsert makes the set of natural keys the old set plus p's key. |
| Store.UpsertIdempotent | store.go:53-62 | Upserting the same permission twice gives the same state and result as upserting it once. |
| Store.UpsertLeavesOneRecord | store.go:53-62 | After a successful upsert into a well-formed store, exactly one record has p's natural key. |
| Store.UpsertKeepsRecords | store.go:54-60 | Upsert changes no stored record: every old record keeps its position and contents. |
| Store.UpsertThenLookup | store.go:42-60 | After a successful upsert, a Get by p's tuple without an ID finds a record with p's key. |
| Store.RemovedAt | store.go:65-76 | Deleting the record at a position keeps every other record, in order, and adds none. |
| Store.KeysWithout | store.go:69-75 | With unique keys, deleting a record removes exactly its key from the set of keys. |
| Store.RemovedAtWellFormed | store.go:65-76 | Deleting the record a valid ID or natural key selects from a well-formed store keeps it well-formed and leaves no record matching that selector. |
| Store.RemoveOutcome | store.go:65-76 | Remove succeeds exactly when a record matches (by ID when valid, else by the tuple). A failure is NotFound and changes nothing. A success removes exactly one record and keeps the counter. No record is added, and every record the selector does not match is kept. |
| Store.RemoveWellFormed | store.go:65-76 | Remove keeps the store invariant, and afterwards nothing matches the selector. |
| Store.RemoveKeys | store.go:69-75 | Removing by natural key from a well-formed store leaves the key set minus that key, whether or not it was present. |
| Store.RemoveThenLookup | store.go:37-50 | After removing by natural key from a well-formed store, a Get by that tuple replies NotFound with no record. |
| Store.MongoStore.constructor | store.go:14-34 | A new store is empty and satisfies the store invariant. |
| Store.MongoStore.Get | store.go:37-50 | Get's reply is Lookup over the current collection. Selection is by ID when the argument's ID is valid, else by the 5-tuple. |
| Store.MongoStore.Upsert | store.go:53-62 | The new collection, counter and error are those of UpsertSpec on the old state, and the invariant is kept. |
| Store.MongoStore.Remove | store.go:65-76 | The new collection, counter and error are those of RemoveSpec on the old state, and the invariant is kept. |
| Acl.StoreErrorsPassThrough | acl.go:48-63 | For an actor that resolves, Allow and RemovePermission leave the store as the store call does, report no error exactly when the store reports none, and otherwise report the store's own error. |
| Acl.KeyForBuilt | acl.go:106-112 | The permission the engine builds has the natural key of the actor's pair, the action and the resource's pair, and no valid ID. |
| Acl.Verdict | acl.go:71-78 | Can reads NotFound as (false, no error) and a record as (true, no error). Any other reply gives false with the store's error. "Yes" only comes with a record and no error. |
| Acl.VerdictOfLookup | acl.go:71-78 | On the store's Get replies, Can's verdict is "a record matches", with no error. |
| Acl.AllowOutcome | acl.go:48-54 | Allow fails exactly when the actor does not resolve. It then returns the actor error and leaves the store untouched. Otherwise it adds exactly the permission's key to the key set. It keeps the store invariant. |
| Acl.CanMeansGranted | acl.go:66-79 | Can answers yes exactly when the actor resolves and the permission's key is stored. It reports an error exactly when the actor does not resolve. |
| Acl.RemovePermissionOutcome | acl.go:57-63 | An unresolved actor gives the actor error and no store change. Otherwise the only error is the store's NotFound, reported exactly when the permission is not granted. The invariant is kept, and on a well-formed store exactly the permission's key is removed. |
| Acl.AllowIdempotent | acl.go:48-54 | Granting twice gives the state and result of granting once. |
| Acl.AllowLeavesOneRecord | acl.go:48-54 | After a grant into a well-formed store, exactly one record carries the permission's key. |
| Acl.AllowThenCan | acl.go:48-79 | After a grant by a resolvable actor, Can answers (true, no error). |
| Acl.RevocationComplete | acl.go:57-79 | After a removal from a well-formed store, Can answers (false, no error), whether or not the permission was granted. |
| Acl.AllowIsolated | acl.go:48-79 | A grant leaves Can's answer unchanged for every permission with a different key. |
| Acl.ActionSpecificity | acl.go:48-79 | Granting one action on a resource leaves Can's answer for any other action unchanged. |
| Acl.RemovePermissionIsolated | acl.go:57-79 | A removal from a well-formed store leaves Can's answer unchanged for every permission with a different key. |
| Acl.Acl.constructor | acl.go:42-45 | The engine is built over the given store. |
| Acl.Acl.Allow | acl.go:48-54 | The store's new state and the error are those of AllowSpec on the old state, and the store invariant is kept. |
| Acl.Acl.RemovePermission | acl.go:57-63 | The store's new state and the error are those of RemovePermissionSpec on the old state, and the store invariant is kept. |
| Acl.Acl.Can | acl.go:66-79 | The answer and error are CanSpec on the current store, following the code's order: resolution error, then NotFound, then a record, then the store error. |
| Scenario.Staff | acl_test.go:12-25 | A staff member resolves to type "staff" with its object ID as identity. |
| Scenario.Article | acl_test.go:27-39 | An article resolves to type "article" with the given decimal text as identity; the formatting of the article's number into that text is not modelled. |
| Scenario.GrantAll | acl_test.go:60-74 | The five grants all succeed and leave exactly the five granted keys in the store. |
| Scenario.TestAllow | acl_test.go:41-108 | On a fresh store, for any valid staff object ID (the test generates one), all thirteen calls succeed. The six checks answer: view and delete yes, rm no; after revoking delete, delete no; guest viewing doc yes, then no after its revocation. |

## Left out

- NewMongoStore's index provisioning (store.go:16-32), with its `DropDups` and `Background` flags: indexes change neither results nor order here. The constructor models a store over an empty collection.
- Connecting to the database (`mgo.Dial`), sessions, and clearing the test collection (acl_test.go:44-53): this is I/O. The scenario starts from a new empty store instead.
- Driver and database failures (connection loss, timeouts): they come from the network. Can's treatment of an arbitrary store error is covered by `Acl.Verdict`, but the in-memory store never produces one.
- Generating and encoding `bson.ObjectId` values: IDs are abstract serials. The staff member's generated ID is a parameter of `Scenario.TestAllow`.
- `fmt.Errorf` message texts (acl.go:98, acl.go:103): only which error is returned is modelled.
- BSON encoding of identities: an identity is a string, an integer or an object ID, and two identities match only when they are the same kind and the same value. All integer widths share the one `Number` kind, so equality across them is kept; numeric equality between integers and floating-point values, and identities of any other Go type, are not modelled.
- Permissions.Ident: an identity `ObjectRef(Unset)` (an empty or malformed object ID) is accepted like any other, whereas the driver refuses to encode such a value in a stored record; the driver's encoder is not part of this model.
- Go's `interface{}` run-time type tests: they are replaced by the closed `Rolable` datatype. A value that implements neither capability is `Obj(None, None)`.
- The `Store` interface as an abstraction: the engine is tied to the `MongoStore` model, so other store implementations are not covered.
- Concurrency and the database's last-writer-wins behaviour: the model runs one call at a time.
