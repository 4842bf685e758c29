/** The document-collection store (store.go), with the collection abstracted to a sequence of
    records in insertion order and the driver's queries to first-match searches over it. */
module Store {
  import opened Wrappers
  import opened Permissions

  /** A query: by surrogate ID, or by the natural 5-tuple (g, gid, a, r, rid). */
  datatype Selector = ById(id: ObjectId) | ByKey(key: Key)

  predicate Matches(p: Permission, sel: Selector) {
    match sel
    case ById(id) => p.id == id
    case ByKey(k) => KeyOf(p) == k
  }

  /** Get and Remove select by ID when the argument's ID is valid, and by the 5-tuple otherwise. */
  function SelectorOf(args: Permission): Selector {
    if args.id.Valid() then ById(args.id) else ByKey(KeyOf(args))
  }

  predicate HasMatch(coll: seq<Permission>, sel: Selector) {
    exists i :: 0 <= i < |coll| && Matches(coll[i], sel)
  }

  /** The natural keys present in a collection. */
  function Keys(coll: seq<Permission>): set<Key> {
    set p | p in coll :: KeyOf(p)
  }

  /** A key is present exactly when a query by that key has a match. */
  lemma KeysMatch(coll: seq<Permission>, k: Key)
    ensures k in Keys(coll) <==> HasMatch(coll, ByKey(k))
  {
    if k in Keys(coll) {
      var p :| p in coll && KeyOf(p) == k;
      var i :| 0 <= i < |coll| && coll[i] == p;
      assert Matches(coll[i], ByKey(k));
    }
  }

  lemma KeysAppend(coll: seq<Permission>, q: Permission)
    ensures Keys(coll + [q]) == Keys(coll) + {KeyOf(q)}
  {
    assert forall p :: p in coll + [q] <==> p in coll || p == q;
  }

  /** The position of the first record the selector matches, as a driver's `One` picks it. */
  function FindFirst(coll: seq<Permission>, sel: Selector): (r: Option<nat>)
    ensures r.Some? ==> r.value < |coll| && Matches(coll[r.value], sel)
    ensures r.Some? ==> forall j :: 0 <= j < r.value ==> !Matches(coll[j], sel)
    ensures r.None? <==> !HasMatch(coll, sel)
  {
    if |coll| == 0 then None
    else if Matches(coll[0], sel) then Some(0)
    else match FindFirst(coll[1..], sel)
      case None => None
      case Some(i) => Some(i + 1)
  }

  /** The collection together with the source of fresh IDs. */
  datatype State = State(coll: seq<Permission>, nextSerial: nat)

  /** The invariant the store keeps: every record has a valid ID below the next serial, no two
      records share an ID, and no two records share a natural key. */
  predicate WellFormed(s: State) {
    && (forall i :: 0 <= i < |s.coll| ==> s.coll[i].id.Oid? && s.coll[i].id.serial < s.nextSerial)
    && (forall i, j :: 0 <= i < j < |s.coll| ==> s.coll[i].id != s.coll[j].id)
    && UniqueKeys(s.coll)
  }

  predicate UniqueKeys(coll: seq<Permission>) {
    forall i, j :: 0 <= i < j < |coll| ==> KeyOf(coll[i]) != KeyOf(coll[j])
  }

  /** In a well-formed store a selector built from a valid ID or a natural key matches at most
      one record. */
  lemma AtMostOneMatch(s: State, sel: Selector, i: int, j: int)
    requires WellFormed(s)
    requires sel.ById? ==> sel.id.Valid()
    requires 0 <= i < |s.coll| && 0 <= j < |s.coll|
    requires Matches(s.coll[i], sel) && Matches(s.coll[j], sel)
    ensures i == j
  {
    if i < j || j < i {
      assert false;
    }
  }

  /** Get: the record the selector of `args` picks, or `NotFound`. */
  function Lookup(coll: seq<Permission>, args: Permission): (r: Reply)
    ensures r.perm.Some? <==> r.err.None?
    ensures r.err.Some? ==> r.err.value == NotFound
    ensures r.perm.Some? <==> HasMatch(coll, SelectorOf(args))
    ensures r.perm.Some? ==> r.perm.value in coll && Matches(r.perm.value, SelectorOf(args))
  {
    match FindFirst(coll, SelectorOf(args))
    case None => Reply(None, Some(NotFound))
    case Some(i) => Reply(Some(coll[i]), None)
  }

  /** A lookup by valid ID ignores the tuple fields of its argument. */
  lemma LookupByIdIgnoresTuple(coll: seq<Permission>, a: Permission, b: Permission)
    requires a.id.Valid() && a.id == b.id
    ensures Lookup(coll, a) == Lookup(coll, b)
  {
  }

  /** A lookup without a valid ID finds a record exactly when one carries all five fields. */
  lemma LookupByTuple(coll: seq<Permission>, args: Permission)
    requires !args.id.Valid()
    ensures Lookup(coll, args).perm.Some? <==>
            exists i :: 0 <= i < |coll| && KeyOf(coll[i]) == KeyOf(args)
  {
    if Lookup(coll, args).perm.Some? {
      var i :| 0 <= i < |coll| && Matches(coll[i], SelectorOf(args));
      assert KeyOf(coll[i]) == KeyOf(args);
    } else {
      forall i | 0 <= i < |coll| ensures KeyOf(coll[i]) != KeyOf(args) {
        assert !Matches(coll[i], ByKey(KeyOf(args)));
      }
    }
  }

  /** Upsert: select by the 5-tuple; replace a matching record (keeping its ID, which the
      database refuses to change) or insert `p`, with its own ID when valid (refused when that ID
      is taken) and with a fresh one otherwise. */
  function UpsertSpec(s: State, p: Permission): (r: (State, Option<StoreError>)) {
    match FindFirst(s.coll, ByKey(KeyOf(p)))
    case Some(i) =>
      if p.id.Valid() && p.id != s.coll[i].id then (s, Some(ImmutableId))
      else (s.(coll := s.coll[i := p.(id := s.coll[i].id)]), None)
    case None =>
      if !p.id.Valid() then
        (State(s.coll + [p.(id := Oid(s.nextSerial))], s.nextSerial + 1), None)
      else if HasMatch(s.coll, ById(p.id)) then
        (s, Some(DuplicateId))
      else
        (State(s.coll + [p], if p.id.serial < s.nextSerial then s.nextSerial else p.id.serial + 1), None)
  }

  /** Replacing a record by one with its key and its ID changes nothing. */
  lemma UpsertReplaceIsIdentity(s: State, p: Permission)
    requires FindFirst(s.coll, ByKey(KeyOf(p))).Some?
    requires !(p.id.Valid() && p.id != s.coll[FindFirst(s.coll, ByKey(KeyOf(p))).value].id)
    ensures UpsertSpec(s, p) == (s, None)
  {
    var i := FindFirst(s.coll, ByKey(KeyOf(p))).value;
    assert p.(id := s.coll[i].id) == s.coll[i];
    assert s.coll[i := s.coll[i]] == s.coll;
  }

  /** Upsert fails only on a valid ID of `p` (never with `NotFound`), and a failed upsert
      changes nothing. A record is added exactly when p's key was absent and the upsert
      succeeds, with p's ID if valid and a fresh valid ID otherwise; otherwise the state is
      unchanged. */
  lemma UpsertOutcome(s: State, p: Permission)
    ensures UpsertSpec(s, p).1.Some? ==> p.id.Valid() && UpsertSpec(s, p).1.value != NotFound
    ensures |UpsertSpec(s, p).0.coll| == |s.coll| ==> UpsertSpec(s, p).0 == s
    ensures UpsertSpec(s, p).1.None? && !HasMatch(s.coll, ByKey(KeyOf(p))) ==>
              |UpsertSpec(s, p).0.coll| == |s.coll| + 1
    ensures |UpsertSpec(s, p).0.coll| != |s.coll| ==>
              && UpsertSpec(s, p).1.None?
              && !HasMatch(s.coll, ByKey(KeyOf(p)))
              && exists q :: UpsertSpec(s, p).0.coll == s.coll + [q] && KeyOf(q) == KeyOf(p) &&
                             q.id.Valid() && (p.id.Valid() ==> q.id == p.id)
  {
    match FindFirst(s.coll, ByKey(KeyOf(p)))
    case Some(i) =>
      if !(p.id.Valid() && p.id != s.coll[i].id) {
        UpsertReplaceIsIdentity(s, p);
      }
    case None =>
      if !p.id.Valid() {
        var q := p.(id := Oid(s.nextSerial));
        assert UpsertSpec(s, p).0.coll == s.coll + [q];
      }
  }

  /** Upsert keeps the store well-formed. */
  lemma UpsertWellFormed(s: State, p: Permission)
    requires WellFormed(s)
    ensures WellFormed(UpsertSpec(s, p).0)
  {
    match FindFirst(s.coll, ByKey(KeyOf(p)))
    case Some(i) =>
      if !(p.id.Valid() && p.id != s.coll[i].id) {
        UpsertReplaceIsIdentity(s, p);
      }
    case None =>
      var r := UpsertSpec(s, p).0;
      if p.id.Valid() && !HasMatch(s.coll, ById(p.id)) {
        forall i | 0 <= i < |s.coll| ensures s.coll[i].id != p.id {
          assert !Matches(s.coll[i], ById(p.id));
        }
        assert r.coll == s.coll + [p];
      }
  }

  /** A successful upsert leaves p's key present and adds no other key. */
  lemma UpsertKeys(s: State, p: Permission)
    requires UpsertSpec(s, p).1.None?
    ensures Keys(UpsertSpec(s, p).0.coll) == Keys(s.coll) + {KeyOf(p)}
  {
    match FindFirst(s.coll, ByKey(KeyOf(p)))
    case Some(i) =>
      UpsertReplaceIsIdentity(s, p);
      KeysMatch(s.coll, KeyOf(p));
    case None =>
      UpsertOutcome(s, p);
      var q :| UpsertSpec(s, p).0.coll == s.coll + [q] && KeyOf(q) == KeyOf(p);
      KeysAppend(s.coll, q);
  }

  /** Upserting the same permission again changes nothing and reports the same outcome. */
  lemma {:induction false} UpsertIdempotent(s: State, p: Permission)
    ensures UpsertSpec(UpsertSpec(s, p).0, p) == UpsertSpec(s, p)
  {
    var (s1, e1) := UpsertSpec(s, p);
    UpsertOutcome(s, p);
    if |s1.coll| != |s.coll| {
      var n := |s.coll|;
      var q :| s1.coll == s.coll + [q] && KeyOf(q) == KeyOf(p) && q.id.Valid() &&
               (p.id.Valid() ==> q.id == p.id);
      assert FindFirst(s1.coll, ByKey(KeyOf(p))) == Some(n) by {
        assert Matches(s1.coll[n], ByKey(KeyOf(p)));
        forall j | 0 <= j < n ensures !Matches(s1.coll[j], ByKey(KeyOf(p))) {
          assert s1.coll[j] == s.coll[j];
        }
      }
      UpsertReplaceIsIdentity(s1, p);
    }
  }

  /** After a successful upsert into a well-formed store exactly one record has p's key. */
  lemma UpsertLeavesOneRecord(s: State, p: Permission)
    requires WellFormed(s)
    requires UpsertSpec(s, p).1.None?
    ensures exists i :: 0 <= i < |UpsertSpec(s, p).0.coll| && KeyOf(UpsertSpec(s, p).0.coll[i]) == KeyOf(p)
    ensures forall i, j :: 0 <= i < |UpsertSpec(s, p).0.coll| && 0 <= j < |UpsertSpec(s, p).0.coll| &&
              KeyOf(UpsertSpec(s, p).0.coll[i]) == KeyOf(p) && KeyOf(UpsertSpec(s, p).0.coll[j]) == KeyOf(p)
              ==> i == j
  {
    var s1 := UpsertSpec(s, p).0;
    UpsertWellFormed(s, p);
    UpsertKeys(s, p);
    KeysMatch(s1.coll, KeyOf(p));
    var i :| 0 <= i < |s1.coll| && Matches(s1.coll[i], ByKey(KeyOf(p)));
    forall i, j | 0 <= i < |s1.coll| && 0 <= j < |s1.coll| &&
              KeyOf(s1.coll[i]) == KeyOf(p) && KeyOf(s1.coll[j]) == KeyOf(p)
      ensures i == j
    {
      AtMostOneMatch(s1, ByKey(KeyOf(p)), i, j);
    }
  }

  /** Upsert changes no record already stored: each keeps its place and its contents. */
  lemma UpsertKeepsRecords(s: State, p: Permission)
    ensures |UpsertSpec(s, p).0.coll| >= |s.coll|
    ensures forall i :: 0 <= i < |s.coll| ==> UpsertSpec(s, p).0.coll[i] == s.coll[i]
  {
    UpsertOutcome(s, p);
    if |UpsertSpec(s, p).0.coll| != |s.coll| {
      var q :| UpsertSpec(s, p).0.coll == s.coll + [q];
    }
  }

  /** After a successful upsert, a lookup by p's tuple without an ID finds a record with p's key. */
  lemma UpsertThenLookup(s: State, p: Permission, args: Permission)
    requires UpsertSpec(s, p).1.None?
    requires !args.id.Valid() && KeyOf(args) == KeyOf(p)
    ensures Lookup(UpsertSpec(s, p).0.coll, args).perm.Some?
    ensures KeyOf(Lookup(UpsertSpec(s, p).0.coll, args).perm.value) == KeyOf(p)
  {
    UpsertKeys(s, p);
    KeysMatch(UpsertSpec(s, p).0.coll, KeyOf(p));
  }

  /** The collection with the record at position `i` deleted. */
  function Without(c: seq<Permission>, i: nat): seq<Permission>
    requires i < |c|
  {
    c[..i] + c[i + 1..]
  }

  /** Removing position `i` keeps every other record, in order, and adds none. */
  lemma RemovedAt(c: seq<Permission>, i: nat)
    requires i < |c|
    ensures |Without(c, i)| == |c| - 1
    ensures forall k :: 0 <= k < |c| - 1 ==> Without(c, i)[k] == c[if k < i then k else k + 1]
    ensures forall k :: 0 <= k < |c| && k != i ==> c[k] in Without(c, i)
    ensures forall k :: 0 <= k < |c| - 1 ==> Without(c, i)[k] in c
  {
    var d := Without(c, i);
    forall k | 0 <= k < |c| && k != i ensures c[k] in d {
      if k < i { assert d[k] == c[k]; } else { assert d[k - 1] == c[k]; }
    }
  }

  /** Removing the record at `i` from a collection with unique keys removes exactly its key. */
  lemma KeysWithout(coll: seq<Permission>, i: nat)
    requires UniqueKeys(coll) && i < |coll|
    ensures Keys(Without(coll, i)) == Keys(coll) - {KeyOf(coll[i])}
  {
    var c := Without(coll, i);
    RemovedAt(coll, i);
    forall k | k in Keys(coll) - {KeyOf(coll[i])} ensures k in Keys(c) {
      var p :| p in coll && KeyOf(p) == k;
      var j :| 0 <= j < |coll| && coll[j] == p;
      assert coll[j] in c;
    }
    forall k | k in Keys(c) ensures k in Keys(coll) - {KeyOf(coll[i])} {
      var p :| p in c && KeyOf(p) == k;
      var j :| 0 <= j < |c| && c[j] == p;
      var j' := if j < i then j else j + 1;
      assert c[j] == coll[j'];
      assert KeyOf(coll[j']) != KeyOf(coll[i]) by {
        if j' < i {} else {}
      }
    }
  }

  /** Removing one record from a well-formed store leaves it well-formed, and when that record
      was the one a selector picks, nothing the selector picks is left. */
  lemma RemovedAtWellFormed(s: State, sel: Selector, i: nat)
    requires WellFormed(s) && i < |s.coll|
    requires sel.ById? ==> sel.id.Valid()
    requires Matches(s.coll[i], sel)
    ensures WellFormed(State(Without(s.coll, i), s.nextSerial))
    ensures !HasMatch(Without(s.coll, i), sel)
  {
    var c := Without(s.coll, i);
    RemovedAt(s.coll, i);
    forall a, b | 0 <= a < b < |c| ensures c[a].id != c[b].id && KeyOf(c[a]) != KeyOf(c[b]) {
      assert c[a] == s.coll[if a < i then a else a + 1];
      assert c[b] == s.coll[if b < i then b else b + 1];
    }
    if HasMatch(c, sel) {
      var k :| 0 <= k < |c| && Matches(c[k], sel);
      var k' := if k < i then k else k + 1;
      assert c[k] == s.coll[k'];
      AtMostOneMatch(s, sel, i, k');
      assert false;
    }
  }

  /** Remove: delete the first record the selector of `p` picks, or report `NotFound` and change
      nothing. */
  function RemoveSpec(s: State, p: Permission): (r: (State, Option<StoreError>)) {
    match FindFirst(s.coll, SelectorOf(p))
    case None => (s, Some(NotFound))
    case Some(i) => (State(Without(s.coll, i), s.nextSerial), None)
  }

  /** Remove succeeds exactly when the selector of `p` picks a record; then that record goes and
      every record the selector does not pick stays. Otherwise it reports `NotFound` and
      changes nothing. No record is added either way. */
  lemma RemoveOutcome(s: State, p: Permission)
    ensures RemoveSpec(s, p).1.None? <==> HasMatch(s.coll, SelectorOf(p))
    ensures RemoveSpec(s, p).1.Some? ==> RemoveSpec(s, p) == (s, Some(NotFound))
    ensures RemoveSpec(s, p).1.None? ==> |RemoveSpec(s, p).0.coll| == |s.coll| - 1
    ensures RemoveSpec(s, p).0.nextSerial == s.nextSerial
    ensures forall k :: 0 <= k < |RemoveSpec(s, p).0.coll| ==> RemoveSpec(s, p).0.coll[k] in s.coll
    ensures forall k :: 0 <= k < |s.coll| && !Matches(s.coll[k], SelectorOf(p)) ==>
              s.coll[k] in RemoveSpec(s, p).0.coll
  {
    if HasMatch(s.coll, SelectorOf(p)) {
      RemovedAt(s.coll, FindFirst(s.coll, SelectorOf(p)).value);
    }
  }

  /** Remove keeps the store well-formed, and afterwards nothing its selector picks is left. */
  lemma RemoveWellFormed(s: State, p: Permission)
    requires WellFormed(s)
    ensures WellFormed(RemoveSpec(s, p).0)
    ensures !HasMatch(RemoveSpec(s, p).0.coll, SelectorOf(p))
  {
    if HasMatch(s.coll, SelectorOf(p)) {
      RemovedAtWellFormed(s, SelectorOf(p), FindFirst(s.coll, SelectorOf(p)).value);
    }
  }

  /** Removing by natural key from a well-formed store takes away exactly that key, whether or
      not it was present. */
  lemma RemoveKeys(s: State, p: Permission)
    requires WellFormed(s) && !p.id.Valid()
    ensures Keys(RemoveSpec(s, p).0.coll) == Keys(s.coll) - {KeyOf(p)}
  {
    KeysMatch(s.coll, KeyOf(p));
    if HasMatch(s.coll, SelectorOf(p)) {
      KeysWithout(s.coll, FindFirst(s.coll, SelectorOf(p)).value);
    }
  }

  /** After removing by natural key from a well-formed store, a lookup by that key finds nothing. */
  lemma RemoveThenLookup(s: State, p: Permission)
    requires WellFormed(s) && !p.id.Valid()
    ensures Lookup(RemoveSpec(s, p).0.coll, p) == Reply(None, Some(NotFound))
  {
    RemoveWellFormed(s, p);
  }

  /** The store over its in-memory collection. */
  class MongoStore {
    var coll: seq<Permission>
    var nextSerial: nat

    function Snapshot(): State
      reads this
    {
      State(coll, nextSerial)
    }

    ghost predicate Valid()
      reads this
    {
      WellFormed(Snapshot())
    }

    /** A store over an empty collection (the index provisioning is not modelled). */
    constructor ()
      ensures Valid() && coll == []
    {
      coll := [];
      nextSerial := 0;
    }

    method Get(args: Permission) returns (perm: Option<Permission>, err: Option<StoreError>)
      ensures Reply(perm, err) == Lookup(coll, args)
    {
      var found: Option<nat>;
      if args.id.Valid() {
        found := FindFirst(coll, ById(args.id));
      } else {
        found := FindFirst(coll, ByKey(KeyOf(args)));
      }
      if found.Some? {
        perm, err := Some(coll[found.value]), None;
      } else {
        perm, err := None, Some(NotFound);
      }
    }

    method Upsert(p: Permission) returns (err: Option<StoreError>)
      requires Valid()
      modifies this
      ensures Valid()
      ensures (Snapshot(), err) == UpsertSpec(old(Snapshot()), p)
    {
      UpsertWellFormed(Snapshot(), p);
      var found := FindFirst(coll, ByKey(KeyOf(p)));
      if found.Some? {
        var i := found.value;
        if p.id.Valid() && p.id != coll[i].id {
          err := Some(ImmutableId);
        } else {
          coll := coll[i := p.(id := coll[i].id)];
          err := None;
        }
      } else if !p.id.Valid() {
        coll := coll + [p.(id := Oid(nextSerial))];
        nextSerial := nextSerial + 1;
        err := None;
      } else if FindFirst(coll, ById(p.id)).Some? {
        err := Some(DuplicateId);
      } else {
        coll := coll + [p];
        if nextSerial <= p.id.serial {
          nextSerial := p.id.serial + 1;
        }
        err := None;
      }
    }

    method Remove(p: Permission) returns (err: Option<StoreError>)
      requires Valid()
      modifies this
      ensures Valid()
      ensures (Snapshot(), err) == RemoveSpec(old(Snapshot()), p)
    {
      RemoveWellFormed(Snapshot(), p);
      var found: Option<nat>;
      if p.id.Valid() {
        found := FindFirst(coll, ById(p.id));
      } else {
        found := FindFirst(coll, ByKey(KeyOf(p)));
      }
      if found.Some? {
        coll := Without(coll, found.value);
        err := None;
      } else {
        err := Some(NotFound);
      }
    }
  }
}
