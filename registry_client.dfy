/** The registry client (`RegistryClient`): semantic labels are mapped to UUIDs by
    get-or-create over the registry collection, with a label→(uuid, time) cache in front of
    forward lookups and a uuid→(label, time) cache in front of reverse lookups.

    The collection is a map from document key to document; the clock is an integer `now`
    passed to each call, and `uuid4()` is the parameter `minted`. A failure that the source
    reports with `sys.exit(1)` is `Exit(1)`. */
module Registry {
  import opened Wrappers
  import opened Strings
  import opened Uuids

  /** A registry document: its label, its UUID in text form and its creation time. */
  datatype RegistryDoc = RegistryDoc(name: string, uuid: string, createdAt: int)

  /** The registry collection, by document key (`_key`). */
  type Store = map<string, RegistryDoc>

  /** Some document labelled `name`, whose UUID text reads as `u`. */
  ghost predicate Maps(store: Store, name: string, u: Uuid) {
    exists k | k in store :: store[k].name == name && Parse(store[k].uuid) == Some(u)
  }

  /** Some document is labelled `name` (the label query finds a document). */
  ghost predicate HasName(store: Store, name: string) {
    exists k | k in store :: store[k].name == name
  }

  /** A cache entry for `key` younger than the time to live. */
  predicate Live<K, V>(cache: map<K, (V, int)>, key: K, now: int, ttl: int) {
    key in cache && now - cache[key].1 < ttl
  }

  /** No label is held by two documents: what get-or-create keeps true when it is the only
      writer. */
  ghost predicate LabelsUnique(store: Store) {
    forall k1, k2 | k1 in store && k2 in store && store[k1].name == store[k2].name :: k1 == k2
  }

  /** `after` keeps every document of `before` unchanged. */
  ghost predicate Extends(before: Store, after: Store) {
    forall k | k in before :: k in after && after[k] == before[k]
  }

  /** A forward lookup that reaches the collection fails: the document labelled `name` holds
      text that `UUID(...)` rejects, or, for a new label, the minted UUID's text is already a
      document key. */
  ghost predicate LookupFails(store: Store, name: string, minted: Uuid) {
    if HasName(store, name) then
      forall k | k in store && store[k].name == name :: Parse(store[k].uuid).None?
    else
      ToString(minted) in store
  }

  /** A label that already maps to a UUID is looked up without failing. */
  lemma MappedLookupSucceeds(store: Store, name: string, u: Uuid, minted: Uuid)
    requires LabelsUnique(store) && Maps(store, name, u)
    ensures !LookupFails(store, name, minted)
  {
    var k :| k in store && store[k].name == name && Parse(store[k].uuid) == Some(u);
    assert HasName(store, name);
  }

  /** A stored label's lookup fails exactly when its one document's UUID text does not parse. */
  lemma StoredLookup(store: Store, name: string, k: string, minted: Uuid)
    requires LabelsUnique(store) && k in store && store[k].name == name
    ensures LookupFails(store, name, minted) <==> Parse(store[k].uuid).None?
  {
    assert HasName(store, name);
  }

  /** A mapping found in a collection is still there once the collection has grown. */
  lemma MapsExtends(before: Store, after: Store, name: string, u: Uuid)
    requires Maps(before, name, u) && Extends(before, after)
    ensures Maps(after, name, u)
  {
    var k :| k in before && before[k].name == name && Parse(before[k].uuid) == Some(u);
    assert k in after && after[k] == before[k];
  }

  /** With unique labels, a label maps to one UUID only. */
  lemma MapsUnique(store: Store, name: string, u: Uuid, v: Uuid)
    requires LabelsUnique(store) && Maps(store, name, u) && Maps(store, name, v)
    ensures u == v
  {
    var k1 :| k1 in store && store[k1].name == name && Parse(store[k1].uuid) == Some(u);
    var k2 :| k2 in store && store[k2].name == name && Parse(store[k2].uuid) == Some(v);
    assert k1 == k2;
  }

  /** `register_model_schema`'s names: the annotation names not starting with "_", and the
      class name. */
  function SchemaNames(annotations: seq<string>, className: string): (names: set<string>)
    ensures className in names
    ensures forall n :: n in names <==> n == className || (n in annotations && !IsPrivate(n))
  {
    PublicNames(annotations) + {className}
  }

  function PublicNames(annotations: seq<string>): (names: set<string>)
    ensures forall n :: n in names <==> n in annotations && !IsPrivate(n)
  {
    set i | 0 <= i < |annotations| && !IsPrivate(annotations[i]) :: annotations[i]
  }

  class RegistryClient {
    var store: Store
    var labelCache: map<string, (Uuid, int)>
    var uuidCache: map<Uuid, (string, int)>
    const cacheTtl: int

    /** Labels are unique in the collection, and every cache entry agrees with it. */
    ghost predicate Valid()
      reads this
    {
      LabelsUnique(store) &&
      (forall n1 | n1 in labelCache :: Maps(store, n1, labelCache[n1].0)) &&
      (forall u | u in uuidCache :: Maps(store, uuidCache[u].0, u))
    }

    /** A client over an existing collection, with empty caches. */
    constructor (collection: Store, ttl: int)
      requires LabelsUnique(collection)
      ensures Valid()
      ensures store == collection && labelCache == map[] && uuidCache == map[] && cacheTtl == ttl
    {
      store := collection;
      labelCache := map[];
      uuidCache := map[];
      cacheTtl := ttl;
    }

    /** The part of `get_uuid_for_label` past the cache: the label query, then either the
        stored UUID text read back or a new document for the minted UUID. */
    method FetchOrCreate(name: string, now: int, minted: Uuid) returns (r: Result<Uuid, Failure>)
      requires Valid()
      modifies this`store
      ensures Valid() && Extends(old(store), store)
      ensures r.Ok? ==> Maps(store, name, r.value)
      ensures r.Err? ==> r.error == Exit(1) && store == old(store)
      ensures r.Err? <==> LookupFails(old(store), name, minted)
      ensures HasName(old(store), name) ==> store == old(store)
      ensures !HasName(old(store), name) ==>
        if ToString(minted) in old(store) then r == Err(Exit(1))
        else r == Ok(minted) && store == old(store)[ToString(minted) := RegistryDoc(name, ToString(minted), now)]
    {
      if k :| k in store && store[k].name == name {
        var parsed := Parse(store[k].uuid);
        StoredLookup(store, name, k, minted);
        if parsed.None? {
          return Err(Exit(1));
        }
        return Ok(parsed.value);
      }
      var key := ToString(minted);
      if key in store {
        return Err(Exit(1));
      }
      ParseToString(minted);
      store := store[key := RegistryDoc(name, key, now)];
      forall n1 | n1 in labelCache ensures Maps(store, n1, labelCache[n1].0) {
        MapsExtends(old(store), store, n1, labelCache[n1].0);
      }
      forall v | v in uuidCache ensures Maps(store, uuidCache[v].0, v) {
        MapsExtends(old(store), store, uuidCache[v].0, v);
      }
      assert store[key].name == name;
      return Ok(minted);
    }

    /** `get_uuid_for_label(name)` at time `now`; `minted` is what `uuid4()` would return. */
    method GetUuidForLabel(name: string, now: int, minted: Uuid) returns (r: Result<Uuid, Failure>)
      requires Valid()
      modifies this
      ensures Valid() && Extends(old(store), store)
      ensures r.Ok? ==> Maps(store, name, r.value)
      ensures r.Err? ==> (r.error == Exit(1) && store == old(store)
        && labelCache == old(labelCache) && uuidCache == old(uuidCache))
      // a cache entry younger than the time to live answers without touching anything
      ensures Live(old(labelCache), name, now, cacheTtl) ==>
        (r == Ok(old(labelCache)[name].0) && store == old(store)
        && labelCache == old(labelCache) && uuidCache == old(uuidCache))
      // a stored label is answered from the store, which is left as it was
      ensures HasName(old(store), name) ==> store == old(store)
      // past the cache, the lookup fails exactly when `LookupFails` says so
      ensures !Live(old(labelCache), name, now, cacheTtl) ==>
        (r.Err? <==> LookupFails(old(store), name, minted))
      // an unknown label gets the minted UUID and one new document keyed by its text
      ensures !Live(old(labelCache), name, now, cacheTtl) && !HasName(old(store), name) ==>
        if ToString(minted) in old(store) then r == Err(Exit(1))
        else r == Ok(minted) && store == old(store)[ToString(minted) := RegistryDoc(name, ToString(minted), now)]
      // after a lookup that was not answered by the cache, both caches hold the pair, stamped now
      ensures r.Ok? && !Live(old(labelCache), name, now, cacheTtl) ==>
        labelCache == old(labelCache)[name := (r.value, now)] &&
        uuidCache == old(uuidCache)[r.value := (name, now)]
    {
      if name in labelCache {
        var (cached, stamp) := labelCache[name];
        if now - stamp < cacheTtl {
          return Ok(cached);
        }
      }
      var found := FetchOrCreate(name, now, minted);
      if found.Err? {
        return Err(found.error);
      }
      var u := found.value;
      labelCache := labelCache[name := (u, now)];
      uuidCache := uuidCache[u := (name, now)];
      return Ok(u);
    }

    /** `get_label_for_uuid(u)` at time `now`: `KeyError` when no document carries the UUID's
        text. */
    method GetLabelForUuid(u: Uuid, now: int) returns (r: Result<string, Failure>)
      requires Valid()
      modifies this`labelCache, this`uuidCache
      ensures Valid()
      ensures r.Ok? ==> Maps(store, r.value, u)
      ensures Live(old(uuidCache), u, now, cacheTtl) ==>
        (r == Ok(old(uuidCache)[u].0) && labelCache == old(labelCache) && uuidCache == old(uuidCache))
      ensures !Live(old(uuidCache), u, now, cacheTtl) ==>
        if exists k | k in store :: store[k].uuid == ToString(u) then
          r.Ok? && (exists k | k in store :: store[k].uuid == ToString(u) && store[k].name == r.value) &&
          labelCache == old(labelCache)[r.value := (u, now)] && uuidCache == old(uuidCache)[u := (r.value, now)]
        else
          r == Err(Raised(KeyError)) && labelCache == old(labelCache) && uuidCache == old(uuidCache)
    {
      if u in uuidCache {
        var (cached, stamp) := uuidCache[u];
        if now - stamp < cacheTtl {
          return Ok(cached);
        }
      }
      if k :| k in store && store[k].uuid == ToString(u) {
        var name := store[k].name;
        ParseToString(u);
        labelCache := labelCache[name := (u, now)];
        uuidCache := uuidCache[u := (name, now)];
        return Ok(name);
      }
      return Err(Raised(KeyError));
    }

    /** `register_model_schema`: every public annotation name and the class name, each mapped
        to its forward lookup. The names are visited in no particular order; `minted(n)` is the
        UUID `uuid4()` would give if `n` has to be created. */
    method RegisterModelSchema(annotations: seq<string>, className: string, now: int, minted: string -> Uuid)
      returns (r: Result<map<string, Uuid>, Failure>)
      requires Valid()
      modifies this
      ensures Valid() && Extends(old(store), store)
      ensures r.Err? ==> r.error == Exit(1)
      ensures r.Ok? ==> r.value.Keys == SchemaNames(annotations, className)
      ensures r.Ok? ==> forall n | n in r.value :: Maps(store, n, r.value[n])
      // it fails only when the lookup of one of the names fails against the collection
      ensures r.Err? ==> exists n | n in SchemaNames(annotations, className) :: LookupFails(store, n, minted(n))
      // a schema whose names are all registered already is always registered successfully
      ensures (forall n | n in SchemaNames(annotations, className) :: exists u :: Maps(old(store), n, u)) ==> r.Ok?
    {
      var names: set<string> := {};
      for i := 0 to |annotations|
        invariant names == PublicNames(annotations[..i])
      {
        assert annotations[..i + 1] == annotations[..i] + [annotations[i]];
        if !IsPrivate(annotations[i]) {
          names := names + {annotations[i]};
        }
      }
      assert annotations[..|annotations|] == annotations;
      names := names + {className};
      var mapping: map<string, Uuid> := map[];
      var remaining := names;
      while remaining != {}
        invariant Valid() && Extends(old(store), store)
        invariant remaining <= names && mapping.Keys == names - remaining
        invariant forall n | n in mapping :: Maps(store, n, mapping[n])
        decreases remaining
      {
        var n :| n in remaining;
        ghost var before := store;
        var u := GetUuidForLabel(n, now, minted(n));
        if u.Err? {
          return Err(u.error);
        }
        forall m | m in mapping ensures Maps(store, m, mapping[m]) {
          MapsExtends(before, store, m, mapping[m]);
        }
        mapping := mapping[n := u.value];
        remaining := remaining - {n};
      }
      return Ok(mapping);
    }

    /** `clear_cache`: both caches emptied, the collection untouched. */
    method ClearCache()
      requires Valid()
      modifies this`labelCache, this`uuidCache
      ensures Valid() && labelCache == map[] && uuidCache == map[]
    {
      labelCache := map[];
      uuidCache := map[];
    }

    /** Two forward lookups of the same name, at any times and with any minted values, return
        the same UUID when both succeed. */
    method ForwardLookupIdempotent(name: string, now1: int, minted1: Uuid, now2: int, minted2: Uuid)
      returns (r1: Result<Uuid, Failure>, r2: Result<Uuid, Failure>)
      requires Valid()
      modifies this
      ensures Valid()
      ensures r1.Ok? && r2.Ok? ==> r1.value == r2.value
    {
      r1 := GetUuidForLabel(name, now1, minted1);
      ghost var middle := store;
      r2 := GetUuidForLabel(name, now2, minted2);
      if r1.Ok? && r2.Ok? {
        MapsExtends(middle, store, name, r1.value);
        MapsUnique(store, name, r1.value, r2.value);
      }
    }
  }
}
