/** The ArangoDB adapter (`ArangoDBClient`) against in-memory collections: the collection
    listing, the registry collection and the data collection are fields, each keyed by document
    `_key`. The AQL that `query` would send is built exactly; its execution is not modelled.
    `uuid4()` is the parameter `minted` and the clock the integer `now`. */
module ArangoDb {
  import opened Wrappers
  import opened Strings
  import opened Dicts
  import opened Values
  import opened Uuids

  /** A registry document: the label, when it was created and when it was last relabelled. */
  datatype RegistryEntry = RegistryEntry(name: string, createdAt: int, updatedAt: Option<int>)

  /** A data document: the text of its collection's UUID, its creation time and its payload. */
  datatype DataDoc = DataDoc(collectionUuid: string, createdAt: int, data: Record)

  /** `f"doc.data['{field_uuid}'] == @value{i}"` */
  function Condition(field: string, i: nat): string {
    "doc.data['" + field + "'] == @value" + NatToString(i)
  }

  /** One condition per filter entry, in the filter's order. */
  function Conditions(filter: Record): (cs: seq<string>)
    ensures |cs| == |filter| && forall i | 0 <= i < |filter| :: cs[i] == Condition(filter[i].0, i)
  {
    seq(|filter|, i requires 0 <= i < |filter| => Condition(filter[i].0, i))
  }

  /** The conditions joined by " AND ", or "true" for an empty filter. */
  function FilterClause(filter: Record): string {
    if |filter| == 0 then "true" else Join(" AND ", Conditions(filter))
  }

  /** The name of the bind variable of the `i`-th filter entry. */
  function ValueVar(i: nat): string {
    "value" + NatToString(i)
  }

  /** The bind variables `query` sends: the collection's UUID text, the limit, and one
      `value<i>` per filter entry. */
  function BindVars(collectionUuid: Uuid, filter: Record, limit: int): (vars: Dict<string, Value>)
    ensures |vars| == |filter| + 2
  {
    [("collection_uuid", Str(ToString(collectionUuid))), ("limit", Int(limit))] +
    seq(|filter|, i requires 0 <= i < |filter| => (ValueVar(i), filter[i].1))
  }

  /** The AQL text of `query`, layout included. */
  function QueryText(dataCollection: string, clause: string): string {
    "\n        FOR doc IN " + dataCollection +
    "\n        FILTER doc.collection_uuid == @collection_uuid\n        AND " + clause +
    "\n        LIMIT @limit\n        RETURN doc\n        "
  }

  lemma ValueVarInjective(i: nat, j: nat)
    requires ValueVar(i) == ValueVar(j)
    ensures i == j
  {
    assert NatToString(i) == ValueVar(i)[5..];
    assert NatToString(j) == ValueVar(j)[5..];
    NatToStringInjective(i, j);
  }

  /** No two bind variables share a name, and every `value<i>` is bound to the `i`-th filter
      value. */
  lemma BindVarsBindEachValue(collectionUuid: Uuid, filter: Record, limit: int, i: nat)
    requires i < |filter|
    ensures DistinctKeys(BindVars(collectionUuid, filter, limit))
    ensures Get(BindVars(collectionUuid, filter, limit), ValueVar(i)) == Some(filter[i].1)
    ensures Get(BindVars(collectionUuid, filter, limit), "collection_uuid") == Some(Str(ToString(collectionUuid)))
    ensures Get(BindVars(collectionUuid, filter, limit), "limit") == Some(Int(limit))
  {
    var vars := BindVars(collectionUuid, filter, limit);
    forall a, b | 0 <= a < b < |vars| ensures vars[a].0 != vars[b].0 {
      if a >= 2 {
        if vars[a].0 == vars[b].0 {
          ValueVarInjective(a - 2, b - 2);
        }
      } else {
        assert vars[b].0[0] != vars[a].0[0];
      }
    }
    GetAt(vars, i + 2);
  }

  class ArangoDbClient {
    const registryCollection: string
    const dataCollection: string
    /** The names the collection listing reports. */
    var collections: set<string>
    /** The registry collection, by `_key`. */
    var registry: map<string, RegistryEntry>
    /** The data collection, by `_key`. */
    var docs: map<string, DataDoc>

    /** Every registry key is the text of a UUID, as `store_mapping` writes them. */
    ghost predicate Valid()
      reads this
    {
      forall k | k in registry :: Parse(k).Some? && ToString(Parse(k).value) == k
    }

    /** `ArangoDBClient(registry_collection, data_collection)` over a database that lists
        `existing` and holds the given documents; the missing collections are created. */
    constructor (registryName: string, dataName: string, existing: set<string>,
                 registryDocs: map<string, RegistryEntry>, dataDocs: map<string, DataDoc>)
      ensures registryCollection == registryName && dataCollection == dataName
      ensures collections == existing + {registryName, dataName}
      ensures registry == registryDocs && docs == dataDocs
    {
      registryCollection := registryName;
      dataCollection := dataName;
      collections := existing;
      registry := registryDocs;
      docs := dataDocs;
      new;
      var _ := EnsureCollectionsExist();
    }

    /** `_ensure_collections_exist`: the listing is read once; each of the two collections
        missing from it is created, registry first. */
    method EnsureCollectionsExist() returns (created: seq<string>)
      modifies this`collections
      ensures created ==
        (if registryCollection in old(collections) then [] else [registryCollection]) +
        (if dataCollection in old(collections) then [] else [dataCollection])
      ensures collections == old(collections) + {registryCollection, dataCollection}
      ensures forall c | c in created :: c !in old(collections)
    {
      var existing := collections;
      created := [];
      if registryCollection !in existing {
        collections := collections + {registryCollection};
        created := created + [registryCollection];
      }
      if dataCollection !in existing {
        collections := collections + {dataCollection};
        created := created + [dataCollection];
      }
    }

    /** `get(collection_uuid, record_uuid)`: the payload of the document with that key in that
        collection, `ValueError` when there is none. */
    function Get(collectionUuid: Uuid, recordUuid: Uuid): (r: Result<Record, Failure>)
      reads this
      ensures r.Err? ==> r.error == Raised(ValueError)
      ensures r.Ok? <==> ToString(recordUuid) in docs && docs[ToString(recordUuid)].collectionUuid == ToString(collectionUuid)
    {
      var key := ToString(recordUuid);
      if key in docs && docs[key].collectionUuid == ToString(collectionUuid) then Ok(docs[key].data)
      else Err(Raised(ValueError))
    }

    /** `insert(collection_uuid, data)`: a new document keyed by the text of `minted`, which the
        call returns; `get` then finds the payload under it. */
    method Insert(collectionUuid: Uuid, data: Record, minted: Uuid, now: int) returns (docUuid: Uuid)
      requires ToString(minted) !in docs
      modifies this`docs
      ensures docUuid == minted
      ensures docs == old(docs)[ToString(minted) := DataDoc(ToString(collectionUuid), now, data)]
      ensures Get(collectionUuid, docUuid) == Ok(data)
    {
      docUuid := minted;
      docs := docs[ToString(docUuid) := DataDoc(ToString(collectionUuid), now, data)];
    }

    /** `query`'s AQL text and bind variables, built entry by entry. */
    method BuildQuery(collectionUuid: Uuid, filter: Record, limit: int) returns (query: string, bindVars: Dict<string, Value>)
      ensures query == QueryText(dataCollection, FilterClause(filter))
      ensures bindVars == BindVars(collectionUuid, filter, limit)
    {
      var conditions: seq<string> := [];
      bindVars := [("collection_uuid", Str(ToString(collectionUuid))), ("limit", Int(limit))];
      for i := 0 to |filter|
        invariant conditions == Conditions(filter[..i])
        invariant bindVars == BindVars(collectionUuid, filter[..i], limit)
      {
        var (field, value) := filter[i];
        conditions := conditions + ["doc.data['" + field + "'] == @value" + NatToString(i)];
        assert !HasKey(bindVars, ValueVar(i)) by {
          forall j | 0 <= j < |bindVars| ensures Keys(bindVars)[j] != ValueVar(i) {
            assert Keys(bindVars)[j] == bindVars[j].0;
            if j < 2 {
              assert bindVars[j].0[0] != ValueVar(i)[0];
            } else if Keys(bindVars)[j] == ValueVar(i) {
              ValueVarInjective(j - 2, i);
            }
          }
        }
        KeysPutAbsent(bindVars, ValueVar(i), value);
        bindVars := Put(bindVars, "value" + NatToString(i), value);
        assert filter[..i + 1][..i] == filter[..i];
      }
      assert filter[..|filter|] == filter;
      var clause := if |conditions| > 0 then Join(" AND ", conditions) else "true";
      query := QueryText(dataCollection, clause);
    }

    /** `store_mapping(label, uuid)`: an upsert on the key `str(uuid)`. An existing document
        gets the new label and an update time; otherwise a new document is inserted. */
    method StoreMapping(name: string, u: Uuid, now: int)
      modifies this`registry
      ensures ToString(u) in old(registry) ==>
        registry == old(registry)[ToString(u) := old(registry)[ToString(u)].(name := name, updatedAt := Some(now))]
      ensures ToString(u) !in old(registry) ==>
        registry == old(registry)[ToString(u) := RegistryEntry(name, now, None)]
      ensures GetLabelForUuid(u) == Ok(name)
      ensures old(Valid()) ==> Valid()
    {
      var key := ToString(u);
      if key in registry {
        registry := registry[key := registry[key].(name := name, updatedAt := Some(now))];
      } else {
        registry := registry[key := RegistryEntry(name, now, None)];
      }
      ParseToString(u);
    }

    /** `get_label_for_uuid(uuid)`: the stored label, `ValueError` for an unknown UUID. */
    function GetLabelForUuid(u: Uuid): (r: Result<string, Failure>)
      reads this
      ensures r.Err? <==> ToString(u) !in registry
      ensures r.Err? ==> r.error == Raised(ValueError)
      ensures r.Ok? ==> r.value == registry[ToString(u)].name
    {
      if ToString(u) in registry then Ok(registry[ToString(u)].name) else Err(Raised(ValueError))
    }

    /** `get_uuid_for_label(label)`: the key of a document with that label, read as a UUID,
        without writing; otherwise `minted`, stored under the label. */
    method GetUuidForLabel(name: string, minted: Uuid, now: int) returns (r: Result<Uuid, Failure>)
      modifies this`registry
      ensures (exists k | k in old(registry) :: old(registry)[k].name == name) ==>
        registry == old(registry) &&
        (r.Ok? ==> exists k | k in registry :: registry[k].name == name && Parse(k) == Some(r.value)) &&
        (r.Err? ==> r.error == Raised(ValueError))
      ensures (forall k | k in old(registry) :: old(registry)[k].name != name) ==>
        r == Ok(minted) &&
        (ToString(minted) in old(registry) ==>
          registry == old(registry)[ToString(minted) := old(registry)[ToString(minted)].(name := name, updatedAt := Some(now))]) &&
        (ToString(minted) !in old(registry) ==>
          registry == old(registry)[ToString(minted) := RegistryEntry(name, now, None)])
      ensures old(Valid()) ==> Valid() && r.Ok?
    {
      if k :| k in registry && registry[k].name == name {
        var parsed := Parse(k);
        if parsed.None? {
          return Err(Raised(ValueError));
        }
        return Ok(parsed.value);
      }
      StoreMapping(name, minted, now);
      return Ok(minted);
    }

    /** Over a registry this adapter wrote, the reverse lookup answers the label a forward
        lookup was given. */
    method ForwardThenReverse(name: string, minted: Uuid, now: int) returns (u: Result<Uuid, Failure>, back: Result<string, Failure>)
      requires Valid()
      modifies this`registry
      ensures Valid()
      ensures u.Ok? && back == GetLabelForUuid(u.value) && back == Ok(name)
    {
      ghost var before := registry;
      u := GetUuidForLabel(name, minted, now);
      back := GetLabelForUuid(u.value);
      if exists k | k in before :: before[k].name == name {
        var k :| k in registry && registry[k].name == name && Parse(k) == Some(u.value);
        assert ToString(u.value) == k;
      }
    }
  }
}
