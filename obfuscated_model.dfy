/** The key mapping of `ObfuscatedModel`: a record with semantic field names is turned into
    one keyed by the text of each name's UUID (`_map_to_uuids`, `create_from_semantic`), and
    back (`_map_to_semantic`, `model_dump`).

    The registry enters as two lookup functions, `forward` (label to UUID) and `reverse` (UUID
    to label): a forward lookup answers the same for a label on every call, which is what
    `Registry.RegistryClient.ForwardLookupIdempotent` shows of the client. The field encryptor
    enters as its two operations, and the mode and encryption flags, which the source reads
    from the configuration, as parameters. */
module Obfuscation {
  import opened Wrappers
  import opened Strings
  import opened Dicts
  import opened Values
  import opened Uuids

  /** `ObfuscationLevel` */
  datatype ObfuscationLevel = UuidOnly | Encrypted | Unobfuscated {
    /** The enum member's `.value`. */
    function Text(): (s: string)
      ensures s == "encrypted" <==> this == Encrypted
    {
      match this
      case UuidOnly => "uuid_only"
      case Encrypted => "encrypted"
      case Unobfuscated => "none"
    }
  }

  /** An entry of a model class's `__dict__`: an `ObfuscatedField` descriptor with its level,
      or any other attribute. */
  datatype ClassAttr = Descriptor(level: ObfuscationLevel) | Attribute

  /** The level a class attribute declares, if it is a descriptor. */
  function DeclaredLevel(a: Option<ClassAttr>): Option<ObfuscationLevel> {
    if a.Some? && a.value.Descriptor? then Some(a.value.level) else None
  }

  /** The descriptors of a class, in declaration order. */
  function Descriptors(attrs: Dict<string, ClassAttr>): (fields: Dict<string, ObfuscationLevel>)
    ensures forall k :: HasKey(fields, k) ==> HasKey(attrs, k)
    decreases |attrs|
  {
    if |attrs| == 0 then []
    else
      var prior := attrs[..|attrs| - 1];
      var last := attrs[|attrs| - 1];
      assert forall k :: HasKey(prior, k) ==> HasKey(attrs, k) by {
        assert forall j | 0 <= j < |prior| :: Keys(prior)[j] == Keys(attrs)[j];
      }
      assert HasKey(attrs, last.0) by {
        assert Keys(attrs)[|attrs| - 1] == last.0;
      }
      if last.1.Descriptor? then Descriptors(prior) + [(last.0, last.1.level)] else Descriptors(prior)
  }

  /** Every descriptor of the class is collected with its level, and nothing else. */
  lemma {:induction false} DescriptorsGet(attrs: Dict<string, ClassAttr>, k: string)
    requires DistinctKeys(attrs)
    ensures Get(Descriptors(attrs), k) == DeclaredLevel(Get(attrs, k))
    decreases |attrs|
  {
    if |attrs| > 0 {
      var prior := attrs[..|attrs| - 1];
      var last := attrs[|attrs| - 1];
      assert attrs == prior + [last];
      DescriptorsGet(prior, k);
      GetAppend(prior, last, k);
      if last.1.Descriptor? {
        GetAppend(Descriptors(prior), (last.0, last.1.level), k);
      }
    }
  }

  /** `_collect_obfuscated_fields`: the descriptors found among the class attributes. */
  method CollectObfuscatedFields(attrs: Dict<string, ClassAttr>) returns (fields: Dict<string, ObfuscationLevel>)
    requires DistinctKeys(attrs)
    ensures fields == Descriptors(attrs)
  {
    fields := [];
    for i := 0 to |attrs|
      invariant fields == Descriptors(attrs[..i])
    {
      var (name, attr) := attrs[i];
      assert attrs[..i + 1][..i] == attrs[..i];
      if attr.Descriptor? {
        assert !HasKey(attrs[..i], name) by {
          assert forall j | 0 <= j < i :: Keys(attrs[..i])[j] == attrs[j].0 != name;
        }
        KeysPutAbsent(fields, name, attr.level);
        fields := Put(fields, name, attr.level);
      }
    }
    assert attrs[..|attrs|] == attrs;
  }

  /** The field encryptor's `encrypt_field(value, uuid)` and `decrypt_field(value, uuid)`. */
  datatype Encryptor = Encryptor(
    encrypt: (Value, Uuid) -> Result<Value, Failure>,
    decrypt: (Value, Uuid) -> Result<Value, Failure>)

  /** `FieldEncryptor()` is built before the loop when encryption is enabled; a failure to
      build it ends the call. */
  function EncryptorFor(encryptionEnabled: bool, built: Result<Encryptor, Failure>): (r: Result<Option<Encryptor>, Failure>)
    ensures r.Ok? && r.value.Some? <==> encryptionEnabled && built.Ok?
    ensures r.Err? <==> encryptionEnabled && built.Err?
  {
    if !encryptionEnabled then Ok(None)
    else if built.Err? then Err(built.error)
    else Ok(Some(built.value))
  }

  type Item = (string, Value)

  /** `should_encrypt` for a field: declared with a level whose value reads "encrypted". */
  predicate MarkedEncrypted(fields: Dict<string, ObfuscationLevel>, key: string) {
    HasKey(fields, key) && Get(fields, key).value.Text() == "encrypted"
  }

  /** What an `except Exception:` clause around a lookup does: keep the semantic key in dev
      mode, re-raise otherwise. A `SystemExit` is never caught. */
  function Fallback(key: string, value: Value, f: Failure, devMode: bool): (r: Result<Item, Failure>)
    ensures r.Ok? <==> devMode && IsException(f)
  {
    if devMode && IsException(f) then Ok((key, value)) else Err(f)
  }

  /** One item of `_map_to_uuids` (and, without an encryptor, of `create_from_semantic`). */
  function ToUuidKey(key: string, value: Value, fields: Dict<string, ObfuscationLevel>,
                     forward: string -> Result<Uuid, Failure>, devMode: bool, encryptor: Option<Encryptor>): Result<Item, Failure>
  {
    if IsPrivate(key) then Ok((key, value))
    else
      match forward(key)
      case Err(f) => Fallback(key, value, f, devMode)
      case Ok(u) =>
        if encryptor.Some? && MarkedEncrypted(fields, key) then
          match encryptor.value.encrypt(value, u)
          case Ok(sealed) => Ok((ToString(u), sealed))
          case Err(f) => Fallback(key, value, f, devMode)
        else
          Ok((ToString(u), value))
  }

  function UuidStep(fields: Dict<string, ObfuscationLevel>, forward: string -> Result<Uuid, Failure>,
                    devMode: bool, encryptor: Option<Encryptor>): Item -> Result<Item, Failure>
  {
    (item: Item) => ToUuidKey(item.0, item.1, fields, forward, devMode, encryptor)
  }

  /** `value` has the shape of an encrypted field: a dictionary with "value" and "metadata". */
  predicate LooksEncrypted(value: Value) {
    value.Obj? && HasKey(value.fields, "value") && HasKey(value.fields, "metadata")
  }

  /** One item of `_map_to_semantic` in dev mode. */
  function ToSemanticKey(key: string, value: Value, reverse: Uuid -> Result<string, Failure>,
                         encryptor: Option<Encryptor>): Result<Item, Failure>
  {
    if IsPrivate(key) then Ok((key, value))
    else
      match Parse(key)
      case None => Ok((key, value))
      case Some(u) =>
        match reverse(u)
        case Err(f) => if IsValueOrKeyError(f) then Ok((key, value)) else Err(f)
        case Ok(name) =>
          if encryptor.Some? && LooksEncrypted(value) then
            match encryptor.value.decrypt(value, u)
            case Ok(plain) => Ok((name, plain))
            case Err(f) => if IsException(f) then Ok((name, value)) else Err(f)
          else
            Ok((name, value))
  }

  function SemanticStep(reverse: Uuid -> Result<string, Failure>, encryptor: Option<Encryptor>): Item -> Result<Item, Failure>
  {
    (item: Item) => ToSemanticKey(item.0, item.1, reverse, encryptor)
  }

  /** A loop `for key, value in items: out[k'] = v'` where each item's new key and value come
      from `step`, and the first failure ends the loop. */
  function Fold(acc: Record, items: Record, step: Item -> Result<Item, Failure>): (r: Result<Record, Failure>)
    decreases |items|
  {
    if |items| == 0 then Ok(acc)
    else
      var e :- step(items[0]);
      Fold(Put(acc, e.0, e.1), items[1..], step)
  }

  /** The items each step produces, when every step succeeds. */
  function Images(items: Record, step: Item -> Result<Item, Failure>): (out: Record)
    requires forall i | 0 <= i < |items| :: step(items[i]).Ok?
    ensures |out| == |items| && forall i | 0 <= i < |items| :: out[i] == step(items[i]).value
  {
    seq(|items|, i requires 0 <= i < |items| => step(items[i]).value)
  }

  /** When no two produced keys coincide, the loop produces exactly the items' images, in order. */
  lemma {:induction false} FoldPointwise(acc: Record, items: Record, step: Item -> Result<Item, Failure>)
    requires forall i | 0 <= i < |items| :: step(items[i]).Ok?
    requires DistinctKeys(acc + Images(items, step))
    ensures Fold(acc, items, step) == Ok(acc + Images(items, step))
    decreases |items|
  {
    if |items| > 0 {
      var e := step(items[0]).value;
      var whole := acc + Images(items, step);
      assert whole[|acc|] == e;
      assert !HasKey(acc, e.0) by {
        assert forall j | 0 <= j < |acc| :: Keys(acc)[j] == whole[j].0 != whole[|acc|].0;
      }
      KeysPutAbsent(acc, e.0, e.1);
      assert Put(acc, e.0, e.1) == acc + [e];
      var rest := items[1..];
      assert forall i | 0 <= i < |rest| :: rest[i] == items[i + 1];
      assert acc + [e] + Images(rest, step) == whole;
      FoldPointwise(acc + [e], rest, step);
    } else {
      assert acc + Images(items, step) == acc;
    }
  }

  /** The same, with the images given: a loop whose steps produce `target` item by item, when
      `target` repeats no key, produces `target`. */
  lemma FoldOnto(items: Record, step: Item -> Result<Item, Failure>, target: Record)
    requires |target| == |items| && DistinctKeys(target)
    requires forall i | 0 <= i < |items| :: step(items[i]) == Ok(target[i])
    ensures Fold([], items, step) == Ok(target)
  {
    assert Images(items, step) == target;
    assert [] + target == target;
    FoldPointwise([], items, step);
  }

  /** A failing step makes the whole loop fail. */
  lemma {:induction false} FoldFails(acc: Record, items: Record, step: Item -> Result<Item, Failure>, i: nat)
    requires i < |items| && step(items[i]).Err?
    ensures Fold(acc, items, step).Err?
    decreases i
  {
    if i > 0 && step(items[0]).Ok? {
      var e := step(items[0]).value;
      assert items[1..][i - 1] == items[i];
      FoldFails(Put(acc, e.0, e.1), items[1..], step, i - 1);
    }
  }

  /** A key no step writes keeps the value it had before the loop. */
  lemma {:induction false} FoldUntouched(acc: Record, items: Record, step: Item -> Result<Item, Failure>, k: string)
    requires Fold(acc, items, step).Ok?
    requires forall j | 0 <= j < |items| :: step(items[j]).Ok? ==> step(items[j]).value.0 != k
    ensures Get(Fold(acc, items, step).value, k) == Get(acc, k)
    decreases |items|
  {
    if |items| > 0 {
      var e := step(items[0]).value;
      var rest := items[1..];
      assert forall j | 0 <= j < |rest| :: rest[j] == items[j + 1];
      FoldUntouched(Put(acc, e.0, e.1), rest, step, k);
      GetPutOther(acc, e.0, e.1, k);
    }
  }

  /** The last write to a key wins: the item a step produces stays in the result unless a later
      step writes the same key. */
  lemma {:induction false} FoldLastWrite(acc: Record, items: Record, step: Item -> Result<Item, Failure>, i: nat)
    requires Fold(acc, items, step).Ok?
    requires i < |items| && step(items[i]).Ok?
    requires forall j | i < j < |items| :: step(items[j]).Ok? ==> step(items[j]).value.0 != step(items[i]).value.0
    ensures Get(Fold(acc, items, step).value, step(items[i]).value.0) == Some(step(items[i]).value.1)
    decreases i
  {
    var e := step(items[0]).value;
    var rest := items[1..];
    assert forall j | 0 <= j < |rest| :: rest[j] == items[j + 1];
    if i == 0 {
      FoldUntouched(Put(acc, e.0, e.1), rest, step, e.0);
      GetPutSame(acc, e.0, e.1);
    } else {
      FoldLastWrite(Put(acc, e.0, e.1), rest, step, i - 1);
    }
  }

  /** A loop that finished ran every step successfully. */
  lemma FoldOkSteps(acc: Record, items: Record, step: Item -> Result<Item, Failure>)
    requires Fold(acc, items, step).Ok?
    ensures forall i | 0 <= i < |items| :: step(items[i]).Ok?
  {
    forall i | 0 <= i < |items| ensures step(items[i]).Ok? {
      if step(items[i]).Err? {
        FoldFails(acc, items, step, i);
      }
    }
  }

  /** `_map_to_uuids`, from the class attributes and the data. */
  function MapToUuidsSpec(data: Record, attrs: Dict<string, ClassAttr>, forward: string -> Result<Uuid, Failure>,
                          devMode: bool, encryptionEnabled: bool, built: Result<Encryptor, Failure>): Result<Record, Failure>
  {
    var encryptor :- EncryptorFor(encryptionEnabled, built);
    Fold([], data, UuidStep(Descriptors(attrs), forward, devMode, encryptor))
  }

  /** `_map_to_uuids`: `built` is the outcome of `FieldEncryptor()`, used only when
      encryption is enabled. */
  method MapToUuids(data: Record, attrs: Dict<string, ClassAttr>, forward: string -> Result<Uuid, Failure>,
                    devMode: bool, encryptionEnabled: bool, built: Result<Encryptor, Failure>)
    returns (r: Result<Record, Failure>)
    requires DistinctKeys(attrs)
    ensures r == MapToUuidsSpec(data, attrs, forward, devMode, encryptionEnabled, built)
  {
    var encryptor: Option<Encryptor> := None;
    if encryptionEnabled {
      if built.Err? {
        return Err(built.error);
      }
      encryptor := Some(built.value);
    }
    var fields := CollectObfuscatedFields(attrs);
    ghost var step := UuidStep(fields, forward, devMode, encryptor);
    var out: Record := [];
    for i := 0 to |data|
      invariant Fold([], data, step) == Fold(out, data[i..], step)
    {
      var (key, value) := data[i];
      assert data[i..][0] == data[i] && data[i..][1..] == data[i + 1..];
      if IsPrivate(key) {
        out := Put(out, key, value);
        continue;
      }
      var looked := forward(key);
      if looked.Err? {
        if devMode && IsException(looked.error) {
          out := Put(out, key, value);
          continue;
        }
        return Err(looked.error);
      }
      var u := looked.value;
      var shouldEncrypt := encryptor.Some? && MarkedEncrypted(fields, key);
      if shouldEncrypt {
        var sealed := encryptor.value.encrypt(value, u);
        if sealed.Err? {
          if devMode && IsException(sealed.error) {
            out := Put(out, key, value);
            continue;
          }
          return Err(sealed.error);
        }
        out := Put(out, ToString(u), sealed.value);
      } else {
        out := Put(out, ToString(u), value);
      }
    }
    assert data[|data|..] == [];
    return Ok(out);
  }

  /** `create_from_semantic`'s key mapping: the same rule as `_map_to_uuids`, never encrypting. */
  method CreateFromSemantic(data: Record, forward: string -> Result<Uuid, Failure>, devMode: bool)
    returns (r: Result<Record, Failure>)
    ensures r == Fold([], data, UuidStep([], forward, devMode, None))
  {
    ghost var step := UuidStep([], forward, devMode, None);
    var out: Record := [];
    for i := 0 to |data|
      invariant Fold([], data, step) == Fold(out, data[i..], step)
    {
      var (key, value) := data[i];
      assert data[i..][0] == data[i] && data[i..][1..] == data[i + 1..];
      if IsPrivate(key) {
        out := Put(out, key, value);
        continue;
      }
      var looked := forward(key);
      if looked.Err? {
        if devMode && IsException(looked.error) {
          out := Put(out, key, value);
          continue;
        }
        return Err(looked.error);
      }
      out := Put(out, ToString(looked.value), value);
    }
    assert data[|data|..] == [];
    return Ok(out);
  }

  /** `_map_to_semantic` */
  function MapToSemanticSpec(data: Record, reverse: Uuid -> Result<string, Failure>, devMode: bool,
                             encryptionEnabled: bool, built: Result<Encryptor, Failure>): Result<Record, Failure>
  {
    if !devMode then Ok(data)
    else
      var encryptor :- EncryptorFor(encryptionEnabled, built);
      Fold([], data, SemanticStep(reverse, encryptor))
  }

  /** `_map_to_semantic`: outside dev mode the data comes back as it is. */
  method MapToSemantic(data: Record, reverse: Uuid -> Result<string, Failure>, devMode: bool,
                       encryptionEnabled: bool, built: Result<Encryptor, Failure>)
    returns (r: Result<Record, Failure>)
    ensures !devMode ==> r == Ok(data)
    ensures r == MapToSemanticSpec(data, reverse, devMode, encryptionEnabled, built)
  {
    if !devMode {
      return Ok(data);
    }
    var encryptor: Option<Encryptor> := None;
    if encryptionEnabled {
      if built.Err? {
        return Err(built.error);
      }
      encryptor := Some(built.value);
    }
    ghost var step := SemanticStep(reverse, encryptor);
    var out: Record := [];
    for i := 0 to |data|
      invariant Fold([], data, step) == Fold(out, data[i..], step)
    {
      var (key, value) := data[i];
      assert data[i..][0] == data[i] && data[i..][1..] == data[i + 1..];
      if IsPrivate(key) {
        out := Put(out, key, value);
        continue;
      }
      var parsed := Parse(key);
      if parsed.None? {
        out := Put(out, key, value);
        continue;
      }
      var u := parsed.value;
      var named := reverse(u);
      if named.Err? {
        if IsValueOrKeyError(named.error) {
          out := Put(out, key, value);
          continue;
        }
        return Err(named.error);
      }
      var isEncrypted := encryptor.Some? && LooksEncrypted(value);
      if isEncrypted {
        var plain := encryptor.value.decrypt(value, u);
        if plain.Ok? {
          out := Put(out, named.value, plain.value);
        } else if IsException(plain.error) {
          out := Put(out, named.value, value);
        } else {
          return Err(plain.error);
        }
      } else {
        out := Put(out, named.value, value);
      }
    }
    assert data[|data|..] == [];
    return Ok(out);
  }

  /** `model_dump`: `dumped` is what pydantic's `model_dump` gives; it is mapped back to
      semantic names in dev mode only. */
  method ModelDump(dumped: Record, reverse: Uuid -> Result<string, Failure>, devMode: bool,
                   encryptionEnabled: bool, built: Result<Encryptor, Failure>)
    returns (r: Result<Record, Failure>)
    ensures !devMode ==> r == Ok(dumped)
    ensures devMode ==> r == MapToSemanticSpec(dumped, reverse, devMode, encryptionEnabled, built)
  {
    if devMode {
      r := MapToSemantic(dumped, reverse, devMode, encryptionEnabled, built);
    } else {
      r := Ok(dumped);
    }
  }

  /** `_register_model_schema`'s names: every descriptor of the class, and every annotated
      name that is not private. */
  function SchemaFields(attrs: Dict<string, ClassAttr>, hints: seq<string>): set<string> {
    (set i | 0 <= i < |attrs| && attrs[i].1.Descriptor? :: attrs[i].0) +
    (set i | 0 <= i < |hints| && !IsPrivate(hints[i]) :: hints[i])
  }

  /** `_register_model_schema`: the forward lookup of every schema field and of the class
      name; the first failing lookup ends the call. */
  method RegisterModelSchema(attrs: Dict<string, ClassAttr>, hints: seq<string>, className: string,
                             forward: string -> Result<Uuid, Failure>)
    returns (r: Result<map<string, Uuid>, Failure>)
    requires DistinctKeys(attrs)
    ensures r.Ok? <==> forall n | n in SchemaFields(attrs, hints) + {className} :: forward(n).Ok?
    ensures r.Ok? ==> r.value.Keys == SchemaFields(attrs, hints) + {className}
    ensures r.Ok? ==> forall n | n in r.value :: forward(n) == Ok(r.value[n])
    ensures r.Err? ==> exists n | n in SchemaFields(attrs, hints) + {className} :: forward(n) == Err(r.error)
  {
    var fields := CollectObfuscatedFields(attrs);
    var names: set<string> := set i | 0 <= i < |fields| :: fields[i].0;
    assert names == set i | 0 <= i < |attrs| && attrs[i].1.Descriptor? :: attrs[i].0 by {
      forall k ensures k in names <==> HasKey(fields, k) {
        if HasKey(fields, k) {
          var j :| 0 <= j < |fields| && Keys(fields)[j] == k;
          assert fields[j].0 == k;
        }
      }
      forall k ensures HasKey(fields, k) <==> exists i | 0 <= i < |attrs| :: attrs[i].1.Descriptor? && attrs[i].0 == k {
        DescriptorsGet(attrs, k);
        if i :| 0 <= i < |attrs| && attrs[i].1.Descriptor? && attrs[i].0 == k {
          GetAt(attrs, i);
        }
        if HasKey(attrs, k) {
          var i :| 0 <= i < |attrs| && Keys(attrs)[i] == k;
          GetAt(attrs, i);
        }
      }
    }
    for i := 0 to |hints|
      invariant names == SchemaFields(attrs, hints[..i])
    {
      if !IsPrivate(hints[i]) && hints[i] !in names {
        names := names + {hints[i]};
      }
    }
    assert hints[..|hints|] == hints;
    var mapping: map<string, Uuid> := map[];
    var remaining := names;
    while remaining != {}
      invariant remaining <= names && mapping.Keys == names - remaining
      invariant forall n | n in mapping :: forward(n) == Ok(mapping[n])
      decreases remaining
    {
      var n :| n in remaining;
      var u := forward(n);
      if u.Err? {
        return Err(u.error);
      }
      mapping := mapping[n := u.value];
      remaining := remaining - {n};
    }
    var modelUuid := forward(className);
    if modelUuid.Err? {
      return Err(modelUuid.error);
    }
    mapping := mapping[className := modelUuid.value];
    return Ok(mapping);
  }

  /** The forward lookup gives distinct UUIDs to distinct non-private keys of `data`. */
  ghost predicate ForwardInjective(data: Record, forward: string -> Result<Uuid, Failure>) {
    forall i, j | 0 <= i < |data| && 0 <= j < |data| && !IsPrivate(data[i].0) && !IsPrivate(data[j].0) &&
      forward(data[i].0).Ok? && forward(data[j].0).Ok? && forward(data[i].0).value == forward(data[j].0).value :: i == j
  }

  /** Private keys stay where they are and every other key becomes its UUID's text: then no two
      items land on the same key. */
  lemma UuidImagesDistinct(data: Record, fields: Dict<string, ObfuscationLevel>, forward: string -> Result<Uuid, Failure>,
                           devMode: bool, encryptor: Option<Encryptor>)
    requires DistinctKeys(data) && ForwardInjective(data, forward)
    requires forall i | 0 <= i < |data| :: UuidStep(fields, forward, devMode, encryptor)(data[i]).Ok?
    requires forall i | 0 <= i < |data| ::
      (IsPrivate(data[i].0) ==> UuidStep(fields, forward, devMode, encryptor)(data[i]).value.0 == data[i].0) &&
      (!IsPrivate(data[i].0) ==>
        (forward(data[i].0).Ok? && UuidStep(fields, forward, devMode, encryptor)(data[i]).value.0 == ToString(forward(data[i].0).value)))
    ensures DistinctKeys(Images(data, UuidStep(fields, forward, devMode, encryptor)))
  {
    var step := UuidStep(fields, forward, devMode, encryptor);
    var out := Images(data, step);
    forall a, b | 0 <= a < b < |out| ensures out[a].0 != out[b].0 {
      var ka, kb := data[a].0, data[b].0;
      if IsPrivate(ka) && IsPrivate(kb) {
        assert out[a].0 == ka && out[b].0 == kb;
      } else if IsPrivate(ka) {
        ToStringNotPrivate(forward(kb).value);
      } else if IsPrivate(kb) {
        ToStringNotPrivate(forward(ka).value);
      } else {
        if ToString(forward(ka).value) == ToString(forward(kb).value) {
          ToStringInjective(forward(ka).value, forward(kb).value);
        }
      }
    }
  }

  /** `_map_to_uuids` copies every private key with its value. */
  lemma MapToUuidsKeepsPrivate(data: Record, fields: Dict<string, ObfuscationLevel>, forward: string -> Result<Uuid, Failure>,
                               devMode: bool, encryptor: Option<Encryptor>, i: nat)
    requires DistinctKeys(data) && i < |data| && IsPrivate(data[i].0)
    requires Fold([], data, UuidStep(fields, forward, devMode, encryptor)).Ok?
    ensures Get(Fold([], data, UuidStep(fields, forward, devMode, encryptor)).value, data[i].0) == Some(data[i].1)
  {
    var step := UuidStep(fields, forward, devMode, encryptor);
    forall j | i < j < |data| && step(data[j]).Ok? ensures step(data[j]).value.0 != data[i].0 {
      if !IsPrivate(data[j].0) && forward(data[j].0).Ok? {
        ToStringNotPrivate(forward(data[j].0).value);
      }
    }
    FoldLastWrite([], data, step, i);
  }

  /** One item outside dev mode: nothing is caught, so a produced item is the private key
      itself or the UUID's text, with the encryptor's output exactly for an ENCRYPTED field. */
  lemma ProductionItem(key: string, value: Value, fields: Dict<string, ObfuscationLevel>,
                       forward: string -> Result<Uuid, Failure>, encryptor: Option<Encryptor>)
    requires ToUuidKey(key, value, fields, forward, false, encryptor).Ok?
    ensures var e := ToUuidKey(key, value, fields, forward, false, encryptor).value;
      (IsPrivate(key) ==> e == (key, value)) &&
      (!IsPrivate(key) ==>
        (forward(key).Ok? && e.0 == ToString(forward(key).value) &&
         if encryptor.Some? && MarkedEncrypted(fields, key) then encryptor.value.encrypt(value, forward(key).value) == Ok(e.1)
         else e.1 == value))
  {
  }

  /** In production mode a successful `_map_to_uuids` keeps every item in place: a private key
      with its value, every other key as its UUID's text; the value is the encryptor's output
      exactly when an encryptor is present and the field is declared ENCRYPTED, and the raw
      value otherwise. */
  lemma MapToUuidsInProduction(data: Record, fields: Dict<string, ObfuscationLevel>, forward: string -> Result<Uuid, Failure>,
                               encryptor: Option<Encryptor>, out: Record)
    requires DistinctKeys(data) && ForwardInjective(data, forward)
    requires Fold([], data, UuidStep(fields, forward, false, encryptor)) == Ok(out)
    ensures |out| == |data|
    ensures forall i | 0 <= i < |data| && IsPrivate(data[i].0) :: out[i] == data[i]
    ensures forall i | 0 <= i < |data| && !IsPrivate(data[i].0) ::
      forward(data[i].0).Ok? && out[i].0 == ToString(forward(data[i].0).value) &&
      if encryptor.Some? && MarkedEncrypted(fields, data[i].0) then
        encryptor.value.encrypt(data[i].1, forward(data[i].0).value) == Ok(out[i].1)
      else
        out[i].1 == data[i].1
  {
    var step := UuidStep(fields, forward, false, encryptor);
    FoldOkSteps([], data, step);
    forall i | 0 <= i < |data|
      ensures var e := step(data[i]).value;
        (IsPrivate(data[i].0) ==> e == data[i]) &&
        (!IsPrivate(data[i].0) ==>
          (forward(data[i].0).Ok? && e.0 == ToString(forward(data[i].0).value) &&
           if encryptor.Some? && MarkedEncrypted(fields, data[i].0) then encryptor.value.encrypt(data[i].1, forward(data[i].0).value) == Ok(e.1)
           else e.1 == data[i].1))
    {
      ProductionItem(data[i].0, data[i].1, fields, forward, encryptor);
    }
    UuidImagesDistinct(data, fields, forward, false, encryptor);
    assert [] + Images(data, step) == Images(data, step);
    FoldPointwise([], data, step);
  }

  /** In dev mode a key whose lookup raises an exception is kept as it is, with its value
      (unless it is itself the text of another key's UUID). */
  lemma MapToUuidsDevFallback(data: Record, fields: Dict<string, ObfuscationLevel>, forward: string -> Result<Uuid, Failure>,
                              encryptor: Option<Encryptor>, i: nat)
    requires DistinctKeys(data) && i < |data| && !IsPrivate(data[i].0)
    requires forward(data[i].0).Err? && IsException(forward(data[i].0).error)
    requires Parse(data[i].0).None?
    requires Fold([], data, UuidStep(fields, forward, true, encryptor)).Ok?
    ensures Get(Fold([], data, UuidStep(fields, forward, true, encryptor)).value, data[i].0) == Some(data[i].1)
  {
    var step := UuidStep(fields, forward, true, encryptor);
    forall j | i < j < |data| && step(data[j]).Ok? ensures step(data[j]).value.0 != data[i].0 {
      if !IsPrivate(data[j].0) && forward(data[j].0).Ok? {
        ParseToString(forward(data[j].0).value);
      }
    }
    FoldLastWrite([], data, step, i);
  }

  /** A lookup failure that is not caught (any failure outside dev mode, a `SystemExit` in
      it) makes `_map_to_uuids` fail. */
  lemma MapToUuidsPropagates(data: Record, fields: Dict<string, ObfuscationLevel>, forward: string -> Result<Uuid, Failure>,
                             devMode: bool, encryptor: Option<Encryptor>, i: nat)
    requires i < |data| && !IsPrivate(data[i].0) && forward(data[i].0).Err?
    requires !devMode || !IsException(forward(data[i].0).error)
    ensures Fold([], data, UuidStep(fields, forward, devMode, encryptor)).Err?
  {
    FoldFails([], data, UuidStep(fields, forward, devMode, encryptor), i);
  }

  /** In dev mode a private key, a key that is not a UUID, and a UUID the registry does not know
      keep their key and value (unless a renamed item lands on the same key). */
  lemma MapToSemanticKeepsUnmapped(data: Record, reverse: Uuid -> Result<string, Failure>,
                                   encryptor: Option<Encryptor>, i: nat)
    requires DistinctKeys(data) && i < |data|
    requires IsPrivate(data[i].0) || Parse(data[i].0).None? ||
      (reverse(Parse(data[i].0).value).Err? && IsValueOrKeyError(reverse(Parse(data[i].0).value).error))
    requires forall j | 0 <= j < |data| && !IsPrivate(data[j].0) && Parse(data[j].0).Some? ::
      reverse(Parse(data[j].0).value) != Ok(data[i].0)
    requires Fold([], data, SemanticStep(reverse, encryptor)).Ok?
    ensures Get(Fold([], data, SemanticStep(reverse, encryptor)).value, data[i].0) == Some(data[i].1)
  {
    var step := SemanticStep(reverse, encryptor);
    assert step(data[i]) == Ok(data[i]);
    forall j | i < j < |data| && step(data[j]).Ok? ensures step(data[j]).value.0 != data[i].0 {
      SemanticValue(data[j].0, data[j].1, reverse, encryptor);
    }
    FoldLastWrite([], data, step, i);
  }

  /** A renamed item carries the decrypted value only if an encryptor is present, the value has
      the encrypted shape and decryption succeeded; otherwise it carries the stored value. */
  lemma SemanticValue(key: string, value: Value, reverse: Uuid -> Result<string, Failure>, encryptor: Option<Encryptor>)
    requires ToSemanticKey(key, value, reverse, encryptor).Ok?
    ensures var e := ToSemanticKey(key, value, reverse, encryptor).value;
      (e.0 == key && e.1 == value) ||
      (!IsPrivate(key) && Parse(key).Some? && reverse(Parse(key).value) == Ok(e.0) &&
       (e.1 == value || (encryptor.Some? && LooksEncrypted(value) && encryptor.value.decrypt(value, Parse(key).value) == Ok(e.1))))
  {
  }

  /** The round trip of one item. */
  lemma RoundTripItem(key: string, value: Value, fields: Dict<string, ObfuscationLevel>,
      forward: string -> Result<Uuid, Failure>, reverse: Uuid -> Result<string, Failure>,
      devMode: bool, encryptor: Option<Encryptor>)
    requires !IsPrivate(key) ==> forward(key).Ok? && reverse(forward(key).value) == Ok(key)
    requires encryptor.Some? && !IsPrivate(key) ==>
      if MarkedEncrypted(fields, key) then
        var sealed := encryptor.value.encrypt(value, forward(key).value);
        sealed.Ok? && LooksEncrypted(sealed.value) && encryptor.value.decrypt(sealed.value, forward(key).value) == Ok(value)
      else
        !LooksEncrypted(value)
    ensures ToUuidKey(key, value, fields, forward, devMode, encryptor).Ok?
    ensures IsPrivate(key) ==> ToUuidKey(key, value, fields, forward, devMode, encryptor).value.0 == key
    ensures !IsPrivate(key) ==> ToUuidKey(key, value, fields, forward, devMode, encryptor).value.0 == ToString(forward(key).value)
    ensures var e := ToUuidKey(key, value, fields, forward, devMode, encryptor).value;
      ToSemanticKey(e.0, e.1, reverse, encryptor) == Ok((key, value))
  {
    if !IsPrivate(key) {
      var u := forward(key).value;
      ToStringNotPrivate(u);
      ParseToString(u);
    }
  }

  /** With a registry whose reverse lookup inverts the forward one, dev-mode `_map_to_semantic`
      undoes `_map_to_uuids`: when every ENCRYPTED field's ciphertext has the encrypted shape
      and decrypts back, and no other value has that shape, the original items come back in
      order. */
  lemma {:induction false} MapToSemanticAfterMapToUuids(data: Record, fields: Dict<string, ObfuscationLevel>,
      forward: string -> Result<Uuid, Failure>, reverse: Uuid -> Result<string, Failure>,
      devMode: bool, encryptor: Option<Encryptor>)
    requires DistinctKeys(data)
    requires forall i | 0 <= i < |data| && !IsPrivate(data[i].0) ::
      forward(data[i].0).Ok? && reverse(forward(data[i].0).value) == Ok(data[i].0)
    requires encryptor.Some? ==> forall i | 0 <= i < |data| && !IsPrivate(data[i].0) ::
      if MarkedEncrypted(fields, data[i].0) then
        var sealed := encryptor.value.encrypt(data[i].1, forward(data[i].0).value);
        sealed.Ok? && LooksEncrypted(sealed.value) &&
        encryptor.value.decrypt(sealed.value, forward(data[i].0).value) == Ok(data[i].1)
      else
        !LooksEncrypted(data[i].1)
    ensures Fold([], data, UuidStep(fields, forward, devMode, encryptor)).Ok?
    ensures Fold([], Fold([], data, UuidStep(fields, forward, devMode, encryptor)).value, SemanticStep(reverse, encryptor)) == Ok(data)
  {
    var there := UuidStep(fields, forward, devMode, encryptor);
    var back := SemanticStep(reverse, encryptor);
    assert ForwardInjective(data, forward);
    forall i | 0 <= i < |data|
      ensures there(data[i]).Ok?
      ensures IsPrivate(data[i].0) ==> there(data[i]).value.0 == data[i].0
      ensures !IsPrivate(data[i].0) ==> there(data[i]).value.0 == ToString(forward(data[i].0).value)
      ensures back(there(data[i]).value) == Ok(data[i])
    {
      RoundTripItem(data[i].0, data[i].1, fields, forward, reverse, devMode, encryptor);
    }
    UuidImagesDistinct(data, fields, forward, devMode, encryptor);
    var mid := Images(data, there);
    FoldOnto(data, there, mid);
    FoldOnto(mid, back, data);
  }

  /** The case the library's `ObfuscatedModel` test suite exercises: encryption off, `create_from_semantic`'s key mapping
      then dev-mode `_map_to_semantic` restores the original items. */
  lemma CreateThenMapToSemantic(data: Record, forward: string -> Result<Uuid, Failure>,
                                reverse: Uuid -> Result<string, Failure>, devMode: bool)
    requires DistinctKeys(data)
    requires forall i | 0 <= i < |data| && !IsPrivate(data[i].0) ::
      forward(data[i].0).Ok? && reverse(forward(data[i].0).value) == Ok(data[i].0)
    ensures Fold([], data, UuidStep([], forward, devMode, None)).Ok?
    ensures Fold([], Fold([], data, UuidStep([], forward, devMode, None)).value, SemanticStep(reverse, None)) == Ok(data)
  {
    MapToSemanticAfterMapToUuids(data, [], forward, reverse, devMode, None);
  }
}
