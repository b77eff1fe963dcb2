# dbfacade label↔UUID obfuscation layer, modelled in Dafny

The DB facade keeps semantic field names and model names out of the database.
Every label (a field name such as `email`, or a class name such as `User`) is mapped to
a UUID by a registry that works as get-or-create. Records are stored under the text of
those UUIDs. Fields declared `ENCRYPTED` can also have their values sealed with AES-GCM
under a per-field key, derived from a master key and the field's UUID. In development
mode the reverse mapping turns stored records back into semantic ones. In production
mode stored records stay opaque.

The project models the following parts of the repository.

- `config.dfy` (module `Config`): the layered configuration.
  - Defaults come first, then an optional YAML file, then the `INDALEKO_*` environment variables, then a secrets file merged section by section.
  - It covers the dotted-key lookup `get` and the two predicates `is_dev_mode` and `is_encryption_enabled`.
  - The singleton object is a class, `DBFacadeConfig`, whose methods update its dictionary in place.
- `field_encryptor.dfy` (module `FieldEncryption`): the field encryptor.
  - It covers the metadata record and its dictionary form, the choice of master key, per-field key derivation, and the JSON envelope that `encrypt_field` produces and `decrypt_field` reads.
  - Cryptography, base64 and JSON are a record of primitive functions, `Primitives`. The round trips are proved under the hypothesis `Sound`, which says that each decoder undoes its encoder and that AES-GCM decryption undoes encryption under the same key and nonce.
- `registry_client.dfy` (module `Registry`): the `RegistryClient` class.
  - It has a forward cache (label to UUID and time) and a reverse cache (UUID to label and time), each with a time to live, in front of the registry collection.
  - Get-or-create keeps labels unique. Every cache entry agrees with the collection.
- `obfuscated_model.dfy` (module `Obfuscation`): `ObfuscatedModel`.
  - It covers descriptor collection, and `_map_to_uuids` and `_map_to_semantic`, each as a loop that writes into a fresh dictionary.
  - It also covers `create_from_semantic`, `model_dump` and `_register_model_schema`.
  - The registry is given as a forward and a reverse lookup function.
  - A round-trip theorem relates the two mappings.
- `arangodb.dfy` (module `ArangoDb`): the `ArangoDBClient` adapter over in-memory collections.
  - It covers collection creation, `insert`, `get`, the AQL text and bind variables that `query` builds, `store_mapping`, and both lookups.
- `hooks.dfy`, `check_blanket_exception.dfy` and `check_semantic_leakage.dfy` (modules `Hooks`, `BlanketException` and `SemanticLeakage`): the two pre-commit hooks.
  - The blanket-exception checker walks a syntax tree and reports bare and `Exception` handlers.
  - The semantic-leakage checker combines an AST pass with line-by-line pattern matching and keeps the first report per line.
  - Both share the `main` loop that prints `file:line: message` and exits with 1 when anything was reported.
- Support modules:
  - `wrappers.dfy`: `Option`, `Result`, and the `Failure` of a call. A failure is a raised exception of some kind or a `sys.exit(code)`.
  - `values.dfy`: JSON-like Python values and their truthiness.
  - `dicts.dfy`: Python dictionaries as insertion-ordered association lists.
  - `strings.dfy`: `split`, `join` and decimal rendering.
  - `uuids.dfy`: UUIDs as 32 hexadecimal digits, with `str(uuid)` and the lenient `UUID(text)` parser.

Some choices are common to the whole model.

- Clock readings are passed in as `now` parameters.
- `uuid.uuid4()` results are passed in as `minted` parameters.
- `os.urandom` results are passed in as `salt`, `iv` and `random` parameters.
- A Python call that may raise returns a `Result` whose error is the exception kind, or `Exit(code)` for `sys.exit`.

## Model

| member | source | states |
|---|---|---|
| Uuids.ParseToString | src/indaleko_dbfacade/models/obfuscated_model.py:271-275 | parsing the text form of a UUID gives the UUID back |
| Uuids.ToStringInjective | src/indaleko_dbfacade/models/obfuscated_model.py:203-205 | two UUIDs with the same text form are equal |
| Uuids.ToStringNotPrivate | src/indaleko_dbfacade/models/obfuscated_model.py:196-205 | the text form of a UUID never starts with "_", so a UUID key is never taken for a private field |
| Config.Defaults | src/indaleko_dbfacade/config.py:27-44 | the defaults hold exactly the sections mode, encryption, registry and database, in that order |
| Config.UpdateGet | src/indaleko_dbfacade/config.py:91-92 | after `dict.update` a key the file holds has the file's value, and every other key keeps its old value |
| Config.ResolveConcat | src/indaleko_dbfacade/config.py:153-161 | walking a dotted path p+q is walking p and then walking q from where p ended |
| Config.ResolveStops | src/indaleko_dbfacade/config.py:155-160 | the walk yields nothing as soon as a segment is missing or the value reached is not a dictionary |
| Config.ResolveSingle | src/indaleko_dbfacade/config.py:163 | a key without a dot is a plain top-level lookup |
| Config.Lookup | src/indaleko_dbfacade/config.py:153-163 | both branches of `get` return the value at the end of the walk over `key.split(".")`, or the default when the walk fails |
| Config.SplitFlagKey | src/indaleko_dbfacade/config.py:183 | "encryption.enabled" splits into the two segments "encryption" and "enabled" |
| Config.DefaultsDevMode | src/indaleko_dbfacade/config.py:27-33 | a configuration with defaults only is in development mode and has encryption disabled |
| Config.FileSectionReplaces | src/indaleko_dbfacade/config.py:88-92 | a section present in the file replaces the whole default section |
| Config.ThenKeeps | src/indaleko_dbfacade/config.py:98-130 | an environment override of another top-level key leaves a key unchanged |
| Config.ThenWrites | src/indaleko_dbfacade/config.py:106-110 | a nested override that succeeds leaves the written value at `section.key` |
| Config.ConnectionStepsKeep | src/indaleko_dbfacade/config.py:112-130 | the connection overrides touch only the database and registry sections and fail only where an earlier step failed |
| Config.EnvModeWins | src/indaleko_dbfacade/config.py:101-103 | `INDALEKO_MODE` replaces the mode if and only if it is DEV or PROD |
| Config.EnvFlagWins | src/indaleko_dbfacade/config.py:106-110 | the encryption flag becomes True for the five true words, False for the five false words, and is left as it was for any other value |
| Config.LayeredModeWins | src/indaleko_dbfacade/config.py:53-71 | a valid `INDALEKO_MODE` wins over whatever the file said |
| Config.MergeSectionKeyByKey | src/indaleko_dbfacade/config.py:240-247 | a secrets section that is a dictionary is merged key by key, with the secret value winning, and any other value replaces the section |
| Config.DBFacadeConfig.constructor | src/indaleko_dbfacade/config.py:47-50 | a new configuration is empty and not initialised |
| Config.DBFacadeConfig.Initialize | src/indaleko_dbfacade/config.py:53-71 | the new dictionary and failure are the defaults layered with the file and then the environment; the object is initialised exactly when this succeeded or it already was |
| Config.DBFacadeConfig.LoadFromFile | src/indaleko_dbfacade/config.py:74-95 | a readable mapping is merged over the configuration; an error leaves it as it was and is reported |
| Config.DBFacadeConfig.SetNested | src/indaleko_dbfacade/config.py:108-110 | one nested assignment: KeyError for a missing section, TypeError for a section that is not a dictionary, otherwise the key is written inside the section |
| Config.DBFacadeConfig.LoadFromEnv | src/indaleko_dbfacade/config.py:98-130 | the environment layer, override by override, as `EnvLayer` states it |
| Config.DBFacadeConfig.SetText | src/indaleko_dbfacade/config.py:113-130 | a connection variable that is set is copied into its section and key |
| Config.DBFacadeConfig.EnsureInitialized | src/indaleko_dbfacade/config.py:133-136 | initialises from the environment only once; afterwards nothing changes |
| Config.DBFacadeConfig.Get | src/indaleko_dbfacade/config.py:139-163 | after lazy initialisation, the answer is the walk over the dotted key or the default |
| Config.DBFacadeConfig.IsDevMode | src/indaleko_dbfacade/config.py:166-173 | true exactly when the mode is "DEV" |
| Config.DBFacadeConfig.IsEncryptionEnabled | src/indaleko_dbfacade/config.py:176-183 | the value at encryption.enabled, False when it is missing |
| Config.DBFacadeConfig.LoadFromSecretsFile | src/indaleko_dbfacade/config.py:220-252 | each section of a secrets file is merged in order, as `SecretsLayer` states it |
| FieldEncryption.ParseAlgorithm | src/indaleko_dbfacade/encryption/field_encryptor.py:29-33 | an algorithm name is accepted if and only if it is "AES-GCM" or "ChaCha20-Poly1305", and otherwise raises ValueError |
| FieldEncryption.ParseAlgorithmName | src/indaleko_dbfacade/encryption/field_encryptor.py:29-33 | each algorithm's value parses back to that algorithm |
| FieldEncryption.ToDict | src/indaleko_dbfacade/encryption/field_encryptor.py:60-73 | the metadata dictionary has exactly the keys algorithm, iv, salt, created_at and version, in that order |
| FieldEncryption.ToDictGet | src/indaleko_dbfacade/encryption/field_encryptor.py:66-73 | each key holds its field, and the algorithm is held by its name |
| FieldEncryption.Index | src/indaleko_dbfacade/encryption/field_encryptor.py:87-91 | subscripting succeeds if and only if the value is a dictionary holding the key |
| FieldEncryption.FromDictToDict | src/indaleko_dbfacade/encryption/field_encryptor.py:60-92 | `from_dict(to_dict(m))` gives m back |
| FieldEncryption.FromDictDefaults | src/indaleko_dbfacade/encryption/field_encryptor.py:86-92 | a missing version reads as "1.0", and an unknown algorithm raises ValueError |
| FieldEncryption.FirstTruthy | src/indaleko_dbfacade/encryption/field_encryptor.py:126-148 | the chosen master key is one of the candidates or the fallback |
| FieldEncryption.MasterKeyPrecedence | src/indaleko_dbfacade/encryption/field_encryptor.py:104-148 | the master key is the first truthy of the argument, the environment, the configuration and, in development mode only, the development key; without one the constructor exits with 1 |
| FieldEncryption.DeriveKeySalt | src/indaleko_dbfacade/encryption/field_encryptor.py:150-186 | derivation returns the salt it used, which is the given salt when there is one, so re-deriving with that salt gives the same key |
| FieldEncryption.DistinctFieldsDistinctKeys | src/indaleko_dbfacade/encryption/field_encryptor.py:169-184 | with collision-free hashing and key stretching, two fields get different keys under the same salt |
| FieldEncryption.SplitTag | src/indaleko_dbfacade/encryption/field_encryptor.py:282-284 | the split puts the last 16 bytes in the tag and everything before them in the ciphertext, or gives an empty ciphertext for shorter input |
| FieldEncryption.SplitTagSeal | src/indaleko_dbfacade/encryption/field_encryptor.py:228-231 | splitting sealed bytes recovers exactly the ciphertext and tag that were concatenated |
| FieldEncryption.EncryptFieldShape | src/indaleko_dbfacade/encryption/field_encryptor.py:206-248 | ChaCha20-Poly1305 is refused; a result is a dictionary of value and metadata, whose metadata records AES-GCM, the base64 IV and salt, the time and version 1.0 |
| FieldEncryption.DecryptFieldNeedsBothKeys | src/indaleko_dbfacade/encryption/field_encryptor.py:262-263 | an envelope without "value" or "metadata" raises ValueError |
| FieldEncryption.DecryptFieldRefusesOtherAlgorithms | src/indaleko_dbfacade/encryption/field_encryptor.py:294-296 | an envelope that declares ChaCha20-Poly1305 is not decrypted |
| FieldEncryption.ReadEnvelopeOfEnvelope | src/indaleko_dbfacade/encryption/field_encryptor.py:265-275 | an envelope that `encrypt_field` built reads back as its metadata and the decoded sealed bytes, IV and salt |
| FieldEncryption.UnsealSeal | src/indaleko_dbfacade/encryption/field_encryptor.py:283-299 | with sound primitives, unsealing what was sealed under the same key and nonce gives the JSON value back |
| FieldEncryption.DecryptEncryptField | src/indaleko_dbfacade/encryption/field_encryptor.py:188-301 | `decrypt_field(encrypt_field(v, u), u) == v` for every JSON value |
| FieldEncryption.EnvelopeIsJson | src/indaleko_dbfacade/encryption/field_encryptor.py:317-318 | the envelope is a value that `json.dumps` carries faithfully |
| FieldEncryption.DecryptEncryptValue | src/indaleko_dbfacade/encryption/field_encryptor.py:303-335 | `decrypt_value(encrypt_value(v, u), u) == v` for every JSON value |
| Registry.MapsExtends | src/indaleko_dbfacade/registry/client.py:93-102 | inserting a new document keeps every mapping the collection already had |
| Registry.MapsUnique | src/indaleko_dbfacade/registry/client.py:76-92 | with unique labels, a label maps to one UUID only |
| Registry.PublicNames | src/indaleko_dbfacade/registry/client.py:179-182 | the names collected are exactly the annotation names not starting with "_" |
| Registry.SchemaNames | src/indaleko_dbfacade/registry/client.py:179-185 | the schema names are the public annotation names plus the class name |
| Registry.RegistryClient.constructor | src/indaleko_dbfacade/registry/client.py:23-49 | a client over a collection with unique labels starts with empty caches and the given time to live |
| Registry.StoredLookup | src/indaleko_dbfacade/registry/client.py:88-92 | with unique labels, looking up a stored label fails if and only if its one document's UUID text does not parse |
| Registry.MappedLookupSucceeds | src/indaleko_dbfacade/registry/client.py:88-92 | a label that already maps to a UUID is looked up without failing |
| Registry.RegistryClient.FetchOrCreate | src/indaleko_dbfacade/registry/client.py:73-110 | past the cache: a stored label gives its document's UUID without writing; a new label gives the minted UUID in one new document; it fails, with exit code 1, exactly when the stored text does not parse or the minted key is taken |
| Registry.RegistryClient.GetUuidForLabel | src/indaleko_dbfacade/registry/client.py:51-112 | a live cache entry answers unchanged; past the cache the call fails exactly when `LookupFails` holds, so a stored label with a parsable UUID is always answered, without writing; an unknown label gets the minted UUID in one new document; the collection only grows; both caches are stamped now; labels stay unique and the caches coherent |
| Registry.RegistryClient.GetLabelForUuid | src/indaleko_dbfacade/registry/client.py:114-166 | a live cache entry answers; otherwise the label of the document with that UUID, cached both ways, or KeyError when there is none |
| Registry.RegistryClient.RegisterModelSchema | src/indaleko_dbfacade/registry/client.py:168-192 | on success the mapping's keys are exactly the schema names, each mapped to its registered UUID; a failure means the lookup of some schema name fails against the collection; a schema whose names are all registered already always succeeds |
| Registry.RegistryClient.ClearCache | src/indaleko_dbfacade/registry/client.py:194-197 | both caches are empty and the collection is untouched |
| Registry.RegistryClient.ForwardLookupIdempotent | src/indaleko_dbfacade/registry/client.py:51-112 | two forward lookups of one label that both succeed return the same UUID, whatever the times and minted values |
| Obfuscation.ObfuscationLevel.Text | src/indaleko_dbfacade/models/obfuscated_model.py:19-29 | only the ENCRYPTED member's value is "encrypted" |
| Obfuscation.Descriptors | src/indaleko_dbfacade/models/obfuscated_model.py:111-116 | only class attributes appear among the collected fields |
| Obfuscation.DescriptorsGet | src/indaleko_dbfacade/models/obfuscated_model.py:111-116 | a field's level is the level of its `ObfuscatedField` attribute, and attributes of other types are skipped |
| Obfuscation.CollectObfuscatedFields | src/indaleko_dbfacade/models/obfuscated_model.py:104-120 | the loop collects exactly `Descriptors` |
| Obfuscation.EncryptorFor | src/indaleko_dbfacade/models/obfuscated_model.py:184-187 | an encryptor is used if and only if encryption is enabled and its construction succeeded, and a construction failure is propagated only when encryption is enabled |
| Obfuscation.Fallback | src/indaleko_dbfacade/models/obfuscated_model.py:222-228 | a failed lookup keeps the key only in development mode and only for an `Exception` |
| Obfuscation.FoldPointwise | src/indaleko_dbfacade/models/obfuscated_model.py:190-230 | when every step succeeds and the new keys are distinct, the loop's dictionary is the items' images in order |
| Obfuscation.FoldOnto | src/indaleko_dbfacade/models/obfuscated_model.py:190-230 | a loop whose steps yield a given distinct-keyed record produces that record |
| Obfuscation.FoldFails | src/indaleko_dbfacade/models/obfuscated_model.py:222-228 | one failing item makes the whole mapping fail |
| Obfuscation.FoldUntouched | src/indaleko_dbfacade/models/obfuscated_model.py:190-230 | a key no step writes keeps its old value |
| Obfuscation.FoldLastWrite | src/indaleko_dbfacade/models/obfuscated_model.py:221-225 | a key holds the value of the last item written under it |
| Obfuscation.FoldOkSteps | src/indaleko_dbfacade/models/obfuscated_model.py:190-230 | a successful mapping means every item's step succeeded |
| Obfuscation.MapToUuids | src/indaleko_dbfacade/models/obfuscated_model.py:163-230 | the loop computes `MapToUuidsSpec`: the encryptor choice, then one step per item |
| Obfuscation.CreateFromSemantic | src/indaleko_dbfacade/models/obfuscated_model.py:322-359 | the loop maps every non-private key to its UUID's text without encryption, with the development-mode fallback |
| Obfuscation.MapToSemantic | src/indaleko_dbfacade/models/obfuscated_model.py:232-300 | outside development mode the data is returned unchanged; otherwise the loop computes `MapToSemanticSpec` |
| Obfuscation.ModelDump | src/indaleko_dbfacade/models/obfuscated_model.py:302-319 | the dump is the stored dictionary in production mode and its semantic mapping in development mode |
| Obfuscation.RegisterModelSchema | src/indaleko_dbfacade/models/obfuscated_model.py:123-161 | succeeds if and only if every schema name and the class name register; the mapping then covers exactly those names, each with its UUID; a failure is the failure of one of them |
| Obfuscation.UuidImagesDistinct | src/indaleko_dbfacade/models/obfuscated_model.py:196-221 | with an injective registry, the mapped keys are pairwise distinct, so no item overwrites another |
| Obfuscation.MapToUuidsKeepsPrivate | src/indaleko_dbfacade/models/obfuscated_model.py:196-200 | a private key keeps its key and value |
| Obfuscation.ProductionItem | src/indaleko_dbfacade/models/obfuscated_model.py:196-221 | in production an item becomes its UUID's text, with the value encrypted exactly when an encryptor is present and the field is ENCRYPTED |
| Obfuscation.MapToUuidsInProduction | src/indaleko_dbfacade/models/obfuscated_model.py:163-230 | a successful production mapping keeps the item order, keeps private items, maps each other key to its UUID's text, and encrypts exactly the ENCRYPTED fields |
| Obfuscation.MapToUuidsDevFallback | src/indaleko_dbfacade/models/obfuscated_model.py:222-225 | in development mode a label the registry rejects with an exception keeps its semantic key and value |
| Obfuscation.MapToUuidsPropagates | src/indaleko_dbfacade/models/obfuscated_model.py:222-228 | in production, or for a `SystemExit`, a failed lookup fails the whole mapping |
| Obfuscation.MapToSemanticKeepsUnmapped | src/indaleko_dbfacade/models/obfuscated_model.py:265-298 | private keys and keys that are not UUIDs, or whose reverse lookup fails, are kept as they are |
| Obfuscation.SemanticValue | src/indaleko_dbfacade/models/obfuscated_model.py:271-295 | a value is decrypted only when it looks like an envelope and an encryptor is present, and is kept when decryption fails |
| Obfuscation.RoundTripItem | src/indaleko_dbfacade/models/obfuscated_model.py:196-295 | one item mapped to UUIDs and back is the original item, given a registry whose reverse undoes its forward and an encryptor whose decrypt undoes its encrypt |
| Obfuscation.MapToSemanticAfterMapToUuids | src/indaleko_dbfacade/models/obfuscated_model.py:163-300 | `_map_to_semantic(_map_to_uuids(d)) == d` for a record with distinct keys, under the same hypotheses |
| Obfuscation.CreateThenMapToSemantic | src/indaleko_dbfacade/models/obfuscated_model.py:339-356 | the record `create_from_semantic` stores maps back to the semantic data |
| ArangoDb.Conditions | src/indaleko_dbfacade/db/arangodb.py:131-133 | one filter condition per filter entry, in order, comparing `doc.data[field]` with `@value<i>` |
| ArangoDb.BindVars | src/indaleko_dbfacade/db/arangodb.py:126-134 | the bind variables are the collection UUID, the limit and one value per filter entry |
| ArangoDb.ValueVarInjective | src/indaleko_dbfacade/db/arangodb.py:134 | different positions give different bind-variable names |
| ArangoDb.BindVarsBindEachValue | src/indaleko_dbfacade/db/arangodb.py:124-134 | no two bind variables share a name, and `value<i>` is bound to the i-th filter value |
| ArangoDb.ArangoDbClient.constructor | src/indaleko_dbfacade/db/arangodb.py:25-55 | the listing afterwards holds both collections, and no documents change |
| ArangoDb.ArangoDbClient.EnsureCollectionsExist | src/indaleko_dbfacade/db/arangodb.py:57-75 | exactly the missing collections are created, registry first |
| ArangoDb.ArangoDbClient.Get | src/indaleko_dbfacade/db/arangodb.py:157-191 | the payload is found if and only if a document with that key belongs to that collection, and otherwise ValueError is raised |
| ArangoDb.ArangoDbClient.Insert | src/indaleko_dbfacade/db/arangodb.py:77-105 | one new document under the minted key, which is returned, and `get` then finds the payload |
| ArangoDb.ArangoDbClient.BuildQuery | src/indaleko_dbfacade/db/arangodb.py:107-146 | the loop builds `QueryText` over the filter clause, or "true" for an empty filter, together with `BindVars` |
| ArangoDb.ArangoDbClient.StoreMapping | src/indaleko_dbfacade/db/arangodb.py:234-279 | an upsert on the UUID's text: an existing document is relabelled and stamped, otherwise one is inserted; the reverse lookup then answers the label |
| ArangoDb.ArangoDbClient.GetLabelForUuid | src/indaleko_dbfacade/db/arangodb.py:281-315 | the stored label, or ValueError exactly when no document carries the UUID's text |
| ArangoDb.ArangoDbClient.GetUuidForLabel | src/indaleko_dbfacade/db/arangodb.py:317-355 | a labelled document's key is returned without writing; otherwise the minted UUID is stored under the label |
| ArangoDb.ArangoDbClient.ForwardThenReverse | src/indaleko_dbfacade/db/arangodb.py:281-355 | over keys this adapter wrote, the reverse lookup answers the label the forward lookup was given |
| Hooks.Lines | scripts/hooks/check_blanket_exception.py:88-89 | one `file:line: message` line per issue, in order |
| Hooks.OutputEmpty | scripts/hooks/check_blanket_exception.py:76-92 | nothing is printed if and only if no checked `.py` file has an issue |
| Hooks.OutputIgnoresUnchecked | scripts/hooks/check_semantic_leakage.py:126-142 | files whose names do not end in ".py" do not affect the output |
| Hooks.RunHook | scripts/hooks/check_blanket_exception.py:76-92 | prints the issues of the `.py` files in order, and exits with 1 if and only if some checked file has an issue, and with 0 otherwise |
| BlanketException.PlainNames | scripts/hooks/check_blanket_exception.py:39-42 | the listed names are exactly the plain names of the tuple |
| BlanketException.Verdict | scripts/hooks/check_blanket_exception.py:22-50 | a bare handler, a handler for `Exception`, and a tuple naming `Exception` or `BaseException` are reported with their exact messages, and nothing else is |
| BlanketException.HandlerMessage | scripts/hooks/check_blanket_exception.py:24-50 | the loop over the tuple computes `Verdict` |
| BlanketException.Reported | scripts/hooks/check_blanket_exception.py:22-53 | at most one issue per handler, and none when no handler is offending |
| BlanketException.ReportedAppend | scripts/hooks/check_blanket_exception.py:22-53 | the report of two handler lists is the two reports, one after the other |
| BlanketException.EveryOffendingHandlerReported | scripts/hooks/check_blanket_exception.py:22-53 | every offending handler is reported with its line and its message |
| BlanketException.BlanketExceptionVisitor.constructor | scripts/hooks/check_blanket_exception.py:19-20 | the visitor starts with no issues |
| BlanketException.BlanketExceptionVisitor.Visit | scripts/hooks/check_blanket_exception.py:22-53 | visiting a tree appends the reports of its handlers, in pre-order |
| BlanketException.BlanketExceptionVisitor.VisitExceptHandler | scripts/hooks/check_blanket_exception.py:22-53 | a handler's own verdict comes before those of the handlers nested in its body |
| BlanketException.BlanketExceptionVisitor.GenericVisit | scripts/hooks/check_blanket_exception.py:53 | children are visited left to right |
| BlanketException.CheckFile | scripts/hooks/check_blanket_exception.py:62-73 | a parsed file gives the reports of its handlers; a syntax error gives a single issue at its line, or at 0 when the line is unknown |
| SemanticLeakage.AttributeLogIssues | scripts/hooks/check_semantic_leakage.py:62-68 | every issue is the attribute-in-log message at the call's line, at most one per formatted value, and there is an issue if and only if some formatted value of the f-string is an attribute access |
| SemanticLeakage.Leaks | scripts/hooks/check_semantic_leakage.py:39-70 | the issues of an expression, in pre-order |
| SemanticLeakage.ExecuteCallReported | scripts/hooks/check_semantic_leakage.py:42-53 | an `execute` call whose first argument mentions `doc.<field>` is reported first, at its line |
| SemanticLeakage.OtherCallsAddNothing | scripts/hooks/check_semantic_leakage.py:39-70 | a call that is neither a leaky execute nor an f-string log adds no issue of its own |
| SemanticLeakage.SemanticLeakageVisitor.constructor | scripts/hooks/check_semantic_leakage.py:36-37 | the visitor starts with no issues |
| SemanticLeakage.SemanticLeakageVisitor.Visit | scripts/hooks/check_semantic_leakage.py:39-80 | visiting a tree appends exactly `Leaks` |
| SemanticLeakage.SemanticLeakageVisitor.VisitCall | scripts/hooks/check_semantic_leakage.py:39-70 | a call's own issues come before those of its function and its arguments |
| SemanticLeakage.SemanticLeakageVisitor.GenericVisit | scripts/hooks/check_semantic_leakage.py:70 | children are visited left to right |
| SemanticLeakage.DbMessageInjective | scripts/hooks/check_semantic_leakage.py:108 | different fields give different database-pattern messages |
| SemanticLeakage.DbMessageNotLogMessage | scripts/hooks/check_semantic_leakage.py:108-115 | a database-pattern message is never a logging-pattern message |
| SemanticLeakage.DbIssues | scripts/hooks/check_semantic_leakage.py:103-108 | the database-pattern issues of a line carry that line's number |
| SemanticLeakage.RegexIssues | scripts/hooks/check_semantic_leakage.py:99-115 | lines are numbered from 1, and every issue's line is within the file |
| SemanticLeakage.PrivateFieldSkippedInLine | scripts/hooks/check_semantic_leakage.py:105-108 | a field starting with "_" is never reported on a line |
| SemanticLeakage.PrivateFieldsSkipped | scripts/hooks/check_semantic_leakage.py:105-108 | a field starting with "_" is never reported anywhere in the file |
| SemanticLeakage.Without | scripts/hooks/check_semantic_leakage.py:117-123 | removing a line's issues leaves none for that line |
| SemanticLeakage.WithoutGet | scripts/hooks/check_semantic_leakage.py:117-123 | removing one line's issues does not change the first issue of another line |
| SemanticLeakage.DedupAppend | scripts/hooks/check_semantic_leakage.py:117-123 | a later issue is kept if and only if its line has not been seen, so the first occurrence wins and order is kept |
| SemanticLeakage.DedupGet | scripts/hooks/check_semantic_leakage.py:117-123 | each line keeps its first message |
| SemanticLeakage.DedupDistinct | scripts/hooks/check_semantic_leakage.py:117-123 | at most one issue per line remains |
| SemanticLeakage.AstIssueWins | scripts/hooks/check_semantic_leakage.py:91-123 | on a line the AST pass reported, its message wins over the pattern issues |
| SemanticLeakage.CollectLineIssues | scripts/hooks/check_semantic_leakage.py:102-115 | the loop over the patterns computes `LineIssues` |
| SemanticLeakage.CollectRegexIssues | scripts/hooks/check_semantic_leakage.py:99-115 | the loop over the lines computes `RegexIssues` |
| SemanticLeakage.Deduplicate | scripts/hooks/check_semantic_leakage.py:117-123 | the loop with its seen-lines dictionary computes `Dedup` |
| SemanticLeakage.CollectAstIssues | scripts/hooks/check_semantic_leakage.py:91-97 | a parsed file gives the visitor's issues, and a syntax error gives its single issue `(lineno or 0, "SyntaxError: " + message)` |
| SemanticLeakage.CheckFile | scripts/hooks/check_semantic_leakage.py:83-123 | the AST issues followed by the pattern issues, de-duplicated by line: one issue per line, with each line's first message |

## Left out

- The database, the network and the MCP tool functions (`arango_query`, `arango_insert` and the others) are not modelled. The collections are in-memory maps, and the text of an AQL query is built but never executed.
- `ArangoDBClient.query`'s execution and result extraction, and `update` and `delete` (`src/indaleko_dbfacade/db/arangodb.py:193-232`), are not modelled: they only forward to the database.
- AES-GCM, PBKDF2, SHA-256, base64, UTF-8 and JSON are opaque functions in `Primitives`. Their round trips are the hypothesis `Sound`, not proofs.
- Clocks, `uuid.uuid4()` and `os.urandom` are parameters. Each call reads the clock once.
- `sys.exit` is the failure `Exit(code)`, and printing to standard error is not modelled.
- Pydantic and Python introspection are not modelled: `get_type_hints`, `__dict__`, `cls(**data)` and `super().model_dump()`. Class attributes and type hints are given as lists, and a model's dump as a dictionary.
- The cache assignment to `cls.__obfuscated_fields__` is not modelled: each call recomputes the fields.
- The `_get_registry_client` singleton is not modelled: the registry is passed in as a forward and a reverse lookup.
- `create_from_uuid` (`src/indaleko_dbfacade/models/obfuscated_model.py:362-376`) is not modelled: it only forwards a stored dictionary to the pydantic constructor.
- YAML parsing and file reading are `FileContents`: missing, unreadable, or a parsed value.
- Config.FileLayer: a truthy YAML document that is not a mapping is a failure. `dict.update` would also accept a list of pairs.
- The URL helpers `get_registry_url` and `get_database_url` (`src/indaleko_dbfacade/config.py:186-217`) are not modelled: they are plain `get` calls with defaults joined into a string.
- Uuids.Parse accepts exactly 32 hexadecimal digits after stripping braces, the `urn:uuid:` prefix and dashes. It does not model the further leniency of `uuid.UUID`.
- Floating-point values are not part of `Value`.
- Concurrency is not modelled. The source's get-or-create is not atomic, and the model assumes that one client is the only writer.
- Registry.RegistryClient.constructor: the source wires `self.db.db.collection(...)`, an attribute the `ArangoDBClient` does not have. The model starts from the registry collection itself, and requires its labels to be unique.
- Registry.RegistryClient.GetUuidForLabel: the cache time to live is an integer. A non-numeric time to live from the configuration is not modelled.
- Obfuscation.MapToUuids: the registry lookups are pure functions of the label. `ForwardLookupIdempotent` justifies this for a registry over which the client is the only writer.
- ArangoDb.ArangoDbClient.Insert: requires the minted UUID to be new, which `uuid4` is assumed to give.
- FieldEncryption.EncryptFieldShape: states the ValueError for ChaCha20-Poly1305 only when key derivation succeeded. A failing derivation raises first.
- SemanticLeakage.SemanticLeakageVisitor.Visit: `visit_Attribute` (`scripts/hooks/check_semantic_leakage.py:72-80`) does nothing and is folded into the generic visit.
- SemanticLeakage.MentionsDocField: `\w` and `\b` are taken over ASCII letters, digits and `_`. Python's Unicode word characters are not modelled.
- The regular expressions of the leakage hook are given as a `Matchers` oracle per pattern and per line. The regex engine is not modelled.
- `ast.parse` is given: a file arrives as a parsed tree or a syntax error.
- The hooks' file reading is the function `issuesOf`, and printing is the returned list of lines.
- Hooks.RunHook: does not model a file that cannot be read. Both hooks open each `.py` file outside any `try`, so a missing or non-UTF-8 file raises out of `main`, ends the run with status 1 and a traceback, and leaves the later files unchecked; `issuesOf` is total, so every listed file is checked.
