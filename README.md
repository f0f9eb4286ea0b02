# Mahuta orchestration service in Dafny

This project models `AbstractMahutaService`, the part of Mahuta that ties three things together:
- a content-addressable store (`write(bytes, pin) -> cid`, `read(cid)`);
- a document index (create and list indexes, index, fetch, search, update a field, deindex);
- the store's ordered replica set of pinning backends (`pin`, `unpin`).

It also models the two value types the service builds, `Metadata` and `IndexingResponse`.

The service is the class `Service.MahutaService`. Its fields are the two ports, the `noPin` flag and the
charset that `String.getBytes()` uses. Each operation is a method. Java `null` is `None`, so
every operation takes its request as an `Option`. An exception is a `Failure` of `Result`.

The collaborators are classes in module `Ports`. They keep the state the service's behaviour shows through:
- `StoragePort` holds the store as a `map` from content id to bytes, plus a log of every write and its pin flag.
  Content ids come from a fixed, collision-free address function.
- `ReplicaSet` holds the replica names and one append-only log of pin and unpin events. Each event names its
  replica by position in the set.
- `IndexPort` holds an `IndexState`: a map from (index name, document id) to `Metadata`, the order the keys were
  first indexed in, the created indexes, and a counter for backend-assigned ids. It also logs every
  state-changing call it receives.

The functions `Resolve`, `LoadPayload`, `GetSpec`, `MaterialiseAll` and `SearchSpec` are the
specifications that `Get` and `Search` are proved against. Module `LookupProperties` proves properties
of these functions. Module `Scenarios` holds callers that chain operations, as the HTTP integration test does.

Some behaviour of the code is easy to miss, and the model keeps it as written:
- The storage write of a stream or string request gets `noPin` itself as its pin argument (`AbstractMahutaService.java:96`, `:108`).
  The index call of the same request gets `!noPin` (`:123`, `:126`).
- `deindex` unpins on every replica even when `noPin` is set (`AbstractMahutaService.java:167-168`).
- The content type is guessed from the input stream after that stream has been read to its end (`AbstractMahutaService.java:95-98`).
  The model treats the guess as an unconstrained input.
- In `search`, a storage read that fails for one element fails the whole search (the stream `map`
  at `AbstractMahutaService.java:235-244`). The model's `MaterialiseAll` stops at the first failing element.

## Model

| member | source | states |
|---|---|---|
| Common.Empty | mahuta-core/src/main/java/net/consensys/mahuta/core/domain/common/Metadata.java:11 | The no-argument constructor leaves all six fields null. |
| Common.Of | mahuta-core/src/main/java/net/consensys/mahuta/core/domain/common/Metadata.java:21-24 | `Metadata.of` gives a record whose six fields are the arguments, in declaration order. |
| Common.SetIndexName | mahuta-core/src/main/java/net/consensys/mahuta/core/domain/common/Metadata.java:10 | The setter overwrites `indexName` and keeps the other five fields. |
| Common.SetIndexDocId | mahuta-core/src/main/java/net/consensys/mahuta/core/domain/common/Metadata.java:10 | The setter overwrites `indexDocId` and keeps the other five fields. |
| Common.SetContentId | mahuta-core/src/main/java/net/consensys/mahuta/core/domain/common/Metadata.java:10 | The setter overwrites `contentId` and keeps the other five fields. |
| Common.SetContentType | mahuta-core/src/main/java/net/consensys/mahuta/core/domain/common/Metadata.java:10 | The setter overwrites `contentType` and keeps the other five fields. |
| Common.SetContent | mahuta-core/src/main/java/net/consensys/mahuta/core/domain/common/Metadata.java:10 | The setter overwrites `content` (the optional inlined bytes) and keeps the other five fields. |
| Common.SetIndexFields | mahuta-core/src/main/java/net/consensys/mahuta/core/domain/common/Metadata.java:10 | The setter overwrites `indexFields` and keeps the other five fields. |
| Common.OfRebuildsRecord | mahuta-core/src/main/java/net/consensys/mahuta/core/domain/common/Metadata.java:14-24 | The getters invert `of`: every record equals `of` applied to its own fields. |
| Common.SettersAgreeWithOf | mahuta-core/src/main/java/net/consensys/mahuta/core/domain/common/Metadata.java:10-11 | The no-argument constructor followed by the six setters builds the same record as `of`. |
| Indexing.WithStatus | mahuta-core/src/main/java/net/consensys/mahuta/core/domain/indexing/IndexingResponse.java:14-17 | `new IndexingResponse(status)` sets only the status; the inherited fields stay null and `pinned` stays false. |
| Indexing.Of | mahuta-core/src/main/java/net/consensys/mahuta/core/domain/indexing/IndexingResponse.java:19-31 | The full factory gives status SUCCESS, copies name, doc id, content id, content type, fields and `pinned` unchanged, and carries no payload bytes. |
| Indexing.OfContentId | mahuta-core/src/main/java/net/consensys/mahuta/core/domain/indexing/IndexingResponse.java:33-38 | The content-id factory gives status SUCCESS and the content id; every other field keeps its default. |
| Indexing.OfContentIdIsDefaultedOf | mahuta-core/src/main/java/net/consensys/mahuta/core/domain/indexing/IndexingResponse.java:19-38 | The content-id factory equals the full factory called with null or false for every other argument. |
| Indexing.OfMatchesMetadataOf | mahuta-core/src/main/java/net/consensys/mahuta/core/domain/indexing/IndexingResponse.java:15-30 | The full response holds the record `Metadata.of` would build from the same identifiers, with the payload dropped. |
| Querying.AddEquals | mahuta-core/src/main/java/net/consensys/mahuta/core/service/AbstractMahutaService.java:191 | Adding an equality predicate keeps the earlier predicates and appends the new one. |
| Querying.SingleElementPage | mahuta-core/src/main/java/net/consensys/mahuta/core/service/AbstractMahutaService.java:193 | The single-element page request is page 0 of size 1. |
| Querying.PageOf | mahuta-core/src/main/java/net/consensys/mahuta/core/service/AbstractMahutaService.java:232-233 | A page keeps the request, reports all matches as its total, and holds at most `size` elements and no more than the total. |
| Querying.PagesCoverMatches | mahuta-core/src/main/java/net/consensys/mahuta/core/service/AbstractMahutaService.java:232-233 | Reading pages 0, 1, … in turn yields the matches in order, with no gaps and no repeats. |
| Querying.PageNonEmptyIff | mahuta-core/src/main/java/net/consensys/mahuta/core/service/AbstractMahutaService.java:232-233 | With a positive size, page `p` is non-empty exactly when `p * size` is below the total. |
| Querying.LastPageHoldsRemainder | mahuta-core/src/main/java/net/consensys/mahuta/core/service/AbstractMahutaService.java:232-233 | The last non-empty page holds between 1 and `size` elements, the rest of the matches, and the page after it is empty. |
| Ports.MatchesHashQuery | mahuta-core/src/main/java/net/consensys/mahuta/core/service/AbstractMahutaService.java:191 | A document matches the `HASH_INDEX_KEY` query exactly when its content id is that hash. |
| Ports.HitsSound | mahuta-core/src/main/java/net/consensys/mahuta/core/service/AbstractMahutaService.java:191-193 | Every hit of a search is a document of the searched index that matches the query. |
| Ports.HitsComplete | mahuta-core/src/main/java/net/consensys/mahuta/core/service/AbstractMahutaService.java:191-193 | Every matching document of the searched index is a hit. |
| Service.IsEmpty | mahuta-core/src/main/java/net/consensys/mahuta/core/service/AbstractMahutaService.java:183-208 | The emptiness test used on index name, doc id and content id: a string is empty when it is null or has length zero. |
| Service.Indexable | mahuta-core/src/main/java/net/consensys/mahuta/core/service/AbstractMahutaService.java:93-109 | The request variants that reach the index call: stream, CID and string requests. Store-only and unknown variants do not. |
| Querying.IsEmptyPage | mahuta-core/src/main/java/net/consensys/mahuta/core/service/AbstractMahutaService.java:195 | A page is empty when it holds no elements, whatever its total. |
| Ports.HashQuery | mahuta-core/src/main/java/net/consensys/mahuta/core/service/AbstractMahutaService.java:191 | The lookup query for a content id: one equality predicate on `HASH_INDEX_KEY` with the content id as text. |
| Service.PinAll | mahuta-core/src/main/java/net/consensys/mahuta/core/service/AbstractMahutaService.java:133-137 | The replica log entries of the pin fan-out for `count` replicas: entry `i` pins the content id on replica `i`, with the label and fields, for `i` from 0 up. |
| Service.UnpinAll | mahuta-core/src/main/java/net/consensys/mahuta/core/service/AbstractMahutaService.java:167-168 | The replica log entries of the unpin fan-out for `count` replicas: entry `i` unpins the content id on replica `i`, for `i` from 0 up. |
| Service.PinAllCallsEachReplicaOnce | mahuta-core/src/main/java/net/consensys/mahuta/core/service/AbstractMahutaService.java:131-137 | The pin fan-out calls each replica of the set exactly once, and no replica outside the set. |
| Service.PinAllPinsContent | mahuta-core/src/main/java/net/consensys/mahuta/core/service/AbstractMahutaService.java:132-136 | Fan-out event `i` pins the content id on replica `i`, under label `indexName-indexDocId` and the request's fields. |
| Service.UnpinAllInSetOrder | mahuta-core/src/main/java/net/consensys/mahuta/core/service/AbstractMahutaService.java:167-168 | `deindex` unpins the document's content id once on each replica, in replica-set order. |
| Service.MaterialisePrefixFailure | mahuta-core/src/main/java/net/consensys/mahuta/core/service/AbstractMahutaService.java:235-244 | A storage read failure on one element fails the whole search with that error. |
| Service.MaterialiseAllPointwise | mahuta-core/src/main/java/net/consensys/mahuta/core/service/AbstractMahutaService.java:235-244 | The conversion succeeds exactly when every element's payload does. It then keeps count and order, and each payload follows the per-element rule. |
| Service.MahutaService.constructor | mahuta-core/src/main/java/net/consensys/mahuta/core/service/AbstractMahutaService.java:58-65 | The service holds the given ports, `noPin` and charset, and is consistent when its ports are. |
| Querying.NewQuery | mahuta-core/src/main/java/net/consensys/mahuta/core/service/AbstractMahutaService.java:191 | `Query.newQuery()` is the empty conjunction, with no predicates. |
| Service.Resolve | mahuta-core/src/main/java/net/consensys/mahuta/core/service/AbstractMahutaService.java:183-213 | The lookup step of `get`. With an index name and a doc id it gives the stored document or not-found. With an index name and a content id it gives the first hash match, or else the bare content id. With an index name and neither id it is a validation error. Without an index name it gives the bare content id, or a validation error when there is none. |
| Service.LoadPayload | mahuta-core/src/main/java/net/consensys/mahuta/core/service/AbstractMahutaService.java:217-222 | The payload rule. Without `loadFile` there is no payload. Otherwise the inlined bytes are used when present, and when they are absent the store is read under the content id, and a failed read fails. |
| Service.MaterialiseAll | mahuta-core/src/main/java/net/consensys/mahuta/core/service/AbstractMahutaService.java:235-244 | Converts the hit list element by element, in order, each with the payload rule. The first failing read fails the whole conversion. |
| Service.GetSpec | mahuta-core/src/main/java/net/consensys/mahuta/core/service/AbstractMahutaService.java:174-225 | Rejects a null request. Otherwise it resolves the request and applies the payload rule. It returns the metadata if one was found, and the payload. |
| Service.SearchSpec | mahuta-core/src/main/java/net/consensys/mahuta/core/service/AbstractMahutaService.java:228-247 | Rejects a null request. Otherwise it asks the index for the page and converts its elements. The result keeps the page request and the index's total. |
| Service.MahutaService.StagedContent | mahuta-core/src/main/java/net/consensys/mahuta/core/service/AbstractMahutaService.java:89-111 | The bytes a request carries. A stream request gives its stream, and a string request its encoded text. A CID request gives the bytes stored under the CID. A store-only request gives its stream. |
| Service.MahutaService.StagedContentId | mahuta-core/src/main/java/net/consensys/mahuta/core/service/AbstractMahutaService.java:90-111 | The content id is the given CID for a CID request, and otherwise the store's address of the bytes written. |
| Service.MahutaService.StagedContentType | mahuta-core/src/main/java/net/consensys/mahuta/core/service/AbstractMahutaService.java:91-98 | The request's content type, except that a stream request without one takes the guessed type. |
| Service.MahutaService.StagedWrites | mahuta-core/src/main/java/net/consensys/mahuta/core/service/AbstractMahutaService.java:93-113 | The storage writes: one with pin `noPin` for a stream or a string, one with pin false for store-only, and none for a CID. |
| Service.MahutaService.IndexCallFor | mahuta-core/src/main/java/net/consensys/mahuta/core/service/AbstractMahutaService.java:119-127 | The one index call. It carries name, doc id, content id, content type and fields, the bytes only when `indexContent` holds, and `!noPin`. |
| Service.MahutaService.Create | mahuta-core/src/main/java/net/consensys/mahuta/core/service/AbstractMahutaService.java:58-65 | A null storage service or a null index service is rejected, in that order. Otherwise the service holds the given ports and `noPin` and is consistent when its ports are. |
| Service.MahutaService.CreateIndex | mahuta-core/src/main/java/net/consensys/mahuta/core/service/AbstractMahutaService.java:67-74 | A null request changes nothing. Otherwise one `createIndex` call is made with the request's name and configuration. |
| Service.MahutaService.GetIndexes | mahuta-core/src/main/java/net/consensys/mahuta/core/service/AbstractMahutaService.java:76-81 | There is no null check; the result is the index's list of indexes. |
| Service.MahutaService.Index | mahuta-core/src/main/java/net/consensys/mahuta/core/service/AbstractMahutaService.java:83-143 | A null request or an unknown variant changes nothing, and neither does a CID whose bytes cannot be read. A store-only request makes one write with pin false, no index call and no replica call, and returns a content-id-only response. Stream, string and CID requests write (except CID), make one index call (bytes only when `indexContent`, always `!noPin`), pin every replica unless `noPin`, and return the full response with `pinned = !noPin`. |
| Service.MahutaService.StageContent | mahuta-core/src/main/java/net/consensys/mahuta/core/service/AbstractMahutaService.java:93-108 | A stream or string is written once with pin `noPin`. A CID makes no write and reads the stored bytes under the given id. The stream's type falls back to the guessed one. |
| Service.MahutaService.IndexStaged | mahuta-core/src/main/java/net/consensys/mahuta/core/service/AbstractMahutaService.java:119-142 | The index call receives the bytes exactly when `indexContent` holds, and `!noPin` as its pin flag. Pins use the id the index returned. The response echoes name, returned id, content id, type and fields. |
| Service.MahutaService.PinReplicas | mahuta-core/src/main/java/net/consensys/mahuta/core/service/AbstractMahutaService.java:130-138 | One pin on every replica, in set order, and nothing else changes. |
| Service.MahutaService.UpdateField | mahuta-core/src/main/java/net/consensys/mahuta/core/service/AbstractMahutaService.java:145-156 | A null request changes nothing. Otherwise one `updateField` call passes through the index's result. |
| Service.MahutaService.Deindex | mahuta-core/src/main/java/net/consensys/mahuta/core/service/AbstractMahutaService.java:158-171 | A null request or a missing document changes nothing and returns the error. Otherwise the document is removed from the index, and its content id is unpinned on every replica in set order. The two effects are kept in separate logs, so their relative order is not stated. |
| Service.MahutaService.Get | mahuta-core/src/main/java/net/consensys/mahuta/core/service/AbstractMahutaService.java:173-225 | The result is `GetSpec` of the request, the index and the store: resolution by doc id, by hash with silent fallback, or by bare content id, and then the payload rule. |
| Service.MahutaService.Search | mahuta-core/src/main/java/net/consensys/mahuta/core/service/AbstractMahutaService.java:227-247 | The result is `SearchSpec` of the request, the index and the store: the index's page with each element converted in order. |
| LookupProperties.ResolveOutcomes | mahuta-core/src/main/java/net/consensys/mahuta/core/service/AbstractMahutaService.java:182-213 | Each validation error happens exactly in its case. No index name with a content id resolves to that id. Index name with doc id resolves to the stored document or to not-found. |
| LookupProperties.HashLookupFallsBackSilently | mahuta-core/src/main/java/net/consensys/mahuta/core/service/AbstractMahutaService.java:190-202 | A lookup by index and content id never fails. It falls back to the bare content id exactly when the index has no document with that hash. Otherwise the metadata is a document of that index with that hash. |
| LookupProperties.FetchByHashReturnsStoredBytes | mahuta-http-api/src/test/java/net/consensys/mahuta/api/http/test/ReplicaTest.java:53-76 | Asking an index for a stored content id with `loadFile` returns exactly the stored bytes. This holds whether a document inlines them, refers to them, or is absent. |
| LookupProperties.PayloadOnlyWhenLoaded | mahuta-core/src/main/java/net/consensys/mahuta/core/service/AbstractMahutaService.java:216-222 | Without `loadFile` there is no payload, and `get` fails only if resolution fails. With `loadFile` a successful `get` has a payload. |
| LookupProperties.InlinedContentIsServedAsIs | mahuta-core/src/main/java/net/consensys/mahuta/core/service/AbstractMahutaService.java:218-222 | A found document with inlined content is answered with those bytes and without reading storage. |
| LookupProperties.SearchKeepsPage | mahuta-core/src/main/java/net/consensys/mahuta/core/service/AbstractMahutaService.java:232-246 | `search` returns the index's page request and total and the same elements in the same order. Each element gets the payload the per-element rule gives it. |
| LookupProperties.SearchWithoutLoadNeverReads | mahuta-core/src/main/java/net/consensys/mahuta/core/service/AbstractMahutaService.java:235-244 | Without `loadFile` a search never fails and no element carries a payload. |
| Scenarios.IndexStringThenFetchByHash | mahuta-http-api/src/test/java/net/consensys/mahuta/api/http/test/ReplicaTest.java:53-76 | Indexing a string and then fetching its content id under its index returns the string's bytes. |
| Scenarios.HelloScenario | mahuta-core/src/main/java/net/consensys/mahuta/core/service/AbstractMahutaService.java:105-142 | Indexing "hello" as `docs/d1` with inlined content gives a SUCCESS response with `pinned = !noPin`. Fetching `docs/d1` then returns those bytes as content and as payload. |
| Scenarios.WireThenHello | mahuta-core/src/main/java/net/consensys/mahuta/core/service/AbstractMahutaService.java:58-65 | A service built by the validating factory over fresh ports is consistent, and the "hello" round trip returns its bytes. |
| Scenarios.IndexThenGetById | mahuta-core/src/main/java/net/consensys/mahuta/core/service/AbstractMahutaService.java:119-142 | A stream, string or stored-CID request for a non-empty index and doc id is indexed under that doc id. A get by that id with `loadFile` then returns the request's bytes as payload, and metadata whose content id is the address of those bytes. |
| Scenarios.IndexThenDeindex | mahuta-core/src/main/java/net/consensys/mahuta/core/service/AbstractMahutaService.java:158-171 | After a document is deindexed, fetching it by id reports not-found. |

The port classes and the lemmas about `IndexState` transitions (`IndexedDocumentIsFound`,
`DeindexedDocumentIsGone`, `UpdateFieldChangesOneKey`, `RemoveSpec`, `ApplyIndexWellFormed`,
`ApplyDeindexWellFormed`) describe the collaborators the service calls. They are not rows of the table.

## Left out

- Asynchronous pinning (`CompletableFuture.runAsync`): each pin is a synchronous append to the replica log, in set order. Scheduling, non-joining and per-replica failure isolation are not modelled.
- Content-type sniffing (`URLConnection.guessContentTypeFromStream`): it is external code, so its answer is the `sniffed` parameter of `Index`.
- Stream and byte-array conversions (`BytesUtils`, the `ByteArrayOutputStream` cast): payloads are `seq<bv8>`. Read failures of the input stream are not modelled.
- The platform default charset of `String.getBytes()`: it is the service constant `encode`.
- The real IPFS and Elasticsearch backends: the ports give each call only the effect the service relies on. A write always succeeds. An index call always succeeds and overwrites an existing document with the same key. A read of a null or unknown id fails with not-found. Backend I/O errors are not modelled.
- `Query` range predicates and `PageRequest` sorting: the interfaces are not shown. Queries are conjunctions of equality predicates. Hits are listed in first-indexed order.
- The value of `IndexingService.HASH_INDEX_KEY` and the meaning of `ValidatorUtils.isEmpty` and `Page.isEmpty`: these files are not part of this model. The model uses `"_hash"`, "null or empty string", and "no elements".
- Null index names, null queries and other null fields inside a non-null request: the model's request types hold plain strings there. Only the request itself, and the optional fields of `GetRequest` and `IndexingRequest`, may be null.
- The text of the exceptions `rejectIfNull` throws: only the argument's name is kept.
- The bodies of `CreateIndexResponse`, `UpdateFieldResponse` and `DeindexingResponse`: their files are not shown, so these operations return a unit `Success`.
- The declaration of `pinned`: it is in neither shown file, so it is an extra boolean of the response, false by default.
- Logging: the warning when a hash lookup misses (`mahuta-core/src/main/java/net/consensys/mahuta/core/service/AbstractMahutaService.java:196`).
- Field values: `Map<String, Object>` values are text, unbounded integers or booleans. The service only passes index fields through, so no behaviour modelled here depends on other value types.
- `IPFSSettings`: connection defaults with no logic.
