/**
 * The collaborators the service is built on: the content-addressable store with its
 * replica set of pinning backends, and the document index. Their own behaviour is not
 * part of the core; these classes record the calls the service makes and give each call
 * the effect the service relies on.
 */
module Ports {
  import opened Wrappers
  import opened Common
  import opened Querying

  /** IndexingService.HASH_INDEX_KEY: the reserved field under which a document's content id is queried. */
  const HASH_INDEX_KEY: string := "_hash"

  // ---------------------------------------------------------------- storage

  /** Content addressing is collision-free: different bytes never share a content id. */
  ghost predicate Injective(address: Bytes -> string) {
    forall a: Bytes, b: Bytes :: address(a) == address(b) ==> a == b
  }

  /** Every stored payload sits under its own content id. */
  ghost predicate StoreAddressed(store: map<string, Bytes>, address: Bytes -> string) {
    forall cid :: cid in store ==> address(store[cid]) == cid
  }

  /** What `read` yields: the stored bytes, or a not-found error for a null or unknown id. */
  function ReadStore(store: map<string, Bytes>, contentId: Option<string>): (r: Result<Bytes>)
    ensures r.Success? <==> contentId.Some? && contentId.value in store
    ensures r.Success? ==> r.value == store[contentId.value]
    ensures r.Failure? ==> r.error == ContentNotFound(contentId)
  {
    if contentId.Some? && contentId.value in store then Success(store[contentId.value])
    else Failure(ContentNotFound(contentId))
  }

  /** One `write(bytes, pin)` call. */
  datatype WriteCall = WriteCall(content: Bytes, pin: bool)

  /** One call on a replica of the replica set, naming the replica by its position in the set. */
  datatype ReplicaEvent =
    | Pinned(replica: nat, contentId: string, tag: string, fields: Option<Fields>)
    | Unpinned(replica: nat, releasedId: Option<string>)

  /** The ordered replica set of pinning backends and the log of every pin/unpin it received. */
  class ReplicaSet {
    const names: seq<string>
    var events: seq<ReplicaEvent>

    constructor (names: seq<string>)
      ensures this.names == names && events == []
    {
      this.names := names;
      events := [];
    }

    method Pin(replica: nat, contentId: string, tag: string, fields: Option<Fields>)
      requires replica < |names|
      modifies this
      ensures events == old(events) + [Pinned(replica, contentId, tag, fields)]
    {
      events := events + [Pinned(replica, contentId, tag, fields)];
    }

    method Unpin(replica: nat, contentId: Option<string>)
      requires replica < |names|
      modifies this
      ensures events == old(events) + [Unpinned(replica, contentId)]
    {
      events := events + [Unpinned(replica, contentId)];
    }
  }

  /** The content-addressable store: payloads by content id, and the log of writes made. */
  class StoragePort {
    const address: Bytes -> string
    const replicaSet: ReplicaSet
    var store: map<string, Bytes>
    var writes: seq<WriteCall>

    ghost predicate Valid()
      reads this
    {
      Injective(address) && StoreAddressed(store, address)
    }

    constructor (address: Bytes -> string, replicaSet: ReplicaSet)
      requires Injective(address)
      ensures Valid()
      ensures this.address == address && this.replicaSet == replicaSet
      ensures store == map[] && writes == []
    {
      this.address := address;
      this.replicaSet := replicaSet;
      store := map[];
      writes := [];
    }

    method Write(content: Bytes, pin: bool) returns (contentId: string)
      requires Valid()
      modifies this
      ensures Valid()
      ensures contentId == address(content)
      ensures store == old(store)[contentId := content]
      ensures writes == old(writes) + [WriteCall(content, pin)]
    {
      contentId := address(content);
      store := store[contentId := content];
      writes := writes + [WriteCall(content, pin)];
    }

    method Read(contentId: Option<string>) returns (r: Result<Bytes>)
      ensures r == ReadStore(store, contentId)
    {
      if contentId.Some? && contentId.value in store {
        r := Success(store[contentId.value]);
      } else {
        r := Failure(ContentNotFound(contentId));
      }
    }
  }

  // ---------------------------------------------------------------- index

  /** A document is addressed by its index name and its document id. */
  type DocKey = (string, string)

  /** One state-changing call on the index. */
  datatype IndexCall =
    | IndexDocument(indexName: string, givenDocId: Option<string>, contentId: string,
                    contentType: Option<string>, content: Option<Bytes>, pin: bool, indexFields: Option<Fields>)
    | DeindexDocument(indexName: string, indexDocId: string)
    | UpdateDocumentField(indexName: string, indexDocId: string, key: string, value: Value)
    | CreateIndexCall(name: string, configuration: Option<Bytes>)

  /**
   * The index: the documents by key, the order in which their keys were first indexed
   * (the order searches list them in), the created indexes, and the counter behind
   * backend-assigned document ids.
   */
  datatype IndexState = IndexState(
    documents: map<DocKey, Metadata>,
    order: seq<DocKey>,
    indexes: seq<string>,
    nextId: nat)

  ghost predicate Distinct(s: seq<DocKey>) {
    forall i, j :: 0 <= i < j < |s| ==> s[i] != s[j]
  }

  /** `order` lists every document key once, and each document knows its own key. */
  ghost predicate WellFormed(st: IndexState) {
    && (forall k :: k in st.documents <==> k in st.order)
    && Distinct(st.order)
    && (forall k :: k in st.documents ==>
          st.documents[k].indexName == Some(k.0) && st.documents[k].indexDocId == Some(k.1))
  }

  function Lookup(documents: map<DocKey, Metadata>, indexName: string, indexDocId: string): (r: Result<Metadata>)
    ensures r.Success? <==> (indexName, indexDocId) in documents
    ensures r.Success? ==> r.value == documents[(indexName, indexDocId)]
    ensures r.Failure? ==> r.error == DocumentNotFound(indexName, indexDocId)
  {
    if (indexName, indexDocId) in documents then Success(documents[(indexName, indexDocId)])
    else Failure(DocumentNotFound(indexName, indexDocId))
  }

  /** One equality predicate holds of a document; the hash key is answered by the content id. */
  predicate Holds(m: Metadata, p: Predicate) {
    if p.field == HASH_INDEX_KEY then m.contentId.Some? && p.value == Text(m.contentId.value)
    else m.indexFields.Some? && p.field in m.indexFields.value && m.indexFields.value[p.field] == p.value
  }

  predicate Matches(m: Metadata, q: Query) {
    forall i :: 0 <= i < |q| ==> Holds(m, q[i])
  }

  /** The documents of index `indexName` that match `query`, in index order. */
  function Hits(documents: map<DocKey, Metadata>, order: seq<DocKey>, indexName: string, query: Query): (hits: seq<Metadata>)
    decreases |order|
  {
    if order == [] then []
    else
      var k := order[|order| - 1];
      Hits(documents, order[..|order| - 1], indexName, query)
        + (if k in documents && k.0 == indexName && Matches(documents[k], query) then [documents[k]] else [])
  }

  /** searchDocuments: the requested page of the hits, with the number of hits as total. */
  function Search(st: IndexState, indexName: string, query: Query, req: PageRequest): (page: Page<Metadata>) {
    PageOf(Hits(st.documents, st.order, indexName, query), req)
  }

  /** Every hit matches the query and is a document of the searched index. */
  lemma {:induction false} HitsSound(documents: map<DocKey, Metadata>, order: seq<DocKey>, indexName: string, query: Query)
    ensures forall m :: m in Hits(documents, order, indexName, query) ==>
              Matches(m, query) && exists k :: k in order && k in documents && k.0 == indexName && documents[k] == m
  {
    if order != [] {
      var init := order[..|order| - 1];
      var k := order[|order| - 1];
      assert order == init + [k];
      HitsSound(documents, init, indexName, query);
      forall m | m in Hits(documents, order, indexName, query)
        ensures Matches(m, query) && exists k :: k in order && k in documents && k.0 == indexName && documents[k] == m
      {
        if m in Hits(documents, init, indexName, query) {
          var k' :| k' in init && k' in documents && k'.0 == indexName && documents[k'] == m;
          assert k' in order;
        } else {
          assert k in order;
        }
      }
    }
  }

  /** Every document of the index that matches the query and is listed in `order` is a hit. */
  lemma {:induction false} HitsComplete(documents: map<DocKey, Metadata>, order: seq<DocKey>, indexName: string,
                                        query: Query, k: DocKey)
    requires k in order && k in documents && k.0 == indexName && Matches(documents[k], query)
    ensures documents[k] in Hits(documents, order, indexName, query)
  {
    var init := order[..|order| - 1];
    assert order == init + [order[|order| - 1]];
    if k != order[|order| - 1] {
      HitsComplete(documents, init, indexName, query, k);
    }
  }

  /** The single-predicate query on the content hash. */
  function HashQuery(contentId: string): (q: Query) {
    AddEquals(NewQuery(), HASH_INDEX_KEY, Text(contentId))
  }

  /** A document matches the one-predicate hash query exactly when its content id is that hash. */
  lemma MatchesHashQuery(m: Metadata, contentId: string)
    ensures Matches(m, HashQuery(contentId)) <==> m.contentId == Some(contentId)
  {
    var q := HashQuery(contentId);
    assert q[0] == Equals(HASH_INDEX_KEY, Text(contentId));
  }

  /** `order` without `k`. */
  function Remove(s: seq<DocKey>, k: DocKey): seq<DocKey>
    decreases |s|
  {
    if s == [] then []
    else Remove(s[..|s| - 1], k) + (if s[|s| - 1] == k then [] else [s[|s| - 1]])
  }

  lemma {:induction false} RemoveSpec(s: seq<DocKey>, k: DocKey)
    ensures forall x :: x in Remove(s, k) <==> x in s && x != k
    ensures Distinct(s) ==> Distinct(Remove(s, k))
  {
    if s != [] {
      var init, last := s[..|s| - 1], s[|s| - 1];
      assert s == init + [last];
      RemoveSpec(init, k);
      if Distinct(s) {
        assert Distinct(init) by {
          forall i, j | 0 <= i < j < |init| ensures init[i] != init[j] {
            assert init[i] == s[i] && init[j] == s[j];
          }
        }
        assert last !in init by {
          forall i | 0 <= i < |init| ensures init[i] != last {
            assert init[i] == s[i];
          }
        }
      }
    }
  }

  /** The backend's document id: the caller's, or the next generated one. */
  function AssignedId(indexDocId: Option<string>, nextId: nat, idSource: nat -> string): string {
    if indexDocId.Some? then indexDocId.value else idSource(nextId)
  }

  /** The effect of `index(...)`: the new state and the document id it returns. */
  function ApplyIndex(st: IndexState, call: IndexCall, idSource: nat -> string): (r: (IndexState, string))
    requires call.IndexDocument?
  {
    var docId := AssignedId(call.givenDocId, st.nextId, idSource);
    var key := (call.indexName, docId);
    var record := Common.Of(Some(call.indexName), Some(docId), Some(call.contentId), call.contentType,
                            call.content, call.indexFields);
    (IndexState(st.documents[key := record],
                if key in st.documents then st.order else st.order + [key],
                st.indexes,
                if call.givenDocId.Some? then st.nextId else st.nextId + 1), docId)
  }

  /** The effect of `deindex(name, docId)`. */
  function ApplyDeindex(st: IndexState, indexName: string, indexDocId: string): (r: IndexState) {
    st.(documents := st.documents - {(indexName, indexDocId)}, order := Remove(st.order, (indexName, indexDocId)))
  }

  /** The effect of `updateField`: one key of one document's fields is overwritten. */
  function ApplyUpdateField(st: IndexState, indexName: string, indexDocId: string, key: string, value: Value): (r: Result<IndexState>) {
    var k := (indexName, indexDocId);
    if k !in st.documents then Failure(DocumentNotFound(indexName, indexDocId))
    else
      var m := st.documents[k];
      var fields := if m.indexFields.Some? then m.indexFields.value else map[];
      Success(st.(documents := st.documents[k := SetIndexFields(m, Some(fields[key := value]))]))
  }

  /** The effect of `createIndex`: the index is listed once. */
  function ApplyCreateIndex(st: IndexState, name: string): IndexState {
    if name in st.indexes then st else st.(indexes := st.indexes + [name])
  }

  lemma ApplyIndexWellFormed(st: IndexState, call: IndexCall, idSource: nat -> string)
    requires call.IndexDocument? && WellFormed(st)
    ensures WellFormed(ApplyIndex(st, call, idSource).0)
  {
  }

  lemma ApplyDeindexWellFormed(st: IndexState, indexName: string, indexDocId: string)
    requires WellFormed(st)
    ensures WellFormed(ApplyDeindex(st, indexName, indexDocId))
  {
    RemoveSpec(st.order, (indexName, indexDocId));
  }

  /** A document just indexed is found under the returned id, exactly as it was passed in. */
  lemma IndexedDocumentIsFound(st: IndexState, call: IndexCall, idSource: nat -> string)
    requires call.IndexDocument?
    ensures var (after, docId) := ApplyIndex(st, call, idSource);
            && (call.givenDocId.Some? ==> docId == call.givenDocId.value)
            && Lookup(after.documents, call.indexName, docId)
               == Success(Common.Of(Some(call.indexName), Some(docId), Some(call.contentId), call.contentType,
                                    call.content, call.indexFields))
            && (forall k :: k in st.documents && k != (call.indexName, docId) ==>
                  k in after.documents && after.documents[k] == st.documents[k])
  {
  }

  /** After deindex the document is gone and no other document changed. */
  lemma DeindexedDocumentIsGone(st: IndexState, indexName: string, indexDocId: string)
    ensures var after := ApplyDeindex(st, indexName, indexDocId);
            && Lookup(after.documents, indexName, indexDocId) == Failure(DocumentNotFound(indexName, indexDocId))
            && (forall k :: k in st.documents && k != (indexName, indexDocId) ==>
                  k in after.documents && after.documents[k] == st.documents[k])
  {
  }

  /** updateField changes one key of one document's fields and nothing else. */
  lemma UpdateFieldChangesOneKey(st: IndexState, indexName: string, indexDocId: string, key: string, value: Value)
    requires (indexName, indexDocId) in st.documents
    ensures var r := ApplyUpdateField(st, indexName, indexDocId, key, value);
            var before := st.documents[(indexName, indexDocId)];
            && r.Success?
            && r.value.documents.Keys == st.documents.Keys && r.value.order == st.order
            && var after := r.value.documents[(indexName, indexDocId)];
               && after == SetIndexFields(before, after.indexFields)
               && after.indexFields.Some? && key in after.indexFields.value && after.indexFields.value[key] == value
               && (forall f :: f != key && before.indexFields.Some? && f in before.indexFields.value ==>
                     f in after.indexFields.value && after.indexFields.value[f] == before.indexFields.value[f])
  {
  }

  /** The document index and the log of state-changing calls it received. */
  class IndexPort {
    const idSource: nat -> string
    var state: IndexState
    var calls: seq<IndexCall>

    ghost predicate Valid()
      reads this
    {
      WellFormed(state)
    }

    constructor (idSource: nat -> string)
      ensures Valid()
      ensures this.idSource == idSource && state == IndexState(map[], [], [], 0) && calls == []
    {
      this.idSource := idSource;
      state := IndexState(map[], [], [], 0);
      calls := [];
    }

    method CreateIndex(name: string, configuration: Option<Bytes>)
      requires Valid()
      modifies this
      ensures Valid()
      ensures state == ApplyCreateIndex(old(state), name)
      ensures calls == old(calls) + [CreateIndexCall(name, configuration)]
    {
      state := ApplyCreateIndex(state, name);
      calls := calls + [CreateIndexCall(name, configuration)];
    }

    method GetIndexes() returns (names: seq<string>)
      ensures names == state.indexes
    {
      names := state.indexes;
    }

    method Index(indexName: string, indexDocId: Option<string>, contentId: string, contentType: Option<string>,
                 content: Option<Bytes>, pin: bool, indexFields: Option<Fields>) returns (docId: string)
      requires Valid()
      modifies this
      ensures Valid()
      ensures (state, docId) == ApplyIndex(old(state), IndexDocument(indexName, indexDocId, contentId, contentType,
                                                                   content, pin, indexFields), idSource)
      ensures calls == old(calls) + [IndexDocument(indexName, indexDocId, contentId, contentType, content, pin, indexFields)]
    {
      var call := IndexDocument(indexName, indexDocId, contentId, contentType, content, pin, indexFields);
      ApplyIndexWellFormed(state, call, idSource);
      var next := ApplyIndex(state, call, idSource);
      state, docId := next.0, next.1;
      calls := calls + [call];
    }

    method Deindex(indexName: string, indexDocId: string)
      requires Valid()
      modifies this
      ensures Valid()
      ensures state == ApplyDeindex(old(state), indexName, indexDocId)
      ensures calls == old(calls) + [DeindexDocument(indexName, indexDocId)]
    {
      ApplyDeindexWellFormed(state, indexName, indexDocId);
      state := ApplyDeindex(state, indexName, indexDocId);
      calls := calls + [DeindexDocument(indexName, indexDocId)];
    }

    method UpdateField(indexName: string, indexDocId: string, key: string, value: Value) returns (r: Result<()>)
      requires Valid()
      modifies this
      ensures Valid()
      ensures calls == old(calls) + [UpdateDocumentField(indexName, indexDocId, key, value)]
      ensures match ApplyUpdateField(old(state), indexName, indexDocId, key, value)
              case Success(next) => r == Success(()) && state == next
              case Failure(e) => r == Failure(e) && state == old(state)
    {
      calls := calls + [UpdateDocumentField(indexName, indexDocId, key, value)];
      match ApplyUpdateField(state, indexName, indexDocId, key, value)
      case Success(next) =>
        state := next;
        r := Success(());
      case Failure(e) =>
        r := Failure(e);
    }

    method GetDocument(indexName: string, indexDocId: string) returns (r: Result<Metadata>)
      ensures r == Lookup(state.documents, indexName, indexDocId)
    {
      r := Lookup(state.documents, indexName, indexDocId);
    }

    method SearchDocuments(indexName: string, query: Query, req: PageRequest) returns (page: Page<Metadata>)
      ensures page == Search(state, indexName, query, req)
    {
      page := Search(state, indexName, query, req);
    }
  }
}
