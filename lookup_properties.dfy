/** Properties of the lookup (`get`) and search paths of the service. */
module LookupProperties {
  import opened Wrappers
  import opened Common
  import opened Querying
  import opened Requests
  import opened Ports
  import opened Service

  /** The index `indexName` holds some document whose content id is `contentId`. */
  ghost predicate HasDocumentWithHash(st: IndexState, indexName: string, contentId: string) {
    exists k :: k in st.documents && k.0 == indexName && st.documents[k].contentId == Some(contentId)
  }

  /** The resolution table of `get`, each row in both directions. */
  lemma ResolveOutcomes(q: GetRequest, st: IndexState)
    ensures Resolve(q, st) == Failure(Validation(MISSING_DOC_ID_OR_CONTENT_ID))
            <==> !IsEmpty(q.indexName) && IsEmpty(q.indexDocId) && IsEmpty(q.contentId)
    ensures Resolve(q, st) == Failure(Validation(MISSING_CONTENT_ID))
            <==> IsEmpty(q.indexName) && IsEmpty(q.contentId)
    ensures IsEmpty(q.indexName) && !IsEmpty(q.contentId) ==>
              Resolve(q, st) == Success(HandleOnly(q.contentId.value))
    ensures !IsEmpty(q.indexName) && !IsEmpty(q.indexDocId) ==>
              var key := (q.indexName.value, q.indexDocId.value);
              Resolve(q, st) == if key in st.documents then Success(Found(st.documents[key]))
                                else Failure(DocumentNotFound(key.0, key.1))
  {
  }

  /**
   * A lookup by index and content id never fails: it finds a document of that index
   * with that hash, and falls back to the bare content id exactly when there is none.
   */
  lemma HashLookupFallsBackSilently(q: GetRequest, st: IndexState)
    requires WellFormed(st)
    requires !IsEmpty(q.indexName) && IsEmpty(q.indexDocId) && !IsEmpty(q.contentId)
    ensures Resolve(q, st).Success?
    ensures Resolve(q, st) == Success(HandleOnly(q.contentId.value))
            <==> !HasDocumentWithHash(st, q.indexName.value, q.contentId.value)
    ensures Resolve(q, st).Success? && Resolve(q, st).value.Found? ==>
              var m := Resolve(q, st).value.metadata;
              m.contentId == q.contentId
              && exists k :: k in st.documents && k.0 == q.indexName.value && st.documents[k] == m
  {
    var name, cid := q.indexName.value, q.contentId.value;
    var query := HashQuery(cid);
    var hits := Hits(st.documents, st.order, name, query);
    HitsSound(st.documents, st.order, name, query);
    if HasDocumentWithHash(st, name, cid) {
      var k :| k in st.documents && k.0 == name && st.documents[k].contentId == Some(cid);
      MatchesHashQuery(st.documents[k], cid);
      HitsComplete(st.documents, st.order, name, query, k);
      assert |hits| > 0;
    }
    if |hits| > 0 {
      var m := hits[0];
      assert m in hits;
      MatchesHashQuery(m, cid);
      var k :| k in st.order && k in st.documents && k.0 == name && st.documents[k] == m;
      assert HasDocumentWithHash(st, name, cid);
    }
  }

  /**
   * The fetch of the integration test: under content addressing, asking an index for a
   * stored content id with the payload returns exactly the stored bytes, whether a
   * document of the index carries them inlined, lists them by id, or is missing.
   */
  lemma FetchByHashReturnsStoredBytes(st: IndexState, store: map<string, Bytes>, address: Bytes -> string,
                                      indexName: string, contentId: string)
    requires Injective(address) && StoreAddressed(store, address)
    requires InlineContentAddressed(st.documents, address)
    requires indexName != "" && contentId != "" && contentId in store
    ensures var r := GetSpec(Some(GetRequest(Some(indexName), None, Some(contentId), true)), st, store);
            r.Success? && r.value.payload == Some(store[contentId])
  {
    var query := HashQuery(contentId);
    var hits := Hits(st.documents, st.order, indexName, query);
    if |hits| > 0 {
      var m := hits[0];
      assert m in hits;
      HitsSound(st.documents, st.order, indexName, query);
      MatchesHashQuery(m, contentId);
      var k :| k in st.order && k in st.documents && k.0 == indexName && st.documents[k] == m;
      if m.content.Some? {
        assert address(m.content.value) == contentId == address(store[contentId]);
      }
    }
  }

  /** The payload appears only when the file is asked for; without it, `get` fails only when the lookup does. */
  lemma PayloadOnlyWhenLoaded(q: GetRequest, st: IndexState, store: map<string, Bytes>)
    ensures !q.loadFile ==>
              (GetSpec(Some(q), st, store).Success? <==> Resolve(q, st).Success?)
              && (GetSpec(Some(q), st, store).Success? ==> GetSpec(Some(q), st, store).value.payload.None?)
    ensures q.loadFile && GetSpec(Some(q), st, store).Success? ==> GetSpec(Some(q), st, store).value.payload.Some?
  {
  }

  /** A found document with inlined content is answered without reading storage. */
  lemma InlinedContentIsServedAsIs(q: GetRequest, st: IndexState, store: map<string, Bytes>)
    requires q.loadFile && Resolve(q, st).Success? && Resolve(q, st).value.Found?
    requires Resolve(q, st).value.metadata.content.Some?
    ensures GetSpec(Some(q), st, store)
            == Success(GetResponse(Some(Resolve(q, st).value.metadata), Resolve(q, st).value.metadata.content))
  {
  }

  /**
   * `search` keeps the index's page: same page request, same total, same elements in the
   * same order, each with the payload the per-element rule gives it.
   */
  lemma SearchKeepsPage(q: SearchRequest, st: IndexState, store: map<string, Bytes>)
    ensures var found := Search(st, q.indexName, q.query, q.pageRequest);
            var r := SearchSpec(Some(q), st, store);
            && (r.Success? <==> forall i :: 0 <= i < |found.elements| ==>
                  LoadPayload(q.loadFile, found.elements[i].content, found.elements[i].contentId, store).Success?)
            && (r.Success? ==>
                  && r.value.pageRequest == q.pageRequest
                  && r.value.totalElements == found.totalElements
                  && |r.value.elements| == |found.elements|
                  && forall i :: 0 <= i < |found.elements| ==>
                       r.value.elements[i].metadata == found.elements[i]
                       && r.value.elements[i].payload
                          == LoadPayload(q.loadFile, found.elements[i].content, found.elements[i].contentId, store).value)
  {
    var found := Search(st, q.indexName, q.query, q.pageRequest);
    MaterialiseAllPointwise(found.elements, q.loadFile, store);
  }

  /** Without `loadFile`, a search never fails and carries no payloads. */
  lemma SearchWithoutLoadNeverReads(q: SearchRequest, st: IndexState, store: map<string, Bytes>)
    requires !q.loadFile
    ensures SearchSpec(Some(q), st, store).Success?
    ensures forall e :: e in SearchSpec(Some(q), st, store).value.elements ==> e.payload.None?
  {
    var found := Search(st, q.indexName, q.query, q.pageRequest);
    MaterialiseAllPointwise(found.elements, q.loadFile, store);
  }
}
