/** AbstractMahutaService: the orchestration of storage, index and replica set. */
module Service {
  import opened Wrappers
  import opened Common
  import opened Querying
  import opened Indexing
  import opened Requests
  import opened Ports

  /** The argument name every operation reports when its request is null. */
  const REQUEST: string := "request"
  const UNSUPPORTED_SUFFIX: string := " isn't supported yet"
  const MISSING_DOC_ID_OR_CONTENT_ID: string := "request must contain 'indexDocId' or 'contentId'"
  const MISSING_CONTENT_ID: string := "request must contain 'contentId'"

  /** ValidatorUtils.isEmpty for strings: null or of length zero. */
  predicate IsEmpty(s: Option<string>) {
    s.None? || s.value == ""
  }

  // ---------------------------------------------------------------- index

  /** The request variants that go on to be indexed (all but store-only and unknown ones). */
  predicate Indexable(q: IndexingRequest) {
    q.InputStreamRequest? || q.CidRequest? || q.StringRequest?
  }

  /** Inlined payloads are the bytes their content id addresses. */
  ghost predicate InlineContentAddressed(documents: map<DocKey, Metadata>, address: Bytes -> string) {
    forall k :: k in documents && documents[k].content.Some? ==>
      documents[k].contentId == Some(address(documents[k].content.value))
  }

  /** One pin per replica, in replica-set order. */
  function PinAll(count: nat, contentId: string, tag: string, fields: Option<Fields>): seq<ReplicaEvent> {
    if count == 0 then [] else PinAll(count - 1, contentId, tag, fields) + [Pinned(count - 1, contentId, tag, fields)]
  }

  /** One unpin per replica, in replica-set order. */
  function UnpinAll(count: nat, contentId: Option<string>): seq<ReplicaEvent> {
    if count == 0 then [] else UnpinAll(count - 1, contentId) + [Unpinned(count - 1, contentId)]
  }

  /** How many of `events` are addressed to `replica`. */
  function CallsTo(events: seq<ReplicaEvent>, replica: nat): nat {
    if events == [] then 0
    else CallsTo(events[..|events| - 1], replica) + (if events[|events| - 1].replica == replica then 1 else 0)
  }

  /** The pin fan-out calls each replica of the set exactly once, and nothing outside the set. */
  lemma {:induction false} PinAllCallsEachReplicaOnce(count: nat, contentId: string, tag: string,
                                                      fields: Option<Fields>, replica: nat)
    ensures |PinAll(count, contentId, tag, fields)| == count
    ensures CallsTo(PinAll(count, contentId, tag, fields), replica) == if replica < count then 1 else 0
  {
    if count > 0 {
      PinAllCallsEachReplicaOnce(count - 1, contentId, tag, fields, replica);
      var s := PinAll(count, contentId, tag, fields);
      assert s[..|s| - 1] == PinAll(count - 1, contentId, tag, fields);
    }
  }

  /** Every event of the pin fan-out pins the given content under the given label and fields. */
  lemma {:induction false} PinAllPinsContent(count: nat, contentId: string, tag: string, fields: Option<Fields>)
    ensures |PinAll(count, contentId, tag, fields)| == count
    ensures forall i :: 0 <= i < count ==> PinAll(count, contentId, tag, fields)[i] == Pinned(i, contentId, tag, fields)
  {
    if count > 0 {
      PinAllPinsContent(count - 1, contentId, tag, fields);
    }
  }

  /** The unpin loop releases the content on replica 0, then 1, and so on: set order. */
  lemma {:induction false} UnpinAllInSetOrder(count: nat, contentId: Option<string>)
    ensures |UnpinAll(count, contentId)| == count
    ensures forall i :: 0 <= i < count ==> UnpinAll(count, contentId)[i] == Unpinned(i, contentId)
  {
    if count > 0 {
      UnpinAllInSetOrder(count - 1, contentId);
    }
  }

  // ---------------------------------------------------------------- get and search

  /** How a lookup was resolved: to a metadata record, or to a bare content id. */
  datatype Resolution = Found(metadata: Metadata) | HandleOnly(contentId: string)

  /** The lookup step of `get`. */
  function Resolve(q: GetRequest, st: IndexState): (r: Result<Resolution>) {
    if !IsEmpty(q.indexName) then
      if !IsEmpty(q.indexDocId) then
        match Lookup(st.documents, q.indexName.value, q.indexDocId.value)
        case Success(m) => Success(Found(m))
        case Failure(e) => Failure(e)
      else if !IsEmpty(q.contentId) then
        var page := Search(st, q.indexName.value, HashQuery(q.contentId.value), SingleElementPage());
        if IsEmptyPage(page) then Success(HandleOnly(q.contentId.value)) else Success(Found(page.elements[0]))
      else Failure(Validation(MISSING_DOC_ID_OR_CONTENT_ID))
    else if IsEmpty(q.contentId) then Failure(Validation(MISSING_CONTENT_ID))
    else Success(HandleOnly(q.contentId.value))
  }

  /** The payload rule of `get` and `search`: nothing unless asked; inlined bytes if any; else a storage read. */
  function LoadPayload(loadFile: bool, content: Option<Bytes>, contentId: Option<string>,
                       store: map<string, Bytes>): (r: Result<Option<Bytes>>)
  {
    if !loadFile then Success(None)
    else if content.Some? then Success(content)
    else
      match ReadStore(store, contentId)
      case Success(bytes) => Success(Some(bytes))
      case Failure(e) => Failure(e)
  }

  /** What `get` returns for a request, the index state and the store. */
  function GetSpec(request: Option<GetRequest>, st: IndexState, store: map<string, Bytes>): (r: Result<GetResponse>) {
    if request.None? then Failure(NullArgument(REQUEST))
    else
      var q := request.value;
      match Resolve(q, st)
      case Failure(e) => Failure(e)
      case Success(Found(m)) =>
        (match LoadPayload(q.loadFile, m.content, m.contentId, store)
         case Success(p) => Success(GetResponse(Some(m), p))
         case Failure(e) => Failure(e))
      case Success(HandleOnly(cid)) =>
        (match LoadPayload(q.loadFile, None, Some(cid), store)
         case Success(p) => Success(GetResponse(None, p))
         case Failure(e) => Failure(e))
  }

  /** The per-element conversion of `search`, in order; the first failing storage read fails it. */
  function MaterialiseAll(ms: seq<Metadata>, loadFile: bool, store: map<string, Bytes>): (r: Result<seq<MetadataAndPayload>>)
    decreases |ms|
  {
    if ms == [] then Success([])
    else
      match MaterialiseAll(ms[..|ms| - 1], loadFile, store)
      case Failure(e) => Failure(e)
      case Success(init) =>
        var m := ms[|ms| - 1];
        match LoadPayload(loadFile, m.content, m.contentId, store)
        case Failure(e) => Failure(e)
        case Success(p) => Success(init + [MetadataAndPayload(m, p)])
  }

  /** What `search` returns for a request, the index state and the store. */
  function SearchSpec(request: Option<SearchRequest>, st: IndexState, store: map<string, Bytes>)
    : (r: Result<Page<MetadataAndPayload>>)
  {
    if request.None? then Failure(NullArgument(REQUEST))
    else
      var q := request.value;
      var found := Search(st, q.indexName, q.query, q.pageRequest);
      match MaterialiseAll(found.elements, q.loadFile, store)
      case Success(elements) => Success(Page(q.pageRequest, elements, found.totalElements))
      case Failure(e) => Failure(e)
  }

  /** A failure on a prefix of the page is the failure of the whole page. */
  lemma {:induction false} MaterialisePrefixFailure(ms: seq<Metadata>, j: nat, loadFile: bool, store: map<string, Bytes>)
    requires j <= |ms| && MaterialiseAll(ms[..j], loadFile, store).Failure?
    ensures MaterialiseAll(ms, loadFile, store) == MaterialiseAll(ms[..j], loadFile, store)
    decreases |ms| - j
  {
    if j < |ms| {
      var ext := ms[..j + 1];
      assert ext[..|ext| - 1] == ms[..j];
      MaterialisePrefixFailure(ms, j + 1, loadFile, store);
    } else {
      assert ms[..j] == ms;
    }
  }

  /** Each element is converted on its own: count and order are kept and each payload follows the rule. */
  lemma {:induction false} MaterialiseAllPointwise(ms: seq<Metadata>, loadFile: bool, store: map<string, Bytes>)
    ensures MaterialiseAll(ms, loadFile, store).Success? <==>
            forall i :: 0 <= i < |ms| ==> LoadPayload(loadFile, ms[i].content, ms[i].contentId, store).Success?
    ensures MaterialiseAll(ms, loadFile, store).Success? ==>
            var out := MaterialiseAll(ms, loadFile, store).value;
            |out| == |ms| &&
            forall i :: 0 <= i < |ms| ==>
              out[i] == MetadataAndPayload(ms[i], LoadPayload(loadFile, ms[i].content, ms[i].contentId, store).value)
  {
    if ms != [] {
      var init := ms[..|ms| - 1];
      MaterialiseAllPointwise(init, loadFile, store);
      assert forall i :: 0 <= i < |init| ==> init[i] == ms[i];
    }
  }

  // ---------------------------------------------------------------- the service

  class MahutaService {
    const storage: StoragePort
    const indexer: IndexPort
    const noPin: bool
    /** String.getBytes() under the platform's default charset. */
    const encode: string -> Bytes

    /** The ports are consistent, and every inlined payload is the content its id addresses. */
    ghost predicate Valid()
      reads storage, indexer
    {
      storage.Valid() && indexer.Valid() && InlineContentAddressed(indexer.state.documents, storage.address)
    }

    constructor (storage: StoragePort, indexer: IndexPort, noPin: bool, encode: string -> Bytes)
      requires storage.Valid() && indexer.Valid() && InlineContentAddressed(indexer.state.documents, storage.address)
      ensures Valid()
      ensures this.storage == storage && this.indexer == indexer && this.noPin == noPin && this.encode == encode
    {
      this.storage := storage;
      this.indexer := indexer;
      this.noPin := noPin;
      this.encode := encode;
    }

    /** The constructor's validation: both services must be configured. */
    static method Create(storage: StoragePort?, indexer: IndexPort?, noPin: bool, encode: string -> Bytes)
      returns (r: Result<MahutaService>)
      requires storage != null && indexer != null ==>
                 storage.Valid() && indexer.Valid() && InlineContentAddressed(indexer.state.documents, storage.address)
      ensures r.Success? ==> r.value.Valid()
      ensures storage == null ==> r == Failure(NullArgument("storageService"))
      ensures storage != null && indexer == null ==> r == Failure(NullArgument("indexingService"))
      ensures storage != null && indexer != null ==>
                r.Success? && fresh(r.value) && r.value.storage == storage && r.value.indexer == indexer
                && r.value.noPin == noPin && r.value.encode == encode
    {
      if storage == null {
        return Failure(NullArgument("storageService"));
      }
      if indexer == null {
        return Failure(NullArgument("indexingService"));
      }
      var service := new MahutaService(storage, indexer, noPin, encode);
      return Success(service);
    }

    // ------------------------------------------------ what step 1 of `index` resolves

    /** The bytes a request carries (for a CID request, those stored under it). */
    function StagedContent(q: IndexingRequest, store: map<string, Bytes>): Bytes {
      match q
      case InputStreamRequest(_, stream) => stream
      case CidRequest(_, cid) => if cid in store then store[cid] else []
      case StringRequest(_, text) => encode(text)
      case StoreOnlyRequest(_, stream) => stream
      case OtherRequest(_, _) => []
    }

    /** The content id the request ends up with: the given one, or the address of the bytes written. */
    function StagedContentId(q: IndexingRequest, store: map<string, Bytes>): string {
      if q.CidRequest? then q.cid else storage.address(StagedContent(q, store))
    }

    /** The content type: the request's, or for a stream without one, the sniffer's guess. */
    function StagedContentType(q: IndexingRequest, sniffed: Option<string>): Option<string> {
      if q.InputStreamRequest? && q.header.contentType.None? then sniffed else q.header.contentType
    }

    /** The storage writes of step 1. */
    function StagedWrites(q: IndexingRequest): seq<WriteCall> {
      match q
      case InputStreamRequest(_, stream) => [WriteCall(stream, noPin)]
      case StringRequest(_, text) => [WriteCall(encode(text), noPin)]
      case StoreOnlyRequest(_, stream) => [WriteCall(stream, false)]
      case CidRequest(_, _) => []
      case OtherRequest(_, _) => []
    }

    /** The index call of step 2. */
    function IndexCallFor(q: IndexingRequest, store: map<string, Bytes>, sniffed: Option<string>): (c: IndexCall)
      ensures c.IndexDocument?
    {
      IndexDocument(q.header.indexName, q.header.indexDocId, StagedContentId(q, store), StagedContentType(q, sniffed),
                    if q.header.indexContent then Some(StagedContent(q, store)) else None,
                    !noPin, q.header.indexFields)
    }

    // ------------------------------------------------ operations

    method CreateIndex(request: Option<CreateIndexRequest>) returns (r: Result<()>)
      requires Valid()
      modifies indexer
      ensures Valid()
      ensures request.None? ==> r == Failure(NullArgument(REQUEST)) && unchanged(indexer)
      ensures request.Some? ==>
                r == Success(())
                && indexer.state == ApplyCreateIndex(old(indexer.state), request.value.name)
                && indexer.calls == old(indexer.calls) + [CreateIndexCall(request.value.name, request.value.configuration)]
    {
      if request.None? {
        return Failure(NullArgument(REQUEST));
      }
      indexer.CreateIndex(request.value.name, request.value.configuration);
      return Success(());
    }

    /** No null check: the index names are returned whatever the request. */
    method GetIndexes(request: Option<GetIndexesRequest>) returns (indexes: seq<string>)
      ensures indexes == indexer.state.indexes
    {
      indexes := indexer.GetIndexes();
    }

    method Index(request: Option<IndexingRequest>, sniffed: Option<string>) returns (r: Result<IndexingResponse>)
      requires Valid()
      modifies storage, indexer, storage.replicaSet
      ensures Valid()
      // Rejections come before any side effect.
      ensures request.None? ==> r == Failure(NullArgument(REQUEST))
      ensures request.Some? && request.value.OtherRequest? ==>
                r == Failure(Unsupported(request.value.className + UNSUPPORTED_SUFFIX))
      ensures request.Some? && request.value.CidRequest? ==>
                (r.Failure? <==> request.value.cid !in old(storage.store))
      ensures request.Some? && !request.value.CidRequest? && !request.value.OtherRequest? ==> r.Success?
      ensures r.Failure? ==> unchanged(storage, indexer, storage.replicaSet)
      // Store-only: one unpinned write, nothing indexed, no replica called.
      ensures request.Some? && request.value.StoreOnlyRequest? ==>
                var bytes := request.value.stream;
                && r == Success(Indexing.OfContentId(Some(storage.address(bytes))))
                && storage.writes == old(storage.writes) + [WriteCall(bytes, false)]
                && storage.store == old(storage.store)[storage.address(bytes) := bytes]
                && unchanged(indexer, storage.replicaSet)
      // Stream, string and CID: write (except CID), index, pin unless noPin, respond.
      ensures request.Some? && Indexable(request.value) && r.Success? ==>
                var q := request.value;
                var cid := StagedContentId(q, old(storage.store));
                var call := IndexCallFor(q, old(storage.store), sniffed);
                var docId := ApplyIndex(old(indexer.state), call, indexer.idSource).1;
                && storage.writes == old(storage.writes) + StagedWrites(q)
                && storage.store == (if q.CidRequest? then old(storage.store)
                                     else old(storage.store)[cid := StagedContent(q, old(storage.store))])
                && indexer.state == ApplyIndex(old(indexer.state), call, indexer.idSource).0
                && indexer.calls == old(indexer.calls) + [call]
                && storage.replicaSet.events == old(storage.replicaSet.events)
                     + (if noPin then []
                        else PinAll(|storage.replicaSet.names|, cid, q.header.indexName + "-" + docId, q.header.indexFields))
                && r == Success(Indexing.Of(Some(q.header.indexName), Some(docId), Some(cid),
                                            StagedContentType(q, sniffed), !noPin, q.header.indexFields))
    {
      if request.None? {
        return Failure(NullArgument(REQUEST));
      }
      var q := request.value;
      if Indexable(q) {
        var staged := StageContent(q, sniffed);
        if staged.Failure? {
          return Failure(staged.error);
        }
        var (content, contentId, contentType) := staged.value;
        var response := IndexStaged(q.header, content, contentId, contentType);
        return Success(response);
      } else if q.StoreOnlyRequest? {
        var contentId := storage.Write(q.stream, false);
        return Success(Indexing.OfContentId(Some(contentId)));
      } else {
        return Failure(Unsupported(q.className + UNSUPPORTED_SUFFIX));
      }
    }

    /** Step 1 for the indexed variants: the bytes, their content id and the content type. */
    method StageContent(q: IndexingRequest, sniffed: Option<string>) returns (r: Result<(Bytes, string, Option<string>)>)
      requires Valid() && Indexable(q)
      modifies storage
      ensures Valid()
      ensures r.Failure? <==> q.CidRequest? && q.cid !in old(storage.store)
      ensures r.Failure? ==> unchanged(storage)
      ensures r.Success? ==>
                && r.value == (StagedContent(q, old(storage.store)), StagedContentId(q, old(storage.store)),
                               StagedContentType(q, sniffed))
                && storage.address(r.value.0) == r.value.1
                && storage.writes == old(storage.writes) + StagedWrites(q)
                && storage.store == (if q.CidRequest? then old(storage.store)
                                     else old(storage.store)[r.value.1 := r.value.0])
    {
      var content: Bytes;
      var contentId: string;
      var contentType := q.header.contentType;
      if q.InputStreamRequest? {
        content := q.stream;
        contentId := storage.Write(content, noPin);
        if contentType.None? {
          contentType := sniffed;
        }
      } else if q.CidRequest? {
        var read := storage.Read(Some(q.cid));
        if read.Failure? {
          return Failure(read.error);
        }
        content := read.value;
        contentId := q.cid;
      } else {
        content := encode(q.text);
        contentId := storage.Write(encode(q.text), noPin);
      }
      return Success((content, contentId, contentType));
    }

    /** Steps 2 to 4: index the document, pin it on every replica unless noPin, and respond. */
    method IndexStaged(h: RequestHeader, content: Bytes, contentId: string, contentType: Option<string>)
      returns (response: IndexingResponse)
      requires Valid() && storage.address(content) == contentId
      modifies indexer, storage.replicaSet
      ensures Valid()
      ensures var call := IndexDocument(h.indexName, h.indexDocId, contentId, contentType,
                                        if h.indexContent then Some(content) else None, !noPin, h.indexFields);
              var docId := ApplyIndex(old(indexer.state), call, indexer.idSource).1;
              && indexer.state == ApplyIndex(old(indexer.state), call, indexer.idSource).0
              && indexer.calls == old(indexer.calls) + [call]
              && storage.replicaSet.events == old(storage.replicaSet.events)
                   + (if noPin then []
                      else PinAll(|storage.replicaSet.names|, contentId, h.indexName + "-" + docId, h.indexFields))
              && response == Indexing.Of(Some(h.indexName), Some(docId), Some(contentId), contentType, !noPin,
                                         h.indexFields)
    {
      var indexDocId: string;
      if h.indexContent {
        indexDocId := indexer.Index(h.indexName, h.indexDocId, contentId, contentType, Some(content), !noPin, h.indexFields);
      } else {
        indexDocId := indexer.Index(h.indexName, h.indexDocId, contentId, contentType, None, !noPin, h.indexFields);
      }

      if !noPin {
        PinReplicas(contentId, h.indexName + "-" + indexDocId, h.indexFields);
      }

      response := Indexing.Of(Some(h.indexName), Some(indexDocId), Some(contentId), contentType, !noPin, h.indexFields);
    }

    /** The fan-out of step 3: one pin on every replica of the set. */
    method PinReplicas(contentId: string, tag: string, fields: Option<Fields>)
      modifies storage.replicaSet
      ensures storage.replicaSet.events
              == old(storage.replicaSet.events) + PinAll(|storage.replicaSet.names|, contentId, tag, fields)
    {
      var replicas := storage.replicaSet;
      var i := 0;
      while i < |replicas.names|
        invariant 0 <= i <= |replicas.names|
        invariant replicas.events == old(replicas.events) + PinAll(i, contentId, tag, fields)
      {
        replicas.Pin(i, contentId, tag, fields);
        i := i + 1;
      }
    }

    method UpdateField(request: Option<UpdateFieldRequest>) returns (r: Result<()>)
      requires Valid()
      modifies indexer
      ensures Valid()
      ensures request.None? ==> r == Failure(NullArgument(REQUEST)) && unchanged(indexer)
      ensures request.Some? ==>
                var q := request.value;
                && indexer.calls == old(indexer.calls) + [UpdateDocumentField(q.indexName, q.indexDocId, q.key, q.value)]
                && match ApplyUpdateField(old(indexer.state), q.indexName, q.indexDocId, q.key, q.value)
                   case Success(next) => r == Success(()) && indexer.state == next
                   case Failure(e) => r == Failure(e) && indexer.state == old(indexer.state)
    {
      if request.None? {
        return Failure(NullArgument(REQUEST));
      }
      var q := request.value;
      r := indexer.UpdateField(q.indexName, q.indexDocId, q.key, q.value);
    }

    method Deindex(request: Option<DeindexingRequest>) returns (r: Result<()>)
      requires Valid()
      modifies indexer, storage.replicaSet
      ensures Valid()
      ensures request.None? ==> r == Failure(NullArgument(REQUEST)) && unchanged(indexer, storage.replicaSet)
      ensures request.Some? ==>
                var q := request.value;
                var found := Lookup(old(indexer.state.documents), q.indexName, q.indexDocId);
                if found.Failure? then
                  r == Failure(found.error) && unchanged(indexer, storage.replicaSet)
                else
                  && r == Success(())
                  && indexer.state == ApplyDeindex(old(indexer.state), q.indexName, q.indexDocId)
                  && indexer.calls == old(indexer.calls) + [DeindexDocument(q.indexName, q.indexDocId)]
                  && storage.replicaSet.events == old(storage.replicaSet.events)
                       + UnpinAll(|storage.replicaSet.names|, found.value.contentId)
    {
      if request.None? {
        return Failure(NullArgument(REQUEST));
      }
      var q := request.value;
      var found := indexer.GetDocument(q.indexName, q.indexDocId);
      if found.Failure? {
        return Failure(found.error);
      }
      var metadata := found.value;
      indexer.Deindex(q.indexName, q.indexDocId);

      var replicas := storage.replicaSet;
      var i := 0;
      while i < |replicas.names|
        invariant 0 <= i <= |replicas.names|
        invariant replicas.events == old(replicas.events) + UnpinAll(i, metadata.contentId)
        invariant indexer.state == ApplyDeindex(old(indexer.state), q.indexName, q.indexDocId)
        invariant indexer.calls == old(indexer.calls) + [DeindexDocument(q.indexName, q.indexDocId)]
        invariant Valid()
      {
        replicas.Unpin(i, metadata.contentId);
        i := i + 1;
      }
      return Success(());
    }

    method Get(request: Option<GetRequest>) returns (r: Result<GetResponse>)
      ensures r == GetSpec(request, indexer.state, storage.store)
    {
      if request.None? {
        return Failure(NullArgument(REQUEST));
      }
      var q := request.value;
      var content: Option<Bytes> := None;
      var contentId: Option<string> := None;
      var metadata: Option<Metadata> := None;

      if !IsEmpty(q.indexName) {
        if !IsEmpty(q.indexDocId) {
          var found := indexer.GetDocument(q.indexName.value, q.indexDocId.value);
          if found.Failure? {
            return Failure(found.error);
          }
          metadata := Some(found.value);
          contentId := found.value.contentId;
          content := found.value.content;
        } else if !IsEmpty(q.contentId) {
          var query := HashQuery(q.contentId.value);
          var result := indexer.SearchDocuments(q.indexName.value, query, SingleElementPage());
          if IsEmptyPage(result) {
            contentId := q.contentId;
          } else {
            metadata := Some(result.elements[0]);
            contentId := result.elements[0].contentId;
            content := result.elements[0].content;
          }
        } else {
          return Failure(Validation(MISSING_DOC_ID_OR_CONTENT_ID));
        }
      } else if IsEmpty(q.contentId) {
        return Failure(Validation(MISSING_CONTENT_ID));
      } else {
        contentId := q.contentId;
      }

      var payload: Option<Bytes> := None;
      if q.loadFile && content.None? {
        var read := storage.Read(contentId);
        if read.Failure? {
          return Failure(read.error);
        }
        payload := Some(read.value);
      } else if q.loadFile && content.Some? {
        payload := content;
      }
      return Success(GetResponse(metadata, payload));
    }

    method Search(request: Option<SearchRequest>) returns (r: Result<Page<MetadataAndPayload>>)
      ensures r == SearchSpec(request, indexer.state, storage.store)
    {
      if request.None? {
        return Failure(NullArgument(REQUEST));
      }
      var q := request.value;
      var metadatas := indexer.SearchDocuments(q.indexName, q.query, q.pageRequest);
      var ms := metadatas.elements;
      var elements: seq<MetadataAndPayload> := [];
      var i := 0;
      while i < |ms|
        invariant 0 <= i <= |ms|
        invariant MaterialiseAll(ms[..i], q.loadFile, storage.store) == Success(elements)
      {
        var m := ms[i];
        assert ms[..i + 1][..i] == ms[..i];
        var payload: Option<Bytes> := None;
        if q.loadFile && m.content.None? {
          var read := storage.Read(m.contentId);
          if read.Failure? {
            MaterialisePrefixFailure(ms, i + 1, q.loadFile, storage.store);
            return Failure(read.error);
          }
          payload := Some(read.value);
        } else if q.loadFile && m.content.Some? {
          payload := m.content;
        }
        elements := elements + [MetadataAndPayload(m, payload)];
        i := i + 1;
      }
      assert ms[..i] == ms;
      return Success(Page(q.pageRequest, elements, metadatas.totalElements));
    }
  }
}
