/** Callers of the service that chain operations, as the HTTP integration test does. */
module Scenarios {
  import opened Wrappers
  import opened Common
  import opened Indexing
  import opened Requests
  import opened Ports
  import opened Service
  import opened LookupProperties

  /** Index a string, then fetch it by content id under its index: the payload is the string's bytes. */
  method IndexStringThenFetchByHash(service: MahutaService, header: RequestHeader, text: string, sniffed: Option<string>)
    returns (indexed: Result<IndexingResponse>, fetched: Result<GetResponse>)
    requires service.Valid()
    requires header.indexName != "" && service.storage.address(service.encode(text)) != ""
    modifies service.storage, service.indexer, service.storage.replicaSet
    ensures indexed.Success? && indexed.value.status == Some(SUCCESS)
    ensures indexed.value.meta.contentId == Some(service.storage.address(service.encode(text)))
    ensures fetched.Success? && fetched.value.payload == Some(service.encode(text))
  {
    indexed := service.Index(Some(StringRequest(header, text)), sniffed);
    var contentId := indexed.value.meta.contentId.value;
    fetched := service.Get(Some(GetRequest(Some(header.indexName), None, Some(contentId), true)));
    FetchByHashReturnsStoredBytes(service.indexer.state, service.storage.store, service.storage.address,
                                  header.indexName, contentId);
  }

  /** "hello" indexed into `docs` as `d1` with inlined content comes back from a fetch by id. */
  method HelloScenario(service: MahutaService) returns (indexed: Result<IndexingResponse>, fetched: Result<GetResponse>)
    requires service.Valid()
    modifies service.storage, service.indexer, service.storage.replicaSet
    ensures indexed.Success? && indexed.value.status == Some(SUCCESS)
    ensures indexed.value.pinned == !service.noPin && indexed.value.meta.indexDocId == Some("d1")
    ensures fetched.Success? && fetched.value.metadata.Some?
    ensures fetched.value.metadata.value.content == Some(service.encode("hello"))
    ensures fetched.value.payload == Some(service.encode("hello"))
  {
    var header := RequestHeader("docs", Some("d1"), Some("text/plain"), true, None);
    indexed := service.Index(Some(StringRequest(header, "hello")), None);
    fetched := service.Get(Some(GetRequest(Some("docs"), Some("d1"), None, true)));
  }

  /** Index a stream, string or stored CID under a given doc id, then get it by that id: the bytes come back. */
  method IndexThenGetById(service: MahutaService, request: IndexingRequest, sniffed: Option<string>)
    returns (indexed: Result<IndexingResponse>, fetched: Result<GetResponse>)
    requires service.Valid() && Indexable(request)
    requires request.header.indexName != "" && request.header.indexDocId.Some? && request.header.indexDocId.value != ""
    requires request.CidRequest? ==> request.cid in service.storage.store
    modifies service.storage, service.indexer, service.storage.replicaSet
    ensures indexed.Success? && indexed.value.meta.indexDocId == request.header.indexDocId
    ensures var bytes := service.StagedContent(request, old(service.storage.store));
            fetched.Success? && fetched.value.payload == Some(bytes)
            && fetched.value.metadata.Some? && fetched.value.metadata.value.contentId == Some(service.storage.address(bytes))
  {
    indexed := service.Index(Some(request), sniffed);
    fetched := service.Get(Some(GetRequest(Some(request.header.indexName), request.header.indexDocId, None, true)));
  }

  /** After deindexing a document, a fetch by its id reports it missing. */
  method IndexThenDeindex(service: MahutaService, header: RequestHeader, text: string, docId: string)
    returns (fetched: Result<GetResponse>)
    requires service.Valid() && header.indexName != "" && docId != "" && header.indexDocId == Some(docId)
    modifies service.storage, service.indexer, service.storage.replicaSet
    ensures fetched == Failure(DocumentNotFound(header.indexName, docId))
  {
    var indexed := service.Index(Some(StringRequest(header, text)), None);
    var removed := service.Deindex(Some(DeindexingRequest(header.indexName, docId)));
    fetched := service.Get(Some(GetRequest(Some(header.indexName), Some(docId), None, false)));
  }

  /** Fresh ports wired through the constructor's validation give a service the hello round trip works on. */
  method WireThenHello(address: Bytes -> string, replicas: seq<string>, idSource: nat -> string, noPin: bool,
                       encode: string -> Bytes)
    returns (fetched: Result<GetResponse>)
    requires Injective(address)
    ensures fetched.Success? && fetched.value.payload == Some(encode("hello"))
  {
    var replicaSet := new ReplicaSet(replicas);
    var storage := new StoragePort(address, replicaSet);
    var indexer := new IndexPort(idSource);
    var created := MahutaService.Create(storage, indexer, noPin, encode);
    var service := created.value;
    var indexed;
    indexed, fetched := HelloScenario(service);
  }
}
