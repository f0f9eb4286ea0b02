/** The request and response types of the service operations other than `index`. */
module Requests {
  import opened Wrappers
  import opened Common
  import opened Querying

  datatype CreateIndexRequest = CreateIndexRequest(name: string, configuration: Option<Bytes>)

  datatype GetIndexesRequest = GetIndexesRequest

  datatype UpdateFieldRequest = UpdateFieldRequest(indexName: string, indexDocId: string, key: string, value: Value)

  datatype DeindexingRequest = DeindexingRequest(indexName: string, indexDocId: string)

  /** A lookup by document id or by content id, optionally scoped to an index; `loadFile` asks for the payload. */
  datatype GetRequest = GetRequest(indexName: Option<string>, indexDocId: Option<string>,
                                   contentId: Option<string>, loadFile: bool)

  /** The metadata found (null when only a content id was resolved) and the payload (null unless loaded). */
  datatype GetResponse = GetResponse(metadata: Option<Metadata>, payload: Option<Bytes>)

  datatype SearchRequest = SearchRequest(indexName: string, query: Query, pageRequest: PageRequest, loadFile: bool)

  datatype MetadataAndPayload = MetadataAndPayload(metadata: Metadata, payload: Option<Bytes>)
}
