/** domain/indexing: the indexing requests the service accepts and the IndexingResponse it builds. */
module Indexing {
  import opened Wrappers
  import opened Common

  datatype ResponseStatus = SUCCESS | ERROR

  /**
   * IndexingResponse extends Metadata: the six inherited fields, its own `status`,
   * and the `pinned` flag that the factory sets through setPinned.
   */
  datatype IndexingResponse = IndexingResponse(meta: Metadata, status: Option<ResponseStatus>, pinned: bool)

  /** `new IndexingResponse(status)`: the inherited fields are null and `pinned` is false. */
  function WithStatus(status: ResponseStatus): (r: IndexingResponse)
    ensures r.meta == Empty() && r.status == Some(status) && !r.pinned
  {
    IndexingResponse(Empty(), Some(status), false)
  }

  /** The six-argument factory: a SUCCESS response echoing its arguments, without payload bytes. */
  function Of(indexName: Option<string>, indexDocId: Option<string>, contentId: Option<string>,
              contentType: Option<string>, pinned: bool, indexFields: Option<Fields>): (r: IndexingResponse)
    ensures r.status == Some(SUCCESS)
    ensures r.meta.indexName == indexName && r.meta.indexDocId == indexDocId
    ensures r.meta.contentId == contentId && r.meta.contentType == contentType
    ensures r.meta.indexFields == indexFields && r.pinned == pinned
    ensures r.meta.content.None?
  {
    var response := WithStatus(SUCCESS);
    var m1 := SetIndexName(response.meta, indexName);
    var m2 := SetIndexDocId(m1, indexDocId);
    var m3 := SetContentType(m2, contentType);
    var m4 := SetContentId(m3, contentId);
    var m5 := SetIndexFields(m4, indexFields);
    response.(meta := m5).(pinned := pinned)
  }

  /** The one-argument factory: a SUCCESS response carrying only the content id. */
  function OfContentId(contentId: Option<string>): (r: IndexingResponse)
    ensures r.status == Some(SUCCESS) && r.meta.contentId == contentId
    ensures r.meta.indexName.None? && r.meta.indexDocId.None? && r.meta.contentType.None?
    ensures r.meta.content.None? && r.meta.indexFields.None? && !r.pinned
  {
    var response := WithStatus(SUCCESS);
    response.(meta := SetContentId(response.meta, contentId))
  }

  /** The content-id-only response is the full response with every other argument at its default. */
  lemma OfContentIdIsDefaultedOf(contentId: Option<string>)
    ensures OfContentId(contentId) == Of(None, None, contentId, None, false, None)
  {
  }

  /** The full response keeps every identifier of the record `Metadata.of` would build, and drops the payload. */
  lemma OfMatchesMetadataOf(indexName: Option<string>, indexDocId: Option<string>, contentId: Option<string>,
                            contentType: Option<string>, content: Option<Bytes>, pinned: bool,
                            indexFields: Option<Fields>)
    ensures Of(indexName, indexDocId, contentId, contentType, pinned, indexFields).meta
            == SetContent(Common.Of(indexName, indexDocId, contentId, contentType, content, indexFields), None)
  {
  }

  /** What every IndexingRequest carries, whatever its source. */
  datatype RequestHeader = RequestHeader(
    indexName: string,
    indexDocId: Option<string>,
    contentType: Option<string>,
    indexContent: bool,
    indexFields: Option<Fields>)

  /**
   * The subclasses of IndexingRequest the service distinguishes, plus any other
   * subclass (named by its class name), which the service rejects.
   */
  datatype IndexingRequest =
    | InputStreamRequest(header: RequestHeader, stream: Bytes)
    | CidRequest(header: RequestHeader, cid: string)
    | StringRequest(header: RequestHeader, text: string)
    | StoreOnlyRequest(header: RequestHeader, stream: Bytes)
    | OtherRequest(header: RequestHeader, className: string)
}
