/** The Metadata record of domain/common: the unit of indexed knowledge. */
module Common {
  import opened Wrappers

  type Byte = bv8
  type Bytes = seq<Byte>

  /** A value of the `indexFields` mapping (Java's Object in Map<String, Object>). */
  datatype Value = Text(text: string) | Number(number: int) | Flag(flag: bool)

  type Fields = map<string, Value>

  /**
   * The six fields of Metadata. Every field is a Java reference and may be null,
   * so each is an Option; `content` is the optional inlined payload.
   */
  datatype Metadata = Metadata(
    indexName: Option<string>,
    indexDocId: Option<string>,
    contentId: Option<string>,
    contentType: Option<string>,
    content: Option<Bytes>,
    indexFields: Option<Fields>)

  /** The no-argument constructor: every field is left null. */
  function Empty(): (m: Metadata)
    ensures m.indexName.None? && m.indexDocId.None? && m.contentId.None?
    ensures m.contentType.None? && m.content.None? && m.indexFields.None?
  {
    Metadata(None, None, None, None, None, None)
  }

  /** Metadata.of: the arguments become the fields, in declaration order. */
  function Of(indexName: Option<string>, indexDocId: Option<string>, contentId: Option<string>,
              contentType: Option<string>, content: Option<Bytes>, indexFields: Option<Fields>): (m: Metadata)
    ensures m.indexName == indexName && m.indexDocId == indexDocId && m.contentId == contentId
    ensures m.contentType == contentType && m.content == content && m.indexFields == indexFields
  {
    Metadata(indexName, indexDocId, contentId, contentType, content, indexFields)
  }

  // The generated setters: each overwrites one field and keeps the other five.

  function SetIndexName(m: Metadata, v: Option<string>): (r: Metadata)
    ensures r.indexName == v
    ensures r.indexDocId == m.indexDocId && r.contentId == m.contentId && r.contentType == m.contentType
    ensures r.content == m.content && r.indexFields == m.indexFields
  {
    m.(indexName := v)
  }

  function SetIndexDocId(m: Metadata, v: Option<string>): (r: Metadata)
    ensures r.indexDocId == v
    ensures r.indexName == m.indexName && r.contentId == m.contentId && r.contentType == m.contentType
    ensures r.content == m.content && r.indexFields == m.indexFields
  {
    m.(indexDocId := v)
  }

  function SetContentId(m: Metadata, v: Option<string>): (r: Metadata)
    ensures r.contentId == v
    ensures r.indexName == m.indexName && r.indexDocId == m.indexDocId && r.contentType == m.contentType
    ensures r.content == m.content && r.indexFields == m.indexFields
  {
    m.(contentId := v)
  }

  function SetContentType(m: Metadata, v: Option<string>): (r: Metadata)
    ensures r.contentType == v
    ensures r.indexName == m.indexName && r.indexDocId == m.indexDocId && r.contentId == m.contentId
    ensures r.content == m.content && r.indexFields == m.indexFields
  {
    m.(contentType := v)
  }

  function SetContent(m: Metadata, v: Option<Bytes>): (r: Metadata)
    ensures r.content == v
    ensures r.indexName == m.indexName && r.indexDocId == m.indexDocId && r.contentId == m.contentId
    ensures r.contentType == m.contentType && r.indexFields == m.indexFields
  {
    m.(content := v)
  }

  function SetIndexFields(m: Metadata, v: Option<Fields>): (r: Metadata)
    ensures r.indexFields == v
    ensures r.indexName == m.indexName && r.indexDocId == m.indexDocId && r.contentId == m.contentId
    ensures r.contentType == m.contentType && r.content == m.content
  {
    m.(indexFields := v)
  }

  /** The getters invert `Of`: every record is what `Of` builds from its own six fields. */
  lemma OfRebuildsRecord(m: Metadata)
    ensures Of(m.indexName, m.indexDocId, m.contentId, m.contentType, m.content, m.indexFields) == m
  {
  }

  /** The no-argument constructor followed by the six setters builds the same record as `Of`. */
  lemma SettersAgreeWithOf(indexName: Option<string>, indexDocId: Option<string>, contentId: Option<string>,
                           contentType: Option<string>, content: Option<Bytes>, indexFields: Option<Fields>)
    ensures SetIndexFields(SetContent(SetContentType(SetContentId(SetIndexDocId(SetIndexName(
              Empty(), indexName), indexDocId), contentId), contentType), content), indexFields)
            == Of(indexName, indexDocId, contentId, contentType, content, indexFields)
  {
  }
}
