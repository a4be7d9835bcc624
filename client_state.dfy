// `for_client` (backend/services/chatbots/chat4u/state.py): the part of the chat
// graph state that is sent to the browser, the file name of each retrieved
// document and nothing else.

module ClientState {
  import opened Values

  /** The graph state as `for_client` reads it: the retrieved documents, or None
      when the state has no `"documents"` key. The message history is not read. */
  datatype State = State(documents: Option<seq<Document>>)

  /** One entry of `"sources"`: a dictionary holding `"file_name"`. */
  type Source = map<string, Value>

  /** `doc.metadata.get("source")`, with Python's None written as JSON null. */
  function FileName(d: Document): (v: Value)
    ensures "source" in d.metadata ==> v == d.metadata["source"]
    ensures "source" !in d.metadata ==> v == Null
  {
    match Get(d.metadata, "source")
    case Some(s) => s
    case None => Null
  }

  function SourceOf(d: Document): Source
  {
    map["file_name" := FileName(d)]
  }

  /** The dictionary `for_client` returns. */
  function ForClient(s: State): (r: map<string, seq<Source>>)
    ensures s.documents.None? ==> r == map[]
    ensures s.documents.Some? ==> r.Keys == {"sources"} && |r["sources"]| == |s.documents.value|
    ensures s.documents.Some? ==>
              forall i :: 0 <= i < |r["sources"]| ==> r["sources"][i] == SourceOf(s.documents.value[i])
  {
    match s.documents
    case None => map[]
    case Some(docs) =>
      map["sources" := seq(|docs|, i requires 0 <= i < |docs| => SourceOf(docs[i]))]
  }

  /** Only the `"source"` metadata of each document reaches the client: two document
      lists of the same length that agree on it give the same answer, whatever their
      page text and other metadata. */
  lemma OnlySourceMatters(a: seq<Document>, b: seq<Document>)
    requires |a| == |b|
    requires forall i :: 0 <= i < |a| ==> Get(a[i].metadata, "source") == Get(b[i].metadata, "source")
    ensures ForClient(State(Some(a))) == ForClient(State(Some(b)))
  {
    var ra := ForClient(State(Some(a)))["sources"];
    var rb := ForClient(State(Some(b)))["sources"];
    assert forall i :: 0 <= i < |ra| ==> ra[i] == SourceOf(a[i]) == SourceOf(b[i]) == rb[i];
    assert ra == rb;
  }

  /** The projection works document by document: the sources of two lists read one
      after the other are the sources of each list, in the same order. */
  lemma SourcesAppend(a: seq<Document>, b: seq<Document>)
    ensures ForClient(State(Some(a + b)))["sources"]
         == ForClient(State(Some(a)))["sources"] + ForClient(State(Some(b)))["sources"]
  {
    var r := ForClient(State(Some(a + b)))["sources"];
    var ra := ForClient(State(Some(a)))["sources"];
    var rb := ForClient(State(Some(b)))["sources"];
    assert forall i :: 0 <= i < |r| ==> r[i] == (ra + rb)[i] by {
      forall i | 0 <= i < |r| ensures r[i] == (ra + rb)[i] {
        if i < |a| {
          assert (a + b)[i] == a[i];
        } else {
          assert (a + b)[i] == b[i - |a|];
        }
      }
    }
  }

  /** A file name is JSON null exactly when the document's metadata has no usable
      `"source"`: the key is missing or holds null. */
  lemma FileNameNull(d: Document)
    ensures FileName(d) == Null <==> Get(d.metadata, "source").None?
  {
  }
}
