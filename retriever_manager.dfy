/**
  RetrieverManager.retrieve_context (services/retriever_manager.py): turns the
  chunks the vector store returns for a question into one context text, in
  which every chunk carries a provenance line, and an ordered list of
  references. The vector store's `search` is an input: a function from the
  search request to the retrieved chunks, or to the message of the exception
  it raised.
 */
module Retriever {
  import opened Common

  /** A retrieved chunk: its `page_content` and its `metadata` dictionary. */
  datatype RetrievedDoc = RetrievedDoc(pageContent: string, metadata: map<string, string>)

  /** One entry of the returned `references` list. */
  datatype Reference = Reference(title: string, url: string)

  /** The returned `{"context": ..., "references": ...}` dictionary. */
  datatype RetrievedContext = RetrievedContext(context: string, references: seq<Reference>)

  /** The arguments passed to `vector_db_manager.search`. */
  datatype SearchRequest = SearchRequest(query: string, k: int, searchType: string, threshold: real)

  /** The vector store's search: the chunks found, or the exception's message. */
  type Search = SearchRequest -> Result<seq<RetrievedDoc>, string>

  /** The keyword defaults of `retrieve_context`. */
  const DefaultK: int := 3
  const DefaultSearchType: string := "similarity"
  const DefaultThreshold: real := 0.7

  /** The fixed answer when nothing was found. */
  const NoInformation: string := "주어진 정보에서 질문에 대한 정보를 찾을 수 없습니다."
  const UntitledTitle: string := "제목 없음"
  const MissingUrl: string := "URL 없음"
  const ProvenanceLabel: string := "\n출처: "
  const PieceSeparator: string := "\n\n"
  const RetrievalErrorPrefix: string := "Error during context retrieval: "

  /** Python's `metadata.get(key, default)`. */
  function MetaGet(metadata: map<string, string>, key: string, default: string): string {
    if key in metadata then metadata[key] else default
  }

  function ReferenceOf(d: RetrievedDoc): Reference {
    Reference(MetaGet(d.metadata, "title", UntitledTitle), MetaGet(d.metadata, "url", MissingUrl))
  }

  /** One chunk of context: the chunk text, then a line naming its source. */
  function ContextPiece(d: RetrievedDoc): (piece: string)
    ensures |piece| > |d.pageContent| && d.pageContent <= piece && piece[|d.pageContent|] == '\n'
  {
    var ref := ReferenceOf(d);
    d.pageContent + ProvenanceLabel + ref.title + " (" + ref.url + ")"
  }

  function Pieces(docs: seq<RetrievedDoc>): (ps: seq<string>)
    ensures |ps| == |docs|
  {
    seq(|docs|, i requires 0 <= i < |docs| => ContextPiece(docs[i]))
  }

  /** The context text: the pieces joined by blank lines, or the sentinel.
      Without chunks it is the sentinel; otherwise the first chunk's text
      opens it. */
  function AssembledContext(docs: seq<RetrievedDoc>): (c: string)
    ensures docs == [] ==> c == NoInformation
    ensures docs != [] ==> docs[0].pageContent <= c
  {
    var ps := Pieces(docs);
    var joined := Join(ps, PieceSeparator);
    assert docs != [] ==> docs[0].pageContent <= joined by {
      if docs != [] {
        JoinStartsWithFirst(ps, PieceSeparator);
        var n := |docs[0].pageContent|;
        assert joined[..n] == ps[0][..n] == docs[0].pageContent;
      }
    }
    if joined != "" then joined else NoInformation
  }

  /** The context is never empty, and it is the sentinel exactly when nothing
      was retrieved: every piece contains a line break and the sentinel none. */
  lemma AssembledContextSentinel(docs: seq<RetrievedDoc>)
    ensures AssembledContext(docs) != ""
    ensures AssembledContext(docs) == NoInformation <==> docs == []
  {
    if docs != [] {
      var ps := Pieces(docs);
      JoinStartsWithFirst(ps, PieceSeparator);
      var joined := Join(ps, PieceSeparator);
      var n := |docs[0].pageContent|;
      assert joined[n] == ps[0][n] == '\n';
      assert forall k :: 0 <= k < |NoInformation| ==> NoInformation[k] != '\n';
    }
  }

  /** `retrieve_context(question, k, search_type, similarity_threshold)`:
      one reference per retrieved chunk in retrieval order, the context text
      assembled from the pieces, and every failure re-raised with a prefix. */
  method RetrieveContext(search: Search, question: string, k: int, searchType: string, threshold: real)
    returns (r: Result<RetrievedContext, string>)
    ensures search(SearchRequest(question, k, searchType, threshold)).Err? ==>
      r == Err(RetrievalErrorPrefix + search(SearchRequest(question, k, searchType, threshold)).error)
    ensures search(SearchRequest(question, k, searchType, threshold)).Ok? ==>
      var docs := search(SearchRequest(question, k, searchType, threshold)).value;
      && r.Ok?
      && r.value.context == AssembledContext(docs)
      && |r.value.references| == |docs|
      && (forall i :: 0 <= i < |docs| ==> r.value.references[i] == ReferenceOf(docs[i]))
  {
    var found := search(SearchRequest(question, k, searchType, threshold));
    if found.Err? {
      return Err(RetrievalErrorPrefix + found.error);
    }
    var docs := found.value;
    var references: seq<Reference> := [];
    var contextList: seq<string> := [];
    for i := 0 to |docs|
      invariant |references| == |contextList| == i
      invariant forall j :: 0 <= j < i ==> references[j] == ReferenceOf(docs[j])
      invariant forall j :: 0 <= j < i ==> contextList[j] == ContextPiece(docs[j])
    {
      var doc := docs[i];
      var title := MetaGet(doc.metadata, "title", UntitledTitle);
      var url := MetaGet(doc.metadata, "url", MissingUrl);
      contextList := contextList + [doc.pageContent + ProvenanceLabel + title + " (" + url + ")"];
      references := references + [Reference(title, url)];
    }
    assert contextList == Pieces(docs);
    var context := Join(contextList, PieceSeparator);
    r := Ok(RetrievedContext(if context != "" then context else NoInformation, references));
  }

  /** `retrieve_context(question)` with its keyword defaults. */
  method RetrieveContextDefault(search: Search, question: string)
    returns (r: Result<RetrievedContext, string>)
    ensures search(SearchRequest(question, 3, "similarity", 0.7)).Ok? ==>
      r.Ok? && r.value.context == AssembledContext(search(SearchRequest(question, 3, "similarity", 0.7)).value)
    ensures search(SearchRequest(question, 3, "similarity", 0.7)).Err? ==> r.Err?
  {
    r := RetrieveContext(search, question, DefaultK, DefaultSearchType, DefaultThreshold);
  }
}
