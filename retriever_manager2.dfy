/**
  The simpler RetrieverManager.retrieve_context (services/retriever_manager2.py):
  the retrieved chunk texts joined by blank lines, or the "no information"
  sentinel when that join is empty.
 */
module PlainRetriever {
  import opened Common
  import opened Retriever

  function Contents(docs: seq<RetrievedDoc>): (cs: seq<string>)
    ensures |cs| == |docs|
    ensures forall i :: 0 <= i < |docs| ==> cs[i] == docs[i].pageContent
  {
    seq(|docs|, i requires 0 <= i < |docs| => docs[i].pageContent)
  }

  /** `retrieve_context(...)`: the chunk texts joined in retrieval order, the
      sentinel when the join is empty (no chunk, or a single empty chunk), and
      never the empty string; a failed search is re-raised with a prefix. */
  function RetrieveText(search: Search, question: string, k: int, searchType: string, threshold: real)
    : (r: Result<string, string>)
    ensures r.Ok? ==> r.value != ""
    ensures search(SearchRequest(question, k, searchType, threshold)).Err? ==>
      r == Err(RetrievalErrorPrefix + search(SearchRequest(question, k, searchType, threshold)).error)
    ensures search(SearchRequest(question, k, searchType, threshold)).Ok? ==>
      var docs := search(SearchRequest(question, k, searchType, threshold)).value;
      if docs == [] || (|docs| == 1 && docs[0].pageContent == "") then r == Ok(NoInformation)
      else r == Ok(Join(Contents(docs), PieceSeparator))
  {
    match search(SearchRequest(question, k, searchType, threshold))
    case Err(e) => Err(RetrievalErrorPrefix + e)
    case Ok(docs) =>
      var context := Join(Contents(docs), PieceSeparator);
      JoinEmptyIff(Contents(docs), PieceSeparator);
      Ok(if context != "" then context else NoInformation)
  }
}
