/**
  AnswerGenerator.generate_answer (services/answer_generator.py): numbers the
  retrieved documents into a fixed prompt template, asks the LLM once, and
  accepts a reply that has a `content` attribute or is a plain string. The LLM
  is an input: a function from the prompt to what `invoke` returns or raises.
  A document is given by its `page_content`.
 */
module AnswerGeneration {
  import opened Common

  /** The fixed parts of the prompt template around `{documents}` and `{query}`. */
  const TemplateHead: string :=
    "You are a helpful assistant that provides answers based on the given documents.\n            Here are the documents:\n            "
  const TemplateQuestion: string := "\n            Question: "
  const TemplateAnswer: string := "\n            Answer:"

  const CannotFindAnswer: string := "Cannot find answer from the information given."
  const UnexpectedFormat: string := "Unexpected response format from LLM."
  const AnswerErrorPrefix: string := "Error generating answer: "

  /** `f"Document {i + 1}: {doc.page_content}"` for the document at index `i`. */
  function DocumentLine(i: nat, content: string): string {
    "Document " + NatToString(i + 1) + ": " + content
  }

  function DocumentLines(docs: seq<string>): (ls: seq<string>)
    ensures |ls| == |docs|
    ensures forall i :: 0 <= i < |docs| ==> ls[i] == DocumentLine(i, docs[i])
  {
    seq(|docs|, i requires 0 <= i < |docs| => DocumentLine(i, docs[i]))
  }

  /** The numbered documents, one per line. */
  function DocumentsBlock(docs: seq<string>): string {
    Join(DocumentLines(docs), "\n")
  }

  /** The documents are numbered from 1 in input order: one more document
      adds one line, labelled with the next number, at the end. */
  lemma {:induction false} DocumentsBlockSnoc(docs: seq<string>, d: string)
    ensures DocumentsBlock(docs + [d]) ==
      (if docs == [] then "" else DocumentsBlock(docs) + "\n") + "Document " + NatToString(|docs| + 1) + ": " + d
  {
    assert DocumentLines(docs + [d]) == DocumentLines(docs) + [DocumentLine(|docs|, d)];
    JoinSnoc(DocumentLines(docs), DocumentLine(|docs|, d), "\n");
  }

  /** The template with `{documents}` and `{query}` filled in: the numbered
      documents follow the fixed opening, and the prompt ends with the
      question and the answer cue. */
  function AnswerPrompt(docs: seq<string>, question: string): (p: string)
    ensures TemplateHead + DocumentsBlock(docs) <= p
    ensures |p| >= |question + TemplateAnswer|
    ensures p[|p| - |question + TemplateAnswer|..] == question + TemplateAnswer
  {
    var head := TemplateHead + DocumentsBlock(docs) + TemplateQuestion;
    var p := head + (question + TemplateAnswer);
    assert p == TemplateHead + DocumentsBlock(docs) + TemplateQuestion + question + TemplateAnswer;
    assert p[|head|..] == question + TemplateAnswer;
    assert (TemplateHead + DocumentsBlock(docs)) + TemplateQuestion <= head;
    p
  }

  /** `generate_answer(question, documents)`: no documents gives the fixed
      reply without asking the LLM; otherwise the reply's content or text, and
      any other reply or LLM error is raised with a prefix. */
  function GenerateAnswer(question: string, documents: seq<string>, llm: string -> LlmResponse)
    : (r: Result<string, string>)
    ensures documents == [] ==> r == Ok(CannotFindAnswer)
    ensures documents != [] ==>
      var reply := llm(AnswerPrompt(documents, question));
      && (reply.AiMessageReply? ==> r == Ok(reply.content))
      && (reply.TextReply? ==> r == Ok(reply.text))
      && (reply.OtherReply? ==> r == Err(AnswerErrorPrefix + UnexpectedFormat))
      && (reply.Raised? ==> r == Err(AnswerErrorPrefix + reply.message))
  {
    if documents == [] then Ok(CannotFindAnswer)
    else
      var reply := llm(AnswerPrompt(documents, question));
      if reply.AiMessageReply? then Ok(reply.content)
      else if reply.TextReply? then Ok(reply.text)
      else if reply.OtherReply? then Err(AnswerErrorPrefix + UnexpectedFormat)
      else Err(AnswerErrorPrefix + reply.message)
  }

  /** With no documents the answer does not depend on the LLM at all. */
  lemma EmptyDocumentsSkipLlm(question: string, llm1: string -> LlmResponse, llm2: string -> LlmResponse)
    ensures GenerateAnswer(question, [], llm1) == GenerateAnswer(question, [], llm2) == Ok(CannotFindAnswer)
  {
  }

  /** A successful answer is always what the LLM said for the numbered prompt. */
  lemma AnswerComesFromLlm(question: string, documents: seq<string>, llm: string -> LlmResponse)
    requires documents != []
    requires GenerateAnswer(question, documents, llm).Ok?
    ensures var reply := llm(AnswerPrompt(documents, question));
      (reply.AiMessageReply? && GenerateAnswer(question, documents, llm).value == reply.content)
      || (reply.TextReply? && GenerateAnswer(question, documents, llm).value == reply.text)
  {
  }
}
