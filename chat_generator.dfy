/**
  ChatGenerator (services/chat_generator.py): the per-user in-memory message
  history, the instruction read from the active prompt, the prompt that
  combines instruction, history, question and context, and the answer with
  its "참고 자료" (references) block. The LLM is an input: a function from the
  formatted prompt to what `llm.invoke` returns or raises.
 */
module ChatGeneration {
  import opened Common
  import opened Models
  import opened Retriever
  import AdminRoutes

  const DefaultInstruction: string :=
    "You are an assistant for question-answering tasks. Use the following pieces of retrieved context to answer the question. If you don't know the answer, just say that you don't know. Answer in Korean."
  const MissingContext: string := "문맥 정보가 제공되지 않았습니다."
  const GenerationFailed: string := "답변을 생성하는 중 오류가 발생했습니다."
  const SourcesHeading: string := "\n\n참고 자료:\n"

  /** The fixed text of the prompt template around its three variables. */
  const HistoryHeading: string := "\n\n            #Previous Chat History:\n            "
  const QuestionHeading: string := "\n\n            #Question: \n            "
  const ContextHeading: string := " \n\n            #Context: \n            "
  const AnswerHeading: string := " \n\n            #Answer:"
  const ReprFields: string := "', additional_kwargs={}, response_metadata={})"

  /** A `HumanMessage` or an `AIMessage` of a chat history. */
  datatype Message = Human(content: string) | Ai(content: string)

  type Llm = string -> LlmResponse

  /** The `context` dictionary handed to `generate_answer`; a missing key is `None`. */
  datatype ContextInput = ContextInput(context: Option<string>, references: Option<seq<Reference>>)

  /** `LLMPrompt.query.filter_by(is_active=True).first()`: the first active row, or -1. */
  function FirstActive(ps: seq<LlmPrompt>): (k: int)
    ensures -1 <= k < |ps|
    ensures k >= 0 ==> ps[k].isActive && forall i :: 0 <= i < k ==> !ps[i].isActive
    ensures k == -1 <==> forall i :: 0 <= i < |ps| ==> !ps[i].isActive
    decreases |ps|
  {
    if |ps| == 0 then -1
    else if ps[0].isActive then 0
    else
      var k := FirstActive(ps[1..]);
      if k < 0 then -1 else k + 1
  }

  /** `get_prompt_instruction`: the active prompt's text, or the default
      instruction when no prompt is active. */
  function GetPromptInstruction(ps: seq<LlmPrompt>): (r: string)
    ensures (forall i :: 0 <= i < |ps| ==> !ps[i].isActive) ==> r == DefaultInstruction
    ensures (exists i :: 0 <= i < |ps| && ps[i].isActive) ==>
      exists i :: 0 <= i < |ps| && ps[i].isActive && r == ps[i].text
  {
    var k := FirstActive(ps);
    if k < 0 then DefaultInstruction else ps[k].text
  }

  /** Once a prompt has been activated, the generator built next uses its text. */
  lemma InstructionAfterActivation(ps: seq<LlmPrompt>, id: int, now: int)
    requires IdsUnique(ps, PromptId)
    requires IndexOfId(ps, id, PromptId) >= 0
    ensures GetPromptInstruction(AdminRoutes.Activated(ps, id, now)) == ps[IndexOfId(ps, id, PromptId)].text
  {
    var qs := AdminRoutes.Activated(ps, id, now);
    var k := IndexOfId(ps, id, PromptId);
    AdminRoutes.ActivatedExactlyOne(ps, id, now);
    assert FirstActive(qs) == k;
  }

  /** The history the store holds for a user, the empty one before first use. */
  function HistoryOf(store: map<string, seq<Message>>, userId: string): seq<Message> {
    if userId in store then store[userId] else []
  }

  lemma UpdateTwice(m: map<string, seq<Message>>, k: string, a: seq<Message>, b: seq<Message>)
    ensures m[k := a][k := b] == m[k := b]
  {
  }

  /** The start of a message's `repr`, which names its class. */
  function ReprOpening(m: Message): string {
    if m.Human? then "HumanMessage(content='" else "AIMessage(content='"
  }

  /** How a message shows in the formatted prompt (its Python `repr`): the
      class name, then the content, in full, at a fixed place. */
  function MessageRepr(m: Message): (r: string)
    ensures |r| == |ReprOpening(m)| + |m.content| + |ReprFields|
    ensures ReprOpening(m) <= r
    ensures r[|ReprOpening(m)|..|ReprOpening(m)| + |m.content|] == m.content
  {
    var r := ReprOpening(m) + m.content + ReprFields;
    assert r[|ReprOpening(m)|..|ReprOpening(m)| + |m.content|] == m.content;
    r
  }

  /** Different messages print differently: the printed history tells the
      human's messages from the AI's and keeps every content. */
  lemma MessageReprInjective(a: Message, b: Message)
    requires MessageRepr(a) == MessageRepr(b)
    ensures a == b
  {
    var r := MessageRepr(a);
    assert r[0] == ReprOpening(a)[0] && r[0] == ReprOpening(b)[0];
    assert a.Human? == b.Human?;
    assert a.content == r[|ReprOpening(a)|..|ReprOpening(a)| + |a.content|];
  }

  function MessageReprs(h: seq<Message>): (rs: seq<string>)
    ensures |rs| == |h|
    ensures forall i :: 0 <= i < |h| ==> rs[i] == MessageRepr(h[i])
  {
    seq(|h|, i requires 0 <= i < |h| => MessageRepr(h[i]))
  }

  /** The message list as the template prints it. */
  function HistoryRepr(h: seq<Message>): string {
    "[" + Join(MessageReprs(h), ", ") + "]"
  }

  /** The prompt template up to the history: the instruction and a heading. */
  function PromptHead(instruction: string): string {
    instruction + HistoryHeading
  }

  /** The prompt template after the history: the question and the context. */
  function PromptTail(question: string, context: string): string {
    QuestionHeading + question + ContextHeading + context + AnswerHeading
  }

  /** The prompt template with its three variables filled in: the
      instruction and the printed history open it, and the question and the
      context close it. */
  function ChatPrompt(instruction: string, history: seq<Message>, question: string, context: string): (p: string)
    ensures PromptHead(instruction) + HistoryRepr(history) <= p
    ensures |p| >= |PromptTail(question, context)|
    ensures p[|p| - |PromptTail(question, context)|..] == PromptTail(question, context)
  {
    var head := PromptHead(instruction) + HistoryRepr(history);
    var p := head + PromptTail(question, context);
    assert p[|head|..] == PromptTail(question, context);
    p
  }

  /** The history's text up to its last message. */
  function HistoryOpening(h: seq<Message>): string {
    if h == [] then "[" else "[" + Join(MessageReprs(h), ", ") + ", "
  }

  /** The history's text ends with the last message added to it. */
  lemma HistoryReprSnoc(h: seq<Message>, m: Message)
    ensures HistoryRepr(h + [m]) == HistoryOpening(h) + (MessageRepr(m) + "]")
  {
    assert MessageReprs(h + [m]) == MessageReprs(h) + [MessageRepr(m)];
    BracketedSnoc(MessageReprs(h), MessageRepr(m), ", ");
  }

  /** The question, already added to the history, shows in the history part
      of the prompt, as its last message, right before the list closes. */
  lemma PromptShowsQuestionInHistory(instruction: string, h: seq<Message>, question: string, context: string)
    ensures ChatPrompt(instruction, h + [Human(question)], question, context) ==
      PromptHead(instruction) + (HistoryOpening(h) + (MessageRepr(Human(question)) + "]")) + PromptTail(question, context)
    ensures IsSubstring(MessageRepr(Human(question)) + "]", ChatPrompt(instruction, h + [Human(question)], question, context))
  {
    HistoryReprSnoc(h, Human(question));
    SubstringAfter(PromptHead(instruction), HistoryOpening(h), MessageRepr(Human(question)) + "]",
                   PromptTail(question, context));
  }

  function ContextText(ctx: ContextInput): string {
    if ctx.context.Some? then ctx.context.value else MissingContext
  }

  function ReferencesOf(ctx: ContextInput): seq<Reference> {
    if ctx.references.Some? then ctx.references.value else []
  }

  function SourceLine(ref: Reference): string {
    "- " + ref.title + " (" + ref.url + ")"
  }

  function SourceLines(refs: seq<Reference>): (ls: seq<string>)
    ensures |ls| == |refs|
    ensures forall i :: 0 <= i < |refs| ==> ls[i] == SourceLine(refs[i])
  {
    seq(|refs|, i requires 0 <= i < |refs| => SourceLine(refs[i]))
  }

  /** The raw answer followed, when there are references, by the sources block. */
  function WithSources(raw: string, refs: seq<Reference>): (r: string)
    ensures raw <= r
    ensures refs == [] <==> r == raw
  {
    if refs == [] then raw else raw + SourcesHeading + Join(SourceLines(refs), "\n")
  }

  /** The sources block lists the references in order, one line each: one
      more reference adds exactly its line at the end. */
  lemma {:induction false} WithSourcesSnoc(raw: string, refs: seq<Reference>, ref: Reference)
    ensures WithSources(raw, refs + [ref]) ==
      if refs == [] then raw + SourcesHeading + SourceLine(ref)
      else WithSources(raw, refs) + "\n" + SourceLine(ref)
  {
    assert SourceLines(refs + [ref]) == SourceLines(refs) + [SourceLine(ref)];
    JoinSnoc(SourceLines(refs), SourceLine(ref), "\n");
  }

  /** The final answer the LLM's response leads to, or `None` when the call
      (or using its result) raises: the reply's text opens the answer, and is
      all of it when there are no references. */
  function Outcome(response: LlmResponse, refs: seq<Reference>): (r: Option<string>)
    ensures r.None? <==> response.OtherReply? || response.Raised?
    ensures response.AiMessageReply? ==> r.Some? && response.content <= r.value
    ensures response.TextReply? ==> r.Some? && response.text <= r.value
    ensures r.Some? && refs == [] ==>
      r.value == if response.AiMessageReply? then response.content else response.text
  {
    match response
    case AiMessageReply(c) => Some(WithSources(c, refs))
    case TextReply(t) => Some(WithSources(t, refs))
    case OtherReply => None
    case Raised(_) => None
  }

  /** The attributes a `RetrieverManager` has once built: only
      `vector_db_manager` (services/retriever_manager.py:6-10). */
  const RetrieverManagerAttributes: set<string> := {"vector_db_manager"}
  /** The message of the AttributeError raised by reading a missing `vectorstore`. */
  const NoVectorstore: string := "'RetrieverManager' object has no attribute 'vectorstore'"

  /** `ChatGenerator(retriever_manager)` as written, for a manager with the
      given attributes: reading `retriever_manager.vectorstore` raises unless
      the manager has that attribute, and only then is the instruction read.
      The result is the instruction, or the message of what was raised. */
  function BuildAsWritten(managerAttributes: set<string>, prompts: seq<LlmPrompt>): (r: Result<string, string>)
    ensures r.Ok? <==> "vectorstore" in managerAttributes
    ensures r.Err? ==> r.error == NoVectorstore
    ensures r.Ok? ==> r.value == GetPromptInstruction(prompts)
  {
    if "vectorstore" !in managerAttributes then Err(NoVectorstore)
    else Ok(GetPromptInstruction(prompts))
  }

  /** No generator can be built from a `RetrieverManager`, whatever the
      prompt table holds: every chat request fails before `generate_answer`. */
  lemma GeneratorNeverBuilt(prompts: seq<LlmPrompt>)
    ensures BuildAsWritten(RetrieverManagerAttributes, prompts) == Err(NoVectorstore)
    ensures forall attributes :: BuildAsWritten(attributes, prompts).Ok? ==> "vectorstore" in attributes
  {
  }

  class ChatGenerator {
    /** `message_history_store`: each user's history, created on first use. */
    var store: map<string, seq<Message>>
    /** The instruction read from the prompt table when the generator is built. */
    const promptInstruction: string

    constructor (prompts: seq<LlmPrompt>)
      ensures store == map[]
      ensures promptInstruction == GetPromptInstruction(prompts)
    {
      store := map[];
      promptInstruction := GetPromptInstruction(prompts);
    }

    /** `get_session_history`: creates an empty history on a user's first
        access, returns the stored one afterwards; other users are untouched. */
    method GetSessionHistory(userId: string) returns (h: seq<Message>)
      modifies this
      ensures userId in store && h == store[userId]
      ensures userId in old(store) ==> store == old(store)
      ensures userId !in old(store) ==> store == old(store)[userId := []]
    {
      if userId !in store {
        store := store[userId := []];
      }
      h := store[userId];
    }

    /** `add_user_message`: one human message at the end of that user's history. */
    method AddUserMessage(userId: string, content: string)
      modifies this
      ensures store == old(store)[userId := HistoryOf(old(store), userId) + [Human(content)]]
    {
      var h := GetSessionHistory(userId);
      store := store[userId := h + [Human(content)]];
    }

    /** `add_ai_message`: one AI message at the end of that user's history. */
    method AddAiMessage(userId: string, content: string)
      modifies this
      ensures store == old(store)[userId := HistoryOf(old(store), userId) + [Ai(content)]]
    {
      var h := GetSessionHistory(userId);
      store := store[userId := h + [Ai(content)]];
    }

    /** `generate_answer`: records the question, asks the LLM with a prompt
        whose history already holds the question, and on success records and
        returns the answer with its sources block (history grows by two); on
        any failure returns the fixed apology (history grows by one). */
    method GenerateAnswer(userId: string, question: string, ctx: ContextInput, llm: Llm)
      returns (answer: string)
      modifies this
      ensures
        var h := HistoryOf(old(store), userId);
        var outcome := Outcome(llm(ChatPrompt(promptInstruction, h + [Human(question)], question, ContextText(ctx))),
                               ReferencesOf(ctx));
        && (outcome.Some? ==> answer == outcome.value && store == old(store)[userId := h + [Human(question)] + [Ai(answer)]])
        && (outcome.None? ==> answer == GenerationFailed && store == old(store)[userId := h + [Human(question)]])
    {
      ghost var h := HistoryOf(store, userId);
      var contextText := ContextText(ctx);
      var references := ReferencesOf(ctx);
      AddUserMessage(userId, question);
      var chatHistory := GetSessionHistory(userId);
      assert chatHistory == h + [Human(question)];
      var formattedPrompt := ChatPrompt(promptInstruction, chatHistory, question, contextText);
      // The call, the reading of its result and the sources block all sit
      // inside the source's `try`; `Outcome` is `None` when any of them raises.
      var outcome := Outcome(llm(formattedPrompt), references);
      if outcome.None? {
        return GenerationFailed;
      }
      answer := outcome.value;
      AddAiMessage(userId, answer);
      UpdateTwice(old(store), userId, h + [Human(question)], h + [Human(question)] + [Ai(answer)]);
    }
  }
}
