# A verified model of the RAG chatbot backend's bookkeeping

This project is a Dafny model of a Flask backend for a retrieval-augmented
chatbot. It covers the logic the backend itself owns around the vector
store, the LLM, the database, JWT and bcrypt:

- **Context assembly.** Two retrievers turn retrieved chunks into a context
  text. One adds a provenance line per chunk and an ordered reference list;
  the other only joins the chunk texts. Both return a fixed "no information"
  sentinel when nothing was found.
- **Answer composition.** One generator numbers the documents into a
  prompt. The other keeps an in-memory message history per user, reads the
  active prompt's instruction (or a default), builds the prompt with the
  question already in the history, and appends a "참고 자료" (references)
  block. It records one message on failure and two on success.
- **Stores.**
  - `llm_prompts`: activation leaves exactly one prompt active.
  - `files`: uploads pass a validation cascade; deletion by id; sorted listing.
  - `users`: signup checks run in a fixed order.
  - `chat_history`: append-only, queried per user, newest first.
- **String and path rules.**
  - The extension allow-list and the 25 MiB limit.
  - The PDF title (base name, last extension stripped) and the OCR fallback.
  - Excerpt truncation.
  - Parsing of `Authorization: Bearer <token>` headers (section 2.1 of RFC 6750).

Foreign calls become inputs. Each is passed in as a function or as the
value it produced: what it returned, or the message of the exception it
raised. This covers:

- the vector store's `search`, LLM `invoke`, `jwt.decode`/`jwt.encode` and bcrypt's verdict;
- the PDF loader and page OCR, and the web loader;
- the clock, uuid generation, and a failing database commit.

Table rows are datatypes held in `seq` fields of classes whose methods
update them. A route that returns before `db.session.commit()` leaves its
table unchanged, because the request's uncommitted session is discarded.
The routes reuse a module-level `current_time`, so `updated_at` and
`upload_date` both receive the time the routes module was loaded. The
model keeps that as the store's `loadTime`.

Some facts about the code that shape the model:

- References carry only a title and a URL; no similarity score is computed (services/retriever_manager.py:28-34).
- The in-memory chat history is keyed by user id, and all of it is printed into every prompt (services/chat_generator.py:59-62, 81-88).
- The chat log is filtered by user and returned newest first, all of it, with no window (services/chat_service.py:34).
- The PDF title is always taken from the file name (services/document_fetcher.py:95-97).

## Layout

| file | module | models |
|---|---|---|
| common.dfy | Common | `Option`/`Result`, the Flask error reply, and Python string operations: `join`, `rfind`, `lower`, `strip`, slicing, `str(int)` |
| ordering.dfy | Ordering | column keys, their order, and the sort behind `ORDER BY` |
| models.dfy | Models | the rows of models/models.py and the first-match lookups |
| retriever_manager.dfy | Retriever | services/retriever_manager.py |
| retriever_manager2.dfy | PlainRetriever | services/retriever_manager2.py |
| chat_generator.dfy | ChatGeneration | services/chat_generator.py |
| answer_generator.dfy | AnswerGeneration | services/answer_generator.py |
| chat_service.dfy | ChatLogging | services/chat_service.py |
| admin_routes.dfy | AdminRoutes | api/admin_routes.py |
| docs.dfy | Documents | services/docs.py |
| document_fetcher.dfy | DocumentFetcher | services/document_fetcher.py |
| file_routes.dfy | FileRoutes | api/file_routes.py |
| auth_routes.dfy | AuthRoutes | api/auth_routes.py |

## Model

| member | source | states |
|---|---|---|
| Retriever.ContextPiece | services/retriever_manager.py:28-33 | a chunk's piece opens with the chunk text, and a line break follows it at once (the "출처" provenance line) |
| Retriever.AssembledContext | services/retriever_manager.py:37-41 | with no chunks the context is the "no information" sentinel; otherwise the first chunk's text opens it |
| Retriever.AssembledContextSentinel | services/retriever_manager.py:37-43 | the context is never empty, and it is the sentinel exactly when no chunk was retrieved |
| Retriever.RetrieveContext | services/retriever_manager.py:12-45 | one reference per chunk, in retrieval order, with "제목 없음"/"URL 없음" for a missing title/url; the context is the pieces joined by blank lines, or the sentinel; a failed search is re-raised with "Error during context retrieval: " |
| Retriever.RetrieveContextDefault | services/retriever_manager.py:12 | the defaults k=3, "similarity", 0.7 are what reaches the search |
| PlainRetriever.RetrieveText | services/retriever_manager2.py:11-23 | the chunk texts joined by blank lines in order; the sentinel when there are no chunks or one empty chunk; never empty; failures re-raised with the prefix |
| Common.JoinEmptyIff | services/retriever_manager2.py:20-21 | with a non-empty separator a join is empty exactly when there is nothing to join or one empty part |
| ChatGeneration.FirstActive | services/chat_generator.py:33 | the position of the first active prompt, or -1 exactly when none is active |
| ChatGeneration.GetPromptInstruction | services/chat_generator.py:31-39 | the default instruction when no prompt is active, otherwise the text of an active prompt |
| ChatGeneration.InstructionAfterActivation | services/chat_generator.py:33-36 | once a prompt is activated, the instruction read next is that prompt's text |
| ChatGeneration.MessageRepr | services/chat_generator.py:84-88 | a message prints as its class name, then its whole content at a fixed place |
| ChatGeneration.MessageReprInjective | services/chat_generator.py:84-88 | two messages that print alike are the same message: kind and content are both recoverable from the printed history |
| ChatGeneration.ChatPrompt | services/chat_generator.py:41-56 | the prompt opens with the instruction, the history heading and the printed history, and closes with the question, the context and the answer cue |
| ChatGeneration.HistoryReprSnoc | services/chat_generator.py:84-88 | the printed history ends with the message added last |
| ChatGeneration.PromptShowsQuestionInHistory | services/chat_generator.py:77-88 | the prompt is exactly the instruction heading, the earlier history, the question's message closing the list, then the question and context; so the question, added before the prompt is built, is the history's last entry |
| ChatGeneration.WithSources | services/chat_generator.py:104-107 | the raw answer opens the final answer, and is all of it exactly when there are no references |
| ChatGeneration.WithSourcesSnoc | services/chat_generator.py:105-107 | the sources block lists "- title (url)" per reference in order, one per line, after "\n\n참고 자료:\n" |
| ChatGeneration.Outcome | services/chat_generator.py:101-110 | an `AIMessage` or a string reply gives an answer that opens with the reply's text, and is exactly that text without references; any other reply or an exception gives no answer |
| ChatGeneration.BuildAsWritten | services/chat_generator.py:11-18 | building a generator succeeds exactly when the retriever manager has a `vectorstore` attribute, and then reads the instruction; otherwise it raises the AttributeError |
| ChatGeneration.GeneratorNeverBuilt | services/chat_generator.py:14 | a `RetrieverManager`, which has only `vector_db_manager`, never yields a generator, whatever the prompt table holds |
| ChatGeneration.ChatGenerator.constructor | services/chat_generator.py:13-18 | a new generator has an empty history store and reads the instruction from the prompt table |
| ChatGeneration.ChatGenerator.GetSessionHistory | services/chat_generator.py:59-62 | first access creates an empty history; later accesses return the stored one; other users untouched |
| ChatGeneration.ChatGenerator.AddUserMessage | services/chat_generator.py:64-66 | exactly one human message appended to that user's history |
| ChatGeneration.ChatGenerator.AddAiMessage | services/chat_generator.py:68-70 | exactly one AI message appended to that user's history |
| ChatGeneration.ChatGenerator.GenerateAnswer | services/chat_generator.py:72-114 | the missing-context text and the empty reference list are used when those keys are absent; the LLM sees the prompt whose history holds the question; on success the answer with sources is returned and the history grows by question and answer; on failure the fixed apology is returned and it grows by the question only |
| AnswerGeneration.DocumentLines | services/answer_generator.py:27 | one line per document, "Document i+1: content", in input order |
| AnswerGeneration.DocumentsBlockSnoc | services/answer_generator.py:27 | the numbered lines are joined by "\n": one more document adds its line, with the next number, at the end |
| AnswerGeneration.AnswerPrompt | services/answer_generator.py:12-18 | the numbered documents follow the fixed opening, and the prompt ends with the question and the answer cue |
| AnswerGeneration.GenerateAnswer | services/answer_generator.py:20-42 | no documents gives "Cannot find answer from the information given."; otherwise a reply's content or its text; any other reply shape or LLM error is raised with "Error generating answer: " |
| AnswerGeneration.EmptyDocumentsSkipLlm | services/answer_generator.py:24-25 | with no documents the answer does not depend on the LLM |
| AnswerGeneration.AnswerComesFromLlm | services/answer_generator.py:32-38 | every successful answer is what the LLM said for the numbered prompt |
| ChatLogging.RowsOf | services/chat_service.py:34 | the filter keeps only rows of that user, and every row of that user |
| ChatLogging.RowsOfCounts | services/chat_service.py:34 | the user filter keeps each row of the user as often as the table has it, and no other row |
| ChatLogging.UserHistory | services/chat_service.py:31-34 | the history holds exactly the user's rows, with their multiplicities, newest first |
| ChatLogging.SavedRowListed | services/chat_service.py:16-24 | a saved exchange shows in its user's history and leaves other users' histories as they were |
| ChatLogging.ChatLog.SaveChat | services/chat_service.py:8-28 | one row with the given user, question, answer and time, and the given conversation id or else the generated one, under an id no earlier row has; on a commit error, nothing stored and the error returned |
| ChatLogging.ChatLog.GetChatHistory | services/chat_service.py:31-34 | a read-only query: the user's rows and no others, newest first |
| Models.IndexOfId | api/admin_routes.py:19 | `query.get(id)`: a row with that id, or -1 exactly when none has it |
| Models.IndexOfIdSameKeys | api/admin_routes.py:54-57 | updating other columns (the `is_active` flags) does not change which row `query.get(id)` finds |
| AdminRoutes.DeactivateAll | api/admin_routes.py:54-56 | every row comes back with `is_active` false and all its other columns as they were, in the same order |
| AdminRoutes.Activated | api/admin_routes.py:54-61 | the activated table has the same rows in the same order, each active exactly when it has that id; `updated_at` becomes the commit time exactly on the rows whose flag flipped (the column's `onupdate`, models/models.py:77), and nothing else changes |
| AdminRoutes.CommitIsActivation | api/admin_routes.py:54-61 | clearing every flag, setting the flag of the row with that id and committing (which stamps `updated_at` on the changed rows only) gives the activated table |
| AdminRoutes.ActivatedKeepsValid | api/admin_routes.py:54-61 | activation keeps every id and prompt name, so the primary key and the unique `prompt_name` stay unique |
| AdminRoutes.ActivatedExactlyOne | api/admin_routes.py:54-61 | after activation exactly the row with that id is active; besides the flags only `updated_at` changes, and only to the commit time |
| AdminRoutes.ActivateIdempotent | api/admin_routes.py:54-61 | activating twice is activating once, whenever the second commit happens: it flips no flag, so it writes no row |
| AdminRoutes.ActivateSoleActiveUnchanged | api/admin_routes.py:54-61 | activating the prompt that is already the only active one leaves the table as it was, timestamps included |
| AdminRoutes.PromptStore.GetAllPrompts | api/admin_routes.py:11-14 | every prompt listed exactly once, in table order, with id, name, text and flag |
| AdminRoutes.PromptStore.GetPrompt | api/admin_routes.py:17-22 | 404 exactly for an unknown id, otherwise that prompt's name and text |
| AdminRoutes.PromptStore.AddPrompt | api/admin_routes.py:25-35 | one inactive prompt with the given name, text and creator appended and 201; a missing key, a taken name or any failed commit is the unhandled 500 with no change |
| AdminRoutes.PromptStore.UpdatePrompt | api/admin_routes.py:38-49 | 404 and no change for an unknown id; a failed commit is the unhandled 500 with no change; otherwise only that row's text and editor (each kept when absent) and its update time change |
| AdminRoutes.PromptStore.ActivatePrompt | api/admin_routes.py:52-62 | for a known id the table becomes the activated table at the commit time `now` (flipped rows stamped) and the reply names the prompt; an unknown id is a 404, and a failed commit the unhandled 500, both with the table unchanged |
| Documents.Docs.Metadata | services/docs.py:9-12 | exactly the keys title and url, with the record's values |
| Documents.Docs.GetExcerpt | services/docs.py:15-17 | content no longer than `length` is returned whole; longer content gives its first `length` characters and "...", `length`+3 in all; without the "..." it is a prefix of the content |
| Documents.NewDocs | services/docs.py:4-12 | the record holds the given content and time, and its metadata is title and url |
| Documents.DefaultExcerptBounded | services/docs.py:15-17 | with the default 300, an excerpt has at most 303 characters and is the content or its first 300 characters and "..." |
| DocumentFetcher.Basename | services/document_fetcher.py:96 | the base name holds no '/' |
| DocumentFetcher.BasenameAfterSlash | services/document_fetcher.py:96 | the base name of "dir/name" is name |
| DocumentFetcher.SplitextRoot | services/document_fetcher.py:97 | the root is a prefix of the name |
| DocumentFetcher.SplitextStripsLastExtension | services/document_fetcher.py:97 | exactly the last extension is stripped |
| DocumentFetcher.SplitextKeepsPlainName | services/document_fetcher.py:97 | a name without a dot, or with only a leading dot, is kept whole |
| DocumentFetcher.PdfTitle | services/document_fetcher.py:95-97 | the title opens the file's base name and holds no '/' |
| DocumentFetcher.PdfTitleOfPath | services/document_fetcher.py:95-97 | the title of "dir/stem.ext" is stem |
| DocumentFetcher.PdfMetadata | services/document_fetcher.py:102 | exactly the keys source and title, with the path and its title |
| DocumentFetcher.ConcatPageAt | services/document_fetcher.py:69-71 | each page's text sits in the OCR text right after the pages before it |
| DocumentFetcher.ExtractTextWithOcr | services/document_fetcher.py:62-81 | the page texts concatenated in page order, or "" when converting or any page's OCR fails |
| DocumentFetcher.LoadPdf | services/document_fetcher.py:83-119 | one document per item the loader's `load_and_split` returned, same text and order, with source and title; OCR only when the loader found nothing, and then one document unless the OCR text is blank; a loader exception gives [] |
| DocumentFetcher.Fetch | services/document_fetcher.py:22-38 | as written: always an error with "Error fetching document: " wrapping the loader's error, the no-content message, or the missing `Docs.from_web` |
| DocumentFetcher.FetchNeverSucceeds | services/document_fetcher.py:35 | a page that loads still cannot be fetched |
| DocumentFetcher.FetchIntended | services/document_fetcher.py:22-38 | succeeds exactly when the loader found a page; the record then holds the first page's text with the given title and URL |
| DocumentFetcher.LoadDocx | services/document_fetcher.py:40-60 | as written: always an error with "Error loading .docx file: " wrapping the loader's error, the no-content message, or the missing `Docs.from_file` |
| FileRoutes.IsAllowedFile | api/file_routes.py:15-16 | a name without a dot is refused, and a name that passes is stored with one of the allowed types |
| FileRoutes.FileType | api/file_routes.py:16 | the stored type is the last extension with no upper-case letter left, differing from it only in letter case |
| FileRoutes.ExtensionAfterLastDot | api/file_routes.py:16 | the extension is what follows the last dot |
| FileRoutes.AllowedFileIff | api/file_routes.py:9-16 | a name with a last extension is allowed exactly when that extension, lower-cased, is txt, docx or pdf, and that is its stored type |
| FileRoutes.IsAdmin | api/file_routes.py:18-24 | an admin has an employee row with that email and the role "admin"; someone with no employee row is never an admin |
| FileRoutes.AdminIff | api/file_routes.py:18-24 | with one row per email, a user is an admin exactly when their role is exactly "admin" |
| FileRoutes.UploadCheck | api/file_routes.py:26-55 | passes exactly when username, admin, file, type, size and user all hold; the first failing check decides the reply; an accepted upload has an allowed type and the uploader's id |
| FileRoutes.SizeLimitInclusive | api/file_routes.py:10-47 | exactly 25·1024·1024 bytes passes the size check; one byte more is refused |
| FileRoutes.DeleteRemovesExactlyThat | api/file_routes.py:75-82 | deleting the row found for an id removes exactly that row (as a multiset) and keeps every other one; with unique ids no row with that id is left |
| FileRoutes.FileStore.Upload | api/file_routes.py:26-64 | a refused upload changes nothing; an accepted one appends one row with name, size, type, load time and user id and replies 201 with its id; a commit error rolls back with 500 |
| FileRoutes.FileStore.Delete | api/file_routes.py:66-85 | 400/403 for a missing username or non-admin, 404 and no change for an unknown id, otherwise that row removed and 200; a commit error rolls back with 500 |
| FileRoutes.FileStore.ListFiles | api/file_routes.py:87-124 | 400/403 as for upload; a sort key outside name, size, type, upload_date gives 400; otherwise every row once, sorted by that column (default name), descending unless the order is exactly "asc" (the default) |
| Ordering.SortBy | api/file_routes.py:105-109 | the sorted rows are the table's rows with their multiplicities (the order is stated by SortByCorrect) |
| Ordering.SortByCorrect | api/file_routes.py:105-109 | a sorted query result is ordered by the column and holds the table's rows with their multiplicities |
| Models.EmployeeRole | api/file_routes.py:19-22 | the role of an employee row with that email, or none exactly when there is no such row |
| Models.FindUser | api/file_routes.py:53 | a user with that username, or none exactly when there is no such user |
| AuthRoutes.TokenOf | api/auth_routes.py:31 | the token has no space, follows "Bearer " at once, and ends at the header's end or at its next space |
| AuthRoutes.UpToSpace | api/auth_routes.py:31 | the text before the first space: a prefix without a space, ended by a space or by the end |
| AuthRoutes.TokenRoundTrip | api/auth_routes.py:28-31 | "Bearer <token>" yields the token for any token without a space |
| AuthRoutes.DoubleSpaceGivesEmptyToken | api/auth_routes.py:31 | "Bearer  x" yields the empty token |
| AuthRoutes.LowerCaseSchemeRejected | api/auth_routes.py:28 | the "Bearer " prefix is case-sensitive |
| AuthRoutes.UserById | api/auth_routes.py:33 | `User.query.get(id)`: the user with that id, or none exactly when there is none |
| AuthRoutes.Authenticate | api/auth_routes.py:23-39 | succeeds exactly for a Bearer header whose token decodes to the id of an existing user; an expired token, a decode error, a missing claim and an unknown user each give their 401 |
| AuthRoutes.TokenRequired | api/auth_routes.py:23-41 | the wrapped route runs, with the token's user, only when authentication succeeds; otherwise the reply is a 401 |
| AuthRoutes.SignupCheck | api/auth_routes.py:43-65 | passes exactly when fields are present, long enough, the username is free and an employee; checks run in the order 400, 400, 409, 403 |
| AuthRoutes.SignupLengthBoundary | api/auth_routes.py:53-54 | a 3-character username with an 8-character password passes the length check; one character less fails |
| AuthRoutes.Login | api/auth_routes.py:81-104 | 400 for a missing field; the same 401 for an unknown user and for a wrong password; otherwise that user's id and a token for it |
| AuthRoutes.LoginFailuresAlike | api/auth_routes.py:99-101 | an unknown user and a known user with a wrong password get the same reply |
| AuthRoutes.UserStore.Signup | api/auth_routes.py:43-79 | a refused signup changes nothing; an accepted one appends one user and replies 201, and usernames stay unique; a commit error rolls back with 500 |

## Left out

- Vector search, the LLM, `jwt.decode`/`jwt.encode`, bcrypt, the clock, uuid, the PDF and web loaders and OCR: these are inputs or oracles. Their own behaviour is not modelled.
- Logging with `print`: it produces no result.
- The `/logout` route and its `logs` insert are not modelled beyond `token_required`.
- The `OPTIONS` preflight answer of `/login` is not modelled.
- A request body that is not JSON, and JSON values that are not strings, are not modelled. Flask answers those on its own, or `len()` of a non-string raises.
- `ChatGenerator.__init__` also sets up an LLM client, a retriever and a `RunnableWithMessageHistory` that nothing else uses. The class's constructor is modelled as reading the instruction, which is what the code evidently intends; building it as written always raises (see Findings).
- ChatGeneration.MessageRepr: it approximates the Python `repr` of a message list by printing each message text raw. Python escapes quotes, line breaks, backslashes and control characters, and prints a text that holds `'` but no `"` between double quotes; none of this is modelled. It affects every AI message that carries a sources block, since that block starts with line breaks (services/chat_generator.py:105-107). So from the second exchange on, the real prompt shows `\n` where HistoryRepr has a line break, and ChatGeneration.HistoryReprSnoc and ChatGeneration.PromptShowsQuestionInHistory describe the real prompt only for texts with none of these characters.
- ChatGeneration.ChatPrompt: braces in an active prompt's text would be read as template placeholders. This is not modelled.
- ChatGeneration.Outcome: an LLM reply that is neither an `AIMessage` nor a string is treated as a failure.
- FileRoutes.FileType: only ASCII letters are lower-cased. No other character lower-cases to a letter of "txt", "docx" or "pdf", so which names pass is the same as in Python.
- FileRoutes.FileStore.ListFiles: it returns the sorted rows. The JSON entries leave out `user_id` and print `upload_date` in ISO format. A failing query (500) is not modelled.
- Ordering.SortBy: text is compared by code point, not by the database's collation. Rows with equal keys come back in one fixed order, where SQL may use any.
- Equality lookups compare strings exactly, character by character: Models.FindUser, Models.EmployeeRole, the taken-name test of AdminRoutes.PromptStore.AddPrompt and the per-user filter of ChatLogging.RowsOf. In the program they are SQL `WHERE`/`filter_by` comparisons under the collation of the configured database, which may ignore letter case or trailing spaces (MySQL's default does); such a database would match more rows than the model does.
- DocumentFetcher.LoadDocx: the intended result of `Docs.from_file` is not modelled, because no definition of it exists. The function also uses the PDF loader for .docx files, as the code does.
- Row ids are a counter in each store. SQL autoincrement and its reuse rules are not modelled.
- Retriever.RetrieveContext: the assembly step cannot raise in the model. Only the search's failure is wrapped.

## Findings

| source | as written | input that shows it | evidently intended | confidence | as-written member | corrected member |
|---|---|---|---|---|---|---|
| services/document_fetcher.py:35 | `fetch` returns `Docs.from_web(...)`, but `Docs` (services/docs.py) has no `from_web`, so the `AttributeError` is caught and re-raised | any URL whose loader returns a page, e.g. one page "text" | return a `Docs` record with the given title and URL and the first page's text | high (not executed) | DocumentFetcher.FetchNeverSucceeds | DocumentFetcher.FetchIntended |
| services/chat_generator.py:14 | `ChatGenerator.__init__` reads `retriever_manager.vectorstore`, but `RetrieverManager` (services/retriever_manager.py:6-10) sets only `vector_db_manager`, so an `AttributeError` is raised; the `ask` route (api/routes.py:60-68) builds a generator inside its `try` on every request, so every chat request with a question ends in its 500 before `generate_answer` runs | any request with a non-empty question, e.g. "hello" | build the generator without the missing attribute (the retriever it would make is never used) and read the instruction | high (not executed) | ChatGeneration.GeneratorNeverBuilt | ChatGeneration.ChatGenerator.constructor |
