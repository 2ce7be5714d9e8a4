/**
  The rows of the tables declared in models/models.py, as values. Timestamps
  are opaque clock readings (integers that order like the clock); the primary
  key `id` is assigned by the owning store. The lookups at the end are the
  first-match queries the routes run on these tables.
 */
module Models {
  import opened Common

  /** A row of `users`; the password is kept only as its bcrypt hash. */
  datatype User = User(id: int, username: string, passwordHash: string, createdAt: int)

  /** A row of `files`. */
  datatype FileMetadata = FileMetadata(
    id: int, name: string, size: int, fileType: string, uploadDate: int, userId: int)

  /** A row of `chat_history`. */
  datatype ChatHistory = ChatHistory(
    id: int, conversationId: string, userId: string, question: string, answer: string, timestamp: int)

  /** A row of `llm_prompts`; `isActive` defaults to false. */
  datatype LlmPrompt = LlmPrompt(
    id: int, name: string, text: string, createdBy: string,
    updatedBy: Option<string>, createdAt: int, updatedAt: Option<int>, isActive: bool)

  /** A row of `company_employee`, the list of people allowed to sign up. */
  datatype Employee = Employee(email: string, role: string)

  /** The role of the first `company_employee` row with that email, as
      `fetchone()` returns it. */
  function EmployeeRole(employees: seq<Employee>, email: string): (role: Option<string>)
    ensures role.None? <==> forall i :: 0 <= i < |employees| ==> employees[i].email != email
    ensures role.Some? ==> exists i :: 0 <= i < |employees| && employees[i].email == email
                                      && employees[i].role == role.value
    decreases |employees|
  {
    if employees == [] then None
    else if employees[0].email == email then Some(employees[0].role)
    else EmployeeRole(employees[1..], email)
  }

  predicate EmailsUnique(employees: seq<Employee>) {
    forall i, j :: 0 <= i < j < |employees| ==> employees[i].email != employees[j].email
  }

  /** `User.query.filter_by(username=username).first()`: the first user
      with that name. */
  function FindUser(users: seq<User>, username: string): (u: Option<User>)
    ensures u.None? <==> forall i :: 0 <= i < |users| ==> users[i].username != username
    ensures u.Some? ==> u.value.username == username
                        && exists i :: 0 <= i < |users| && users[i] == u.value
    decreases |users|
  {
    if users == [] then None
    else if users[0].username == username then Some(users[0])
    else FindUser(users[1..], username)
  }

  function PromptId(p: LlmPrompt): int { p.id }

  function FileId(f: FileMetadata): int { f.id }

  function UserId(u: User): int { u.id }

  function ChatId(c: ChatHistory): int { c.id }

  /** The primary key (read by `idOf`) is unique. */
  predicate IdsUnique<T>(rows: seq<T>, idOf: T -> int) {
    forall i, j :: 0 <= i < j < |rows| ==> idOf(rows[i]) != idOf(rows[j])
  }

  /** `Model.query.get(id)`: the position of a row whose primary key
      (read by `idOf`) is `id`, or -1 when there is none. */
  function IndexOfId<T>(rows: seq<T>, id: int, idOf: T -> int): (k: int)
    ensures -1 <= k < |rows|
    ensures k >= 0 ==> idOf(rows[k]) == id
    ensures k == -1 <==> forall i :: 0 <= i < |rows| ==> idOf(rows[i]) != id
    decreases |rows|
  {
    if |rows| == 0 then -1
    else if idOf(rows[|rows| - 1]) == id then |rows| - 1
    else IndexOfId(rows[..|rows| - 1], id, idOf)
  }

  /** Rows whose keys agree position by position are found at the same place:
      changing other columns does not move a row. */
  lemma {:induction false} IndexOfIdSameKeys<T>(a: seq<T>, b: seq<T>, id: int, idOf: T -> int)
    requires |a| == |b|
    requires forall i :: 0 <= i < |a| ==> idOf(a[i]) == idOf(b[i])
    ensures IndexOfId(a, id, idOf) == IndexOfId(b, id, idOf)
    decreases |a|
  {
    if |a| > 0 && idOf(a[|a| - 1]) != id {
      var a', b' := a[..|a| - 1], b[..|b| - 1];
      assert forall i :: 0 <= i < |a'| ==> idOf(a'[i]) == idOf(b'[i]) by {
        forall i | 0 <= i < |a'| ensures idOf(a'[i]) == idOf(b'[i]) {
          assert a'[i] == a[i] && b'[i] == b[i];
        }
      }
      IndexOfIdSameKeys(a', b', id, idOf);
    }
  }
}
