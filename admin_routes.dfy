/**
  The prompt administration routes (api/admin_routes.py) over the
  `llm_prompts` table. The table is the committed state: a route that returns
  before `db.session.commit()` leaves it as it was, because the request's
  uncommitted session changes are discarded when the request ends.
 */
module AdminRoutes {
  import opened Common
  import opened Models

  const PromptNotFound: Reply := Reply(404, "Prompt not found")

  /** One entry of the `GET /prompts` list. */
  datatype PromptSummary = PromptSummary(id: int, name: string, text: string, isActive: bool)

  /** The JSON body of `POST /prompt`; a missing key is `None`. */
  datatype NewPromptRequest = NewPromptRequest(
    promptName: Option<string>, promptText: Option<string>, createdBy: Option<string>)

  /** The JSON body of `PUT /prompt/<id>`; a missing key is `None`. */
  datatype UpdatePromptRequest = UpdatePromptRequest(promptText: Option<string>, updatedBy: Option<string>)

  /** The `prompt_name` column is declared unique. */
  predicate NamesUnique(ps: seq<LlmPrompt>) {
    forall i, j :: 0 <= i < j < |ps| ==> ps[i].name != ps[j].name
  }

  predicate HasName(ps: seq<LlmPrompt>, name: string) {
    exists i :: 0 <= i < |ps| && ps[i].name == name
  }

  /** One row after activating `id` and committing at time `now`: active
      exactly when it has that id; a row whose flag flips also gets
      `updated_at`, which its `onupdate` hook sets in the UPDATE the commit
      writes. A row whose flag stays as it was is not written. */
  function ActivatedRow(p: LlmPrompt, id: int, now: int): LlmPrompt {
    if p.isActive == (p.id == id) then p else p.(isActive := p.id == id, updatedAt := Some(now))
  }

  /** The table after activating `id` and committing at time `now`: that row
      active, every other inactive, and the rows whose flag flipped stamped. */
  function Activated(ps: seq<LlmPrompt>, id: int, now: int): (r: seq<LlmPrompt>)
    ensures |r| == |ps|
    ensures forall i :: 0 <= i < |ps| ==> (r[i].isActive <==> ps[i].id == id)
    ensures forall i :: 0 <= i < |ps| ==>
      r[i].updatedAt == if r[i].isActive != ps[i].isActive then Some(now) else ps[i].updatedAt
    ensures forall i :: 0 <= i < |ps| ==> r[i].(isActive := ps[i].isActive, updatedAt := ps[i].updatedAt) == ps[i]
  {
    seq(|ps|, i requires 0 <= i < |ps| => ActivatedRow(ps[i], id, now))
  }

  /** After activation exactly one row is active, the one with that id; the
      only other change is `updated_at`, set to the commit time on exactly
      the rows whose flag flipped. */
  lemma ActivatedExactlyOne(ps: seq<LlmPrompt>, id: int, now: int)
    requires IdsUnique(ps, PromptId)
    requires IndexOfId(ps, id, PromptId) >= 0
    ensures |Activated(ps, id, now)| == |ps|
    ensures forall i :: 0 <= i < |ps| ==> (Activated(ps, id, now)[i].isActive <==> i == IndexOfId(ps, id, PromptId))
    ensures forall i :: 0 <= i < |ps| ==>
      Activated(ps, id, now)[i] == ps[i].(isActive := Activated(ps, id, now)[i].isActive,
                                          updatedAt := Activated(ps, id, now)[i].updatedAt)
    ensures forall i :: 0 <= i < |ps| ==>
      (Activated(ps, id, now)[i].updatedAt != ps[i].updatedAt ==> Activated(ps, id, now)[i].updatedAt == Some(now))
  {
  }

  /** Activation keeps every id and name, so the table's keys stay unique
      and below the next id. */
  lemma ActivatedKeepsValid(ps: seq<LlmPrompt>, id: int, now: int, nextId: int)
    requires IdsUnique(ps, PromptId) && NamesUnique(ps)
    requires forall i :: 0 <= i < |ps| ==> ps[i].id < nextId
    ensures IdsUnique(Activated(ps, id, now), PromptId) && NamesUnique(Activated(ps, id, now))
    ensures forall i :: 0 <= i < |ps| ==> Activated(ps, id, now)[i].id < nextId
  {
    var a := Activated(ps, id, now);
    assert forall i :: 0 <= i < |ps| ==> a[i].id == ps[i].id && a[i].name == ps[i].name;
  }

  /** Activating twice is activating once: the second activation flips no
      flag, so it writes nothing, whenever it is committed. */
  lemma ActivateIdempotent(ps: seq<LlmPrompt>, id: int, now: int, later: int)
    ensures Activated(Activated(ps, id, now), id, later) == Activated(ps, id, now)
  {
    var a := Activated(ps, id, now);
    assert forall i :: 0 <= i < |a| ==> Activated(a, id, later)[i] == a[i];
  }

  /** Activating the prompt that is already the only active one changes
      nothing, not even a timestamp. */
  lemma ActivateSoleActiveUnchanged(ps: seq<LlmPrompt>, id: int, now: int)
    requires forall i :: 0 <= i < |ps| ==> (ps[i].isActive <==> ps[i].id == id)
    ensures Activated(ps, id, now) == ps
  {
    assert forall i :: 0 <= i < |ps| ==> Activated(ps, id, now)[i] == ps[i];
  }

  /** What `db.session.commit()` writes for the rows of `before` that the
      session changed into `after` (only `is_active` here): a row whose flag
      changed is updated, and its `onupdate` hook stamps `updated_at` with
      the commit time; an unchanged row is not written. */
  function Committed(before: seq<LlmPrompt>, after: seq<LlmPrompt>, now: int): seq<LlmPrompt>
    requires |before| == |after|
  {
    seq(|after|, i requires 0 <= i < |after| && |before| == |after| =>
      if after[i].isActive == before[i].isActive then after[i] else after[i].(updatedAt := Some(now)))
  }

  /** Clearing every flag, setting the one of row `k` (the row with that id)
      and committing gives the activated table. */
  lemma CommitIsActivation(ps: seq<LlmPrompt>, pending: seq<LlmPrompt>, k: int, id: int, now: int)
    requires IdsUnique(ps, PromptId)
    requires 0 <= k < |ps| && ps[k].id == id
    requires |pending| == |ps|
    requires forall j :: 0 <= j < |ps| ==> pending[j] == ps[j].(isActive := j == k)
    ensures Committed(ps, pending, now) == Activated(ps, id, now)
  {
    var written, activated := Committed(ps, pending, now), Activated(ps, id, now);
    forall j | 0 <= j < |ps| ensures written[j] == activated[j] {
      if j != k {
        assert PromptId(ps[j]) != PromptId(ps[k]);
      }
    }
  }

  /** The loop over `LLMPrompt.query.all()` that sets every row's
      `is_active` to false, leaving every other column as it was. */
  method DeactivateAll(ps: seq<LlmPrompt>) returns (r: seq<LlmPrompt>)
    ensures |r| == |ps|
    ensures forall j :: 0 <= j < |ps| ==> r[j] == ps[j].(isActive := false)
  {
    r := ps;
    for i := 0 to |r|
      invariant |r| == |ps|
      invariant forall j :: 0 <= j < i ==> r[j] == ps[j].(isActive := false)
      invariant forall j :: i <= j < |r| ==> r[j] == ps[j]
    {
      r := r[i := r[i].(isActive := false)];
    }
  }

  class PromptStore {
    var prompts: seq<LlmPrompt>
    var nextId: int
    /** The module-level `current_time`, read once when the routes were loaded. */
    const loadTime: int

    ghost predicate Valid()
      reads this
    {
      && IdsUnique(prompts, PromptId)
      && NamesUnique(prompts)
      && (forall i :: 0 <= i < |prompts| ==> prompts[i].id < nextId)
    }

    constructor (initial: seq<LlmPrompt>, loadTime: int)
      requires IdsUnique(initial, PromptId) && NamesUnique(initial)
      ensures Valid()
      ensures prompts == initial && this.loadTime == loadTime
    {
      prompts := initial;
      this.loadTime := loadTime;
      nextId := MaxId(initial) + 1;
      MaxIdBound(initial);
    }

    static function MaxId(ps: seq<LlmPrompt>): int {
      if ps == [] then 0
      else if ps[0].id > MaxId(ps[1..]) then ps[0].id
      else MaxId(ps[1..])
    }

    static lemma {:induction false} MaxIdBound(ps: seq<LlmPrompt>)
      ensures forall i :: 0 <= i < |ps| ==> ps[i].id <= MaxId(ps)
    {
      if ps != [] {
        MaxIdBound(ps[1..]);
        assert forall i :: 1 <= i < |ps| ==> ps[i] == ps[1..][i - 1];
      }
    }

    /** `GET /prompts`: every row exactly once, in table order. */
    function GetAllPrompts(): (r: seq<PromptSummary>)
      reads this
      ensures |r| == |prompts|
      ensures forall i :: 0 <= i < |prompts| ==>
        r[i] == PromptSummary(prompts[i].id, prompts[i].name, prompts[i].text, prompts[i].isActive)
    {
      seq(|prompts|, i requires 0 <= i < |prompts| reads this =>
        PromptSummary(prompts[i].id, prompts[i].name, prompts[i].text, prompts[i].isActive))
    }

    /** `GET /prompt/<id>`: that prompt's name and text, or 404 when no row has the id. */
    function GetPrompt(id: int): (r: Result<(string, string), Reply>)
      reads this
      ensures r.Err? <==> forall i :: 0 <= i < |prompts| ==> prompts[i].id != id
      ensures r.Err? ==> r.error == PromptNotFound
      ensures r.Ok? ==> exists i :: 0 <= i < |prompts| && prompts[i].id == id
                                   && r.value == (prompts[i].name, prompts[i].text)
    {
      var k := IndexOfId(prompts, id, PromptId);
      if k < 0 then Err(PromptNotFound) else Ok((prompts[k].name, prompts[k].text))
    }

    /** `POST /prompt`: appends one inactive prompt with the given name, text
        and creator; a missing key, a name already taken (the unique
        constraint fails at commit) or any other failed commit (`commitError`)
        is an unhandled error, and the rolled-back session adds nothing. */
    method AddPrompt(data: NewPromptRequest, now: int, commitError: Option<string>) returns (reply: Reply)
      requires Valid()
      modifies this
      ensures Valid()
      ensures data.promptName.None? || data.promptText.None? || data.createdBy.None?
              || HasName(old(prompts), data.promptName.value) || commitError.Some? ==>
        reply == UnhandledError && prompts == old(prompts) && nextId == old(nextId)
      ensures data.promptName.Some? && data.promptText.Some? && data.createdBy.Some?
              && !HasName(old(prompts), data.promptName.value) && commitError.None? ==>
        && reply == Reply(201, "Prompt added successfully")
        && prompts == old(prompts) + [LlmPrompt(old(nextId), data.promptName.value, data.promptText.value,
                                                data.createdBy.value, None, now, None, false)]
    {
      if data.promptName.None? || data.promptText.None? || data.createdBy.None? {
        return UnhandledError;
      }
      var name := data.promptName.value;
      if (exists i :: 0 <= i < |prompts| && prompts[i].name == name) || commitError.Some? {
        return UnhandledError;
      }
      prompts := prompts + [LlmPrompt(nextId, name, data.promptText.value, data.createdBy.value, None, now, None, false)];
      nextId := nextId + 1;
      reply := Reply(201, "Prompt added successfully");
    }

    /** `PUT /prompt/<id>`: 404 and no change for an unknown id; otherwise only
        that row's text and editor (each kept when absent from the request)
        and its `updated_at` change. `updated_at` receives the module's load
        time, since the route reuses the module-level `current_time`. A failed
        commit (`commitError`) escapes the route: an unhandled error, and the
        rolled-back session changes nothing. */
    method UpdatePrompt(id: int, data: UpdatePromptRequest, commitError: Option<string>) returns (reply: Reply)
      requires Valid()
      modifies this
      ensures Valid()
      ensures nextId == old(nextId)
      ensures IndexOfId(old(prompts), id, PromptId) < 0 ==> reply == PromptNotFound && prompts == old(prompts)
      ensures IndexOfId(old(prompts), id, PromptId) >= 0 && commitError.Some? ==>
        reply == UnhandledError && prompts == old(prompts)
      ensures IndexOfId(old(prompts), id, PromptId) >= 0 && commitError.None? ==>
        var k := IndexOfId(old(prompts), id, PromptId);
        var p := old(prompts)[k];
        && reply == Reply(200, "Prompt updated successfully")
        && prompts == old(prompts)[k := p.(
             text := if data.promptText.Some? then data.promptText.value else p.text,
             updatedBy := if data.updatedBy.Some? then data.updatedBy else p.updatedBy,
             updatedAt := Some(loadTime))]
    {
      var k := IndexOfId(prompts, id, PromptId);
      if k < 0 {
        return PromptNotFound;
      }
      if commitError.Some? {
        return UnhandledError;
      }
      var p := prompts[k];
      var text := if data.promptText.Some? then data.promptText.value else p.text;
      var updatedBy := if data.updatedBy.Some? then data.updatedBy else p.updatedBy;
      prompts := prompts[k := p.(text := text, updatedBy := updatedBy, updatedAt := Some(loadTime))];
      reply := Reply(200, "Prompt updated successfully");
    }

    /** `POST /prompt/activate/<id>`: marks every row inactive, then the row
        with that id active, and commits; for an unknown id it answers 404
        before the commit, so the table is unchanged. The commit, at time
        `now`, also stamps `updated_at` on the rows whose flag flipped. A
        failed commit (`commitError`) escapes the route as an unhandled error,
        and the rolled-back session leaves the table unchanged too. */
    method ActivatePrompt(id: int, now: int, commitError: Option<string>) returns (reply: Reply)
      requires Valid()
      modifies this
      ensures Valid()
      ensures nextId == old(nextId)
      ensures IndexOfId(old(prompts), id, PromptId) < 0 ==> reply == PromptNotFound && prompts == old(prompts)
      ensures IndexOfId(old(prompts), id, PromptId) >= 0 && commitError.Some? ==>
        reply == UnhandledError && prompts == old(prompts)
      ensures IndexOfId(old(prompts), id, PromptId) >= 0 && commitError.None? ==>
        && prompts == Activated(old(prompts), id, now)
        && reply == Reply(200, old(prompts)[IndexOfId(old(prompts), id, PromptId)].name + " 프롬프트가 활성화되었습니다.")
    {
      var pending := DeactivateAll(prompts);
      IndexOfIdSameKeys(pending, prompts, id, PromptId);
      var k := IndexOfId(pending, id, PromptId);
      if k < 0 {
        return PromptNotFound;
      }
      if commitError.Some? {
        return UnhandledError;
      }
      pending := pending[k := pending[k].(isActive := true)];
      CommitIsActivation(prompts, pending, k, id, now);
      var written := Committed(prompts, pending, now);
      ActivatedKeepsValid(prompts, id, now, nextId);
      reply := Reply(200, prompts[k].name + " 프롬프트가 활성화되었습니다.");
      prompts := written;
    }
  }
}
