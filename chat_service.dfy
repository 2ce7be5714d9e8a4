/**
  ChatService (services/chat_service.py): the `chat_history` table, to which
  `save_chat` adds one row per exchange, and the per-user history query,
  newest first. The generated conversation id, the clock and the commit's
  failure are inputs.
 */
module ChatLogging {
  import opened Common
  import opened Models
  import opened Ordering

  /** The `order_by(ChatHistory.timestamp.desc())` column. */
  function ByTimestamp(row: ChatHistory): Key {
    IntKey(row.timestamp)
  }

  /** `filter_by(user_id=user_id)`: that user's rows, in table order. */
  function RowsOf(rows: seq<ChatHistory>, userId: string): (r: seq<ChatHistory>)
    ensures forall i :: 0 <= i < |r| ==> r[i].userId == userId
    ensures forall x :: x in rows && x.userId == userId ==> x in r
    ensures forall x :: x in r ==> x in rows
    decreases |rows|
  {
    if rows == [] then []
    else (if rows[0].userId == userId then [rows[0]] else []) + RowsOf(rows[1..], userId)
  }

  /** The filter keeps every row of the user, as often as the table holds
      it, and no other row. */
  lemma {:induction false} RowsOfCounts(rows: seq<ChatHistory>, userId: string)
    ensures forall x :: multiset(RowsOf(rows, userId))[x] == if x.userId == userId then multiset(rows)[x] else 0
    decreases |rows|
  {
    if rows != [] {
      RowsOfCounts(rows[1..], userId);
      assert rows == [rows[0]] + rows[1..];
    }
  }

  /** `get_chat_history(user_id)` on a table: every row of that user and no
      other, each once per occurrence, newest first. */
  function UserHistory(rows: seq<ChatHistory>, userId: string): (r: seq<ChatHistory>)
    ensures forall x :: x in r <==> x in rows && x.userId == userId
    ensures forall x :: multiset(r)[x] == if x.userId == userId then multiset(rows)[x] else 0
    ensures SortedBy(r, ByTimestamp, true)
  {
    var r := SortBy(RowsOf(rows, userId), ByTimestamp, true);
    RowsOfCounts(rows, userId);
    SortByCorrect(RowsOf(rows, userId), ByTimestamp, true);
    CountsGiveMembers(r, rows, userId);
    r
  }

  lemma CountsGiveMembers(r: seq<ChatHistory>, rows: seq<ChatHistory>, userId: string)
    requires forall x :: multiset(r)[x] == if x.userId == userId then multiset(rows)[x] else 0
    ensures forall x :: x in r <==> x in rows && x.userId == userId
  {
    forall x ensures x in r <==> x in rows && x.userId == userId {
      assert x in r <==> multiset(r)[x] > 0;
      assert x in rows <==> multiset(rows)[x] > 0;
    }
  }

  /** A saved exchange shows in its user's history, and leaves every other
      user's history as it was. */
  lemma SavedRowListed(rows: seq<ChatHistory>, row: ChatHistory, other: string)
    requires other != row.userId
    ensures row in UserHistory(rows + [row], row.userId)
    ensures multiset(UserHistory(rows + [row], other)) == multiset(UserHistory(rows, other))
  {
    var grown := rows + [row];
    assert row == grown[|rows|];
    var a, b := UserHistory(grown, other), UserHistory(rows, other);
    assert multiset(grown) == multiset(rows) + multiset{row};
    forall x: ChatHistory ensures multiset(a)[x] == multiset(b)[x] {
      if x.userId == other {
        assert multiset(grown)[x] == multiset(rows)[x];
      }
    }
    assert multiset(a) == multiset(b);
  }

  class ChatLog {
    var rows: seq<ChatHistory>
    var nextId: int

    /** Ids are unique, and every id is below the next one handed out. */
    ghost predicate Valid()
      reads this
    {
      && IdsUnique(rows, ChatId)
      && forall i :: 0 <= i < |rows| ==> rows[i].id < nextId
    }

    constructor ()
      ensures Valid() && rows == []
    {
      rows := [];
      nextId := 1;
    }

    /** `save_chat(user_id, question, answer, conversation_id)`: adds one row
        with the given user, question and answer, the given conversation id
        or else `generatedId` (the new uuid), and the time `now`. When the
        commit raises (`commitError`), the insert is rolled back and the
        error comes back to the caller. */
    method SaveChat(userId: string, question: string, answer: string, conversationId: Option<string>,
                    generatedId: string, now: int, commitError: Option<string>)
      returns (error: Option<string>)
      requires Valid()
      modifies this
      ensures Valid()
      ensures commitError.Some? ==> error == commitError && rows == old(rows)
      ensures commitError.None? ==>
        && error.None?
        && rows == old(rows) + [ChatHistory(old(nextId), if conversationId.Some? then conversationId.value else generatedId,
                                            userId, question, answer, now)]
        && forall i :: 0 <= i < |old(rows)| ==> old(rows)[i].id != old(nextId)
    {
      var conversation := if conversationId.None? then generatedId else conversationId.value;
      if commitError.Some? {
        return commitError;
      }
      rows := rows + [ChatHistory(nextId, conversation, userId, question, answer, now)];
      nextId := nextId + 1;
      error := None;
    }

    /** `get_chat_history(user_id)`: a read-only query over the table. */
    function GetChatHistory(userId: string): (r: seq<ChatHistory>)
      reads this
      ensures forall x :: x in r <==> x in rows && x.userId == userId
      ensures SortedBy(r, ByTimestamp, true)
    {
      UserHistory(rows, userId)
    }
  }
}
