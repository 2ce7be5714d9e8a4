/**
  Values and string operations shared by every module of the model: the
  failure-carrying datatypes, the HTTP error reply of the Flask routes, and the
  handful of Python `str` operations the source relies on (`sep.join`,
  `rsplit`/`rfind`, `lower`, `strip`, slicing, `str(int)`).
 */
module Common {

  datatype Option<+T> = None | Some(value: T)

  /** A value or the message of the exception the source raises instead. */
  datatype Result<+T, +E> = Ok(value: T) | Err(error: E)

  /** The `(jsonify({...: message}), status)` pair a Flask route returns. */
  datatype Reply = Reply(status: int, message: string)

  /** `not value` for an optional string: absent, or the empty string. */
  predicate Falsy(value: Option<string>) {
    value.None? || value.value == ""
  }

  /** What Flask answers when a route lets an exception escape. */
  const UnhandledError: Reply := Reply(500, "Internal Server Error")

  /** The prefix of the 500 reply a route gives when it catches a failed commit. */
  const DatabaseErrorPrefix: string := "Database error: "

  /** What a LangChain model's `invoke` gives back: a message object with a
      `content` attribute, a plain string, some other object, or an exception
      with its message. The model itself is not part of this model. */
  datatype LlmResponse = AiMessageReply(content: string) | TextReply(text: string) | OtherReply | Raised(message: string)

  /** Python's `sep.join(parts)`. */
  function Join(parts: seq<string>, sep: string): string
    decreases |parts|
  {
    if |parts| == 0 then ""
    else if |parts| == 1 then parts[0]
    else parts[0] + sep + Join(parts[1..], sep)
  }

  /** With a non-empty separator, a join is empty exactly when there is nothing
      to join or a single empty part. */
  lemma {:induction false} JoinEmptyIff(parts: seq<string>, sep: string)
    requires sep != ""
    ensures Join(parts, sep) == "" <==> (parts == [] || (|parts| == 1 && parts[0] == ""))
  {
    if |parts| > 1 {
      assert |Join(parts, sep)| >= |sep| > 0;
    }
  }

  /** The first part always opens the joined text. */
  lemma JoinStartsWithFirst(parts: seq<string>, sep: string)
    requires parts != []
    ensures parts[0] <= Join(parts, sep)
  {
  }

  /** Joining one more part at the end: the shape a loop that appends builds. */
  lemma {:induction false} JoinSnoc(parts: seq<string>, p: string, sep: string)
    ensures Join(parts + [p], sep) == if parts == [] then p else Join(parts, sep) + sep + p
    decreases |parts|
  {
    if |parts| >= 2 {
      assert (parts + [p])[1..] == parts[1..] + [p];
      JoinSnoc(parts[1..], p, sep);
    } else if |parts| == 1 {
      assert (parts + [p])[1..] == [p];
    }
  }

  /** A bracketed list printed with `sep` between its items, one item longer:
      the old opening, then the new item and the closing bracket. */
  lemma BracketedSnoc(parts: seq<string>, p: string, sep: string)
    ensures "[" + Join(parts + [p], sep) + "]" ==
      (if parts == [] then "[" else "[" + Join(parts, sep) + sep) + (p + "]")
  {
    JoinSnoc(parts, p, sep);
    if parts != [] {
      var j := Join(parts, sep);
      assert "[" + (j + sep + p) + "]" == ("[" + j + sep) + (p + "]");
    }
  }

  /** `t in s` for strings. */
  predicate IsSubstring(t: string, s: string) {
    exists i :: 0 <= i <= |s| && t <= s[i..]
  }

  /** `t` occurs in `a + (b + t) + c`, right after `a + b`. */
  lemma SubstringAfter(a: string, b: string, t: string, c: string)
    ensures IsSubstring(t, a + (b + t) + c)
  {
    var s := a + (b + t) + c;
    assert s[|a| + |b|..] == t + c;
  }

  /** Python's `s.startswith(prefix)`. */
  predicate StartsWith(s: string, prefix: string) {
    |prefix| <= |s| && s[..|prefix|] == prefix
  }

  /** Python's `s.rfind(c)` for one character: the last index of `c`, or -1. */
  function RFind(s: string, c: char): (r: int)
    ensures -1 <= r < |s|
    ensures r >= 0 ==> s[r] == c
    ensures forall k :: r < k < |s| ==> s[k] != c
    decreases |s|
  {
    if |s| == 0 then -1
    else if s[|s| - 1] == c then |s| - 1
    else RFind(s[..|s| - 1], c)
  }

  /** The last occurrence of `c` is the one after which `c` no longer appears. */
  lemma {:induction false} RFindLast(a: string, c: char, b: string)
    requires c !in b
    ensures RFind(a + [c] + b, c) == |a|
    decreases |b|
  {
    var s := a + [c] + b;
    if b == [] {
      assert s[|s| - 1] == c;
    } else {
      assert s[|s| - 1] == b[|b| - 1] != c;
      assert s[..|s| - 1] == a + [c] + b[..|b| - 1];
      RFindLast(a, c, b[..|b| - 1]);
    }
  }

  /** Python's `str.lower()` restricted to the ASCII letters. */
  function LowerChar(c: char): char {
    if 'A' <= c <= 'Z' then (c as int - 'A' as int + 'a' as int) as char else c
  }

  function Lower(s: string): (r: string)
    ensures |r| == |s|
    ensures forall k :: 0 <= k < |s| ==> r[k] == LowerChar(s[k])
  {
    seq(|s|, k requires 0 <= k < |s| => LowerChar(s[k]))
  }

  /** The characters Python's `str.strip()` removes (`str.isspace()`). */
  predicate IsPyWhitespace(c: char) {
    c == ' ' || ('\t' <= c <= '\r') || ('\U{001C}' <= c <= '\U{001F}')
    || c == '\U{0085}' || c == '\U{00A0}' || c == '\U{1680}'
    || ('\U{2000}' <= c <= '\U{200A}') || c == '\U{2028}' || c == '\U{2029}'
    || c == '\U{202F}' || c == '\U{205F}' || c == '\U{3000}'
  }

  /** `s.strip()` is the empty string, i.e. `not s.strip()` in the source. */
  predicate IsBlank(s: string) {
    forall k :: 0 <= k < |s| ==> IsPyWhitespace(s[k])
  }

  /** Python's prefix slice `s[:n]`, including its reading of a negative `n`
      as "all but the last -n characters". */
  function PySliceTo(s: string, n: int): (r: string)
    ensures r <= s
    ensures 0 <= n <= |s| ==> |r| == n
    ensures n >= |s| ==> r == s
  {
    if n >= |s| then s
    else if n >= 0 then s[..n]
    else if |s| + n >= 0 then s[..|s| + n]
    else []
  }

  function DigitChar(d: nat): char
    requires d < 10
  {
    "0123456789"[d]
  }

  /** Python's `str(n)` for a natural number. */
  function NatToString(n: nat): (r: string)
    ensures r != []
    ensures forall k :: 0 <= k < |r| ==> '0' <= r[k] <= '9'
  {
    if n < 10 then [DigitChar(n)] else NatToString(n / 10) + [DigitChar(n % 10)]
  }
}
