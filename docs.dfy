/**
  The Docs record (services/docs.py): a fetched document with its title, URL,
  body and submission time, the metadata dictionary built from title and URL,
  and the excerpt shown for it.
 */
module Documents {
  import opened Common

  /** The default `length` of `get_excerpt`. */
  const DefaultExcerptLength: int := 300
  const Ellipsis: string := "..."

  datatype Docs = Docs(title: string, url: string, content: string, submittedAt: int) {

    /** `self.metadata`: exactly the keys title and url, with the record's values. */
    function Metadata(): (m: map<string, string>)
      ensures m.Keys == {"title", "url"}
      ensures m["title"] == title && m["url"] == url
    {
      map["title" := title, "url" := url]
    }

    /** `get_excerpt(length)`: the content itself when it is no longer than
        `length`; otherwise its first `length` characters (Python's slice
        `content[:length]`) followed by "...". */
    function GetExcerpt(length: int): (r: string)
      ensures |content| <= length ==> r == content
      ensures 0 <= length < |content| ==> |r| == length + 3 && r == content[..length] + Ellipsis
      ensures |content| > length ==> EndsWithEllipsis(r) && r[..|r| - 3] <= content
    {
      if |content| > length then PySliceTo(content, length) + Ellipsis else content
    }
  }

  predicate EndsWithEllipsis(s: string) {
    |s| >= 3 && s[|s| - 3..] == Ellipsis
  }

  /** `Docs(title, url, content)`, stamped with the clock reading `now`. */
  function NewDocs(title: string, url: string, content: string, now: int): (d: Docs)
    ensures d.Metadata() == map["title" := title, "url" := url]
    ensures d.content == content && d.submittedAt == now
  {
    Docs(title, url, content, now)
  }

  /** An excerpt with the default length never holds more than 303 characters,
      and without its "..." it is always the start of the content. */
  lemma DefaultExcerptBounded(d: Docs)
    ensures |d.GetExcerpt(DefaultExcerptLength)| <= DefaultExcerptLength + 3
    ensures d.GetExcerpt(DefaultExcerptLength) == d.content
            || d.GetExcerpt(DefaultExcerptLength) == d.content[..DefaultExcerptLength] + Ellipsis
  {
  }
}
