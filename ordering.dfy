/**
  The ordering behind the SQL `ORDER BY` clauses of the source: a column value
  (an integer column or a text column), its ascending order, and a sort that
  returns the rows of a table in ascending or descending order of one column.
  Text is compared code point by code point; the database's collation is not
  part of this model.
 */
module Ordering {

  /** The value of the column a query orders by. */
  datatype Key = IntKey(i: int) | TextKey(s: string)

  /** Lexicographic order on strings, by code point. */
  predicate TextLe(a: string, b: string)
    decreases |a|
  {
    if a == [] then true
    else if b == [] then false
    else if a[0] != b[0] then a[0] < b[0]
    else TextLe(a[1..], b[1..])
  }

  lemma {:induction false} TextLeTotal(a: string, b: string)
    ensures TextLe(a, b) || TextLe(b, a)
    decreases |a|
  {
    if a != [] && b != [] && a[0] == b[0] {
      TextLeTotal(a[1..], b[1..]);
    }
  }

  lemma {:induction false} TextLeTransitive(a: string, b: string, c: string)
    requires TextLe(a, b) && TextLe(b, c)
    ensures TextLe(a, c)
    decreases |a|
  {
    if a != [] && b != [] && c != [] && a[0] == b[0] && b[0] == c[0] {
      TextLeTransitive(a[1..], b[1..], c[1..]);
    }
  }

  /** Ascending column order (integers before text; no column mixes the two). */
  predicate KeyLe(x: Key, y: Key) {
    match (x, y)
    case (IntKey(i), IntKey(j)) => i <= j
    case (TextKey(s), TextKey(t)) => TextLe(s, t)
    case (IntKey(_), TextKey(_)) => true
    case (TextKey(_), IntKey(_)) => false
  }

  /** `x` may come before `y` in `ORDER BY ... ASC` (or `DESC` when `desc`). */
  predicate Before(x: Key, y: Key, desc: bool) {
    if desc then KeyLe(y, x) else KeyLe(x, y)
  }

  lemma BeforeTotal(x: Key, y: Key, desc: bool)
    ensures Before(x, y, desc) || Before(y, x, desc)
  {
    match (x, y)
    case (TextKey(s), TextKey(t)) => TextLeTotal(s, t);
    case _ =>
  }

  lemma BeforeTransitive(x: Key, y: Key, z: Key, desc: bool)
    requires Before(x, y, desc) && Before(y, z, desc)
    ensures Before(x, z, desc)
  {
    match (x, y, z)
    case (TextKey(s), TextKey(t), TextKey(u)) =>
      if desc { TextLeTransitive(u, t, s); } else { TextLeTransitive(s, t, u); }
    case _ =>
  }

  /** Every row comes before every later row in the requested direction. */
  ghost predicate SortedBy<T>(s: seq<T>, key: T -> Key, desc: bool) {
    forall i, j :: 0 <= i < j < |s| ==> Before(key(s[i]), key(s[j]), desc)
  }

  /** Places `x` before the first row it may precede. */
  function Insert<T>(x: T, s: seq<T>, key: T -> Key, desc: bool): (r: seq<T>)
    ensures multiset(r) == multiset(s) + multiset{x}
    decreases |s|
  {
    if s == [] then [x]
    else if Before(key(x), key(s[0]), desc) then [x] + s
    else
      assert s == [s[0]] + s[1..];
      [s[0]] + Insert(x, s[1..], key, desc)
  }

  /** Every row of `s` may come after the key `b`. */
  ghost predicate AllAfter<T>(b: Key, s: seq<T>, key: T -> Key, desc: bool) {
    forall i :: 0 <= i < |s| ==> Before(b, key(s[i]), desc)
  }

  lemma {:induction false} InsertAllAfter<T>(b: Key, x: T, s: seq<T>, key: T -> Key, desc: bool)
    requires AllAfter(b, s, key, desc) && Before(b, key(x), desc)
    ensures AllAfter(b, Insert(x, s, key, desc), key, desc)
    decreases |s|
  {
    var r := Insert(x, s, key, desc);
    if s == [] {
      assert r == [x];
    } else if Before(key(x), key(s[0]), desc) {
      assert r == [x] + s;
      forall i | 0 < i < |r| ensures Before(b, key(r[i]), desc) {
        assert r[i] == s[i - 1];
      }
    } else {
      var rest := Insert(x, s[1..], key, desc);
      forall i | 0 <= i < |s[1..]| ensures Before(b, key(s[1..][i]), desc) {
        assert s[1..][i] == s[i + 1];
      }
      InsertAllAfter(b, x, s[1..], key, desc);
      assert r == [s[0]] + rest;
      forall i | 0 < i < |r| ensures Before(b, key(r[i]), desc) {
        assert r[i] == rest[i - 1];
      }
    }
  }

  lemma {:induction false} InsertSorted<T>(x: T, s: seq<T>, key: T -> Key, desc: bool)
    requires SortedBy(s, key, desc)
    ensures SortedBy(Insert(x, s, key, desc), key, desc)
    decreases |s|
  {
    var r := Insert(x, s, key, desc);
    if s == [] {
    } else if Before(key(x), key(s[0]), desc) {
      forall j | 0 < j < |r| ensures Before(key(r[0]), key(r[j]), desc) {
        if j > 1 { BeforeTransitive(key(x), key(s[0]), key(s[j - 1]), desc); }
      }
    } else {
      var rest := Insert(x, s[1..], key, desc);
      InsertSorted(x, s[1..], key, desc);
      BeforeTotal(key(x), key(s[0]), desc);
      assert AllAfter(key(s[0]), s[1..], key, desc) by {
        forall i | 0 <= i < |s[1..]| ensures Before(key(s[0]), key(s[1..][i]), desc) {
          assert s[1..][i] == s[i + 1];
        }
      }
      InsertAllAfter(key(s[0]), x, s[1..], key, desc);
      assert r == [s[0]] + rest;
    }
  }

  /** The rows of `s` in ascending (or descending) order of `key`: the result
      of `query.order_by(column.asc())` (or `.desc()`). Rows with equal keys
      may come in any order in SQL; this sort keeps one of those orders. */
  function SortBy<T>(s: seq<T>, key: T -> Key, desc: bool): (r: seq<T>)
    ensures multiset(r) == multiset(s)
    decreases |s|
  {
    if s == [] then []
    else
      assert s == [s[0]] + s[1..];
      Insert(s[0], SortBy(s[1..], key, desc), key, desc)
  }

  /** A sorted query result is ordered, and holds the table's rows, each as
      often as the table does. */
  lemma {:induction false} SortByCorrect<T>(s: seq<T>, key: T -> Key, desc: bool)
    ensures SortedBy(SortBy(s, key, desc), key, desc)
    ensures multiset(SortBy(s, key, desc)) == multiset(s)
    ensures |SortBy(s, key, desc)| == |s|
    decreases |s|
  {
    if s != [] {
      SortByCorrect(s[1..], key, desc);
      InsertSorted(s[0], SortBy(s[1..], key, desc), key, desc);
    }
    assert |multiset(SortBy(s, key, desc))| == |multiset(s)|;
  }
}
