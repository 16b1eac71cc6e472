/** The interface to the database driver (`db.query(text, params)`): the query
    a model issues, what the driver answers, and the placeholders of
    parameterised SQL. The database itself is not modelled: a model receives
    the driver as a function from queries to results. */
module Db {
  import opened Js

  /** A parameterised query: SQL text with `$1`, `$2`, … placeholders and the
      values bound to them, in order. */
  datatype Query = Query(text: string, params: seq<JsValue>)

  /** What `db.query` settles with: the result rows, or the driver's error. */
  datatype QueryResult = Rows(rows: seq<JsValue>) | DbError(reason: Props)

  /** The driver, as seen by a model: whatever it answers for a query. */
  type Driver = Query -> QueryResult

  /** The number of placeholder markers `$` in a query text. */
  function Dollars(s: string): nat
  {
    if s == [] then 0 else (if s[0] == '$' then 1 else 0) + Dollars(s[1..])
  }

  /** Text that carries no placeholder marker. */
  predicate NoDollar(s: string)
  {
    '$' !in s
  }

  /** `sub` occurs in `s` starting at index `i`. */
  predicate OccursAt(sub: string, s: string, i: int)
  {
    0 <= i <= |s| - |sub| && s[i..i + |sub|] == sub
  }

  /** `sub` occurs somewhere in `s` as a contiguous piece. */
  predicate Occurs(sub: string, s: string)
  {
    exists i :: 0 <= i <= |s| - |sub| && OccursAt(sub, s, i)
  }

  /** A query whose placeholder markers match its parameters one for one. */
  predicate WellParameterised(q: Query)
  {
    Dollars(q.text) == |q.params|
  }

  lemma {:induction false} DollarsConcat(a: string, b: string)
    ensures Dollars(a + b) == Dollars(a) + Dollars(b)
  {
    if a == [] {
      assert a + b == b;
    } else {
      assert (a + b)[1..] == a[1..] + b;
      DollarsConcat(a[1..], b);
    }
  }

  lemma {:induction false} NoDollarHasNone(s: string)
    requires NoDollar(s)
    ensures Dollars(s) == 0
  {
    if s != [] {
      assert s == [s[0]] + s[1..];
      NoDollarHasNone(s[1..]);
    }
  }

  /** Text without a `$` holds no piece that starts with one. */
  lemma NoDollarNoPlaceholder(sub: string, s: string)
    requires NoDollar(s) && |sub| > 0 && sub[0] == '$'
    ensures !Occurs(sub, s)
  {
  }

  lemma OccursSelf(s: string)
    ensures Occurs(s, s)
  {
    assert OccursAt(s, s, 0);
  }

  lemma OccursAppend(sub: string, a: string, b: string)
    requires Occurs(sub, a)
    ensures Occurs(sub, a + b)
  {
    var i :| 0 <= i <= |a| - |sub| && OccursAt(sub, a, i);
    assert a[i..i + |sub|] == sub;
    assert (a + b)[i..i + |sub|] == a[i..i + |sub|];
    assert OccursAt(sub, a + b, i);
  }

  lemma OccursPrepend(sub: string, a: string, b: string)
    requires Occurs(sub, b)
    ensures Occurs(sub, a + b)
  {
    var i :| 0 <= i <= |b| - |sub| && OccursAt(sub, b, i);
    assert b[i..i + |sub|] == sub;
    assert (a + b)[|a| + i..|a| + i + |sub|] == b[i..i + |sub|];
    assert OccursAt(sub, a + b, |a| + i);
  }
}
