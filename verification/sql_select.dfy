/** `SELECT ... WHERE cond LIMIT n` without `ORDER BY`: the store may return
    any `min(n, #matches)` of the matching rows, in any order.  `Where` is the
    filter; `LimitedBy` is what every admissible answer satisfies. */
module SqlSelect {
  import opened Text

  /** The `LIMIT` both search routes use. */
  const RowLimit: nat := 10

  function Where<T(==,!new)>(rows: seq<T>, cond: T -> bool): (r: seq<T>)
    ensures forall x :: x in r <==> x in rows && cond(x)
    ensures multiset(r) <= multiset(rows)
  {
    if rows == [] then []
    else
      assert rows == [rows[0]] + rows[1..];
      (if cond(rows[0]) then [rows[0]] else []) + Where(rows[1..], cond)
  }

  /** `r` is an answer the store may give: `min(limit, |matches|)` rows drawn
      from `matches`, each at most as often as it matches. */
  predicate LimitedBy<T(==)>(r: seq<T>, matches: seq<T>, limit: nat) {
    multiset(r) <= multiset(matches) && |r| == Min(limit, |matches|)
  }

  /** One admissible answer: the first matches in table order. */
  function FirstRows<T(==)>(matches: seq<T>, limit: nat): (r: seq<T>)
    ensures LimitedBy(r, matches, limit)
  {
    var k := Min(limit, |matches|);
    assert matches == matches[..k] + matches[k..];
    matches[..k]
  }

  /** Every row of an admissible answer is a stored row meeting the condition. */
  lemma LimitedRowsMatch<T(!new)>(r: seq<T>, rows: seq<T>, cond: T -> bool, limit: nat)
    requires LimitedBy(r, Where(rows, cond), limit)
    ensures forall x :: x in r ==> x in rows && cond(x)
    ensures |r| <= limit
  {
    forall x | x in r ensures x in Where(rows, cond) {
      assert multiset(r)[x] > 0;
    }
  }

  /** When every row meets the condition, the filter keeps the whole table. */
  lemma {:induction false} WhereAll<T(!new)>(rows: seq<T>, cond: T -> bool)
    requires forall x :: x in rows ==> cond(x)
    ensures Where(rows, cond) == rows
  {
    if rows != [] {
      assert forall x :: x in rows[1..] ==> x in rows;
      WhereAll(rows[1..], cond);
      assert rows == [rows[0]] + rows[1..];
    }
  }
}
