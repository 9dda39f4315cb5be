/** PostgreSQL `ILIKE` as the search routes use it: `col ILIKE '%' || term || '%'`.
    The term is not escaped, so `%`, `_` and `\` inside it keep their pattern
    meaning.  Case folding is ASCII only. */
module SqlLike {
  import opened Text

  const EscapeChar: char := '\\'

  /** `s LIKE p`: `%` matches any run, `_` any one character, and the escape
      character makes the next pattern character literal. */
  function Like(s: string, p: string): bool
    decreases |p|
  {
    if p == [] then s == []
    else if p[0] == '%' then exists k :: 0 <= k <= |s| && Like(s[k..], p[1..])
    else if p[0] == '_' then s != [] && Like(s[1..], p[1..])
    else if p[0] == EscapeChar && |p| >= 2 then s != [] && s[0] == p[1] && Like(s[1..], p[2..])
    else s != [] && s[0] == p[0] && Like(s[1..], p[1..])
  }

  predicate ILike(s: string, p: string) {
    Like(Lower(s), Lower(p))
  }

  /** The pattern the routes build from the search term. */
  function SearchPattern(term: string): string {
    "%" + term + "%"
  }

  /** A term in which no character has a pattern meaning. */
  predicate WildcardFree(t: string) {
    forall i :: 0 <= i < |t| ==> t[i] != '%' && t[i] != '_' && t[i] != EscapeChar
  }

  lemma {:induction false} PrefixLike(s: string, b: string)
    requires WildcardFree(b)
    ensures Like(s, b + "%") <==> b <= s
  {
    if b == [] {
      assert Like(s[|s|..], []);
      assert ([] + "%")[1..] == [];
    } else {
      var p := b + "%";
      assert p[0] == b[0] && p[1..] == b[1..] + "%";
      PrefixLike(if s == [] then s else s[1..], b[1..]);
      if s != [] {
        assert b <= s <==> b[0] == s[0] && b[1..] <= s[1..];
      }
    }
  }

  /** For a wildcard-free term, matching `'%' || term || '%'` is substring containment. */
  lemma {:induction false} SearchPatternIsContains(s: string, t: string)
    requires WildcardFree(t)
    ensures Like(s, SearchPattern(t)) <==> Contains(s, t)
  {
    var p := SearchPattern(t);
    assert p[0] == '%' && p[1..] == t + "%";
    forall k | 0 <= k <= |s|
      ensures Like(s[k..], t + "%") <==> t <= s[k..]
    {
      PrefixLike(s[k..], t);
    }
  }

  lemma LowerKeepsWildcardFree(t: string)
    requires WildcardFree(t)
    ensures WildcardFree(Lower(t))
  {
  }

  /** The route-level statement: a wildcard-free term matches a value under
      `ILIKE '%term%'` exactly when it is a case-insensitive substring of it. */
  lemma {:induction false} ILikeSearchIsContainsIgnoringCase(s: string, t: string)
    requires WildcardFree(t)
    ensures ILike(s, SearchPattern(t)) <==> ContainsIgnoringCase(s, t)
  {
    LowerAppend("%", t);
    LowerAppend("%" + t, "%");
    assert Lower(SearchPattern(t)) == SearchPattern(Lower(t));
    LowerKeepsWildcardFree(t);
    SearchPatternIsContains(Lower(s), Lower(t));
  }

  /** The empty term (an absent `busca`) matches every value. */
  lemma EmptyTermMatchesAll(s: string)
    ensures ILike(s, SearchPattern(""))
  {
    ILikeSearchIsContainsIgnoringCase(s, "");
    assert "" <= Lower(s)[0..];
  }
}
