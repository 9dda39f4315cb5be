/** src/app/api/produtos/max-code/route.ts:
    `SELECT MAX(CAST(codigo AS INTEGER))`, with a null maximum read as 0. */
module MaxCodeRoute {
  import opened Wrappers
  import opened Text
  import opened Types
  import opened Database
  import opened JsNumber

  const MinInt4: int := -0x8000_0000
  const MaxInt4: int := 0x7FFF_FFFF
  const MsgErro := "Erro ao buscar o maior código de produto."

  /** The white space PostgreSQL's integer input skips around the number
      (C `isspace`: space, tab, newline, vertical tab, form feed, return). */
  predicate IsSqlSpace(c: char) {
    c == ' ' || c == '\t' || c == '\n' || c == '\U{B}' || c == '\U{C}' || c == '\r'
  }

  predicate AllSqlSpace(s: string) {
    forall i :: 0 <= i < |s| ==> IsSqlSpace(s[i])
  }

  /** `s` without its leading white space. */
  function SkipLeading(s: string): (r: string)
    ensures |r| <= |s|
    ensures r == [] || !IsSqlSpace(r[0])
    ensures s != [] && !IsSqlSpace(s[0]) ==> r == s
  {
    if s != [] && IsSqlSpace(s[0]) then SkipLeading(s[1..]) else s
  }

  /** `s` without its trailing white space. */
  function SkipTrailing(s: string): (r: string)
    ensures |r| <= |s|
    ensures r == [] || !IsSqlSpace(r[|r| - 1])
    ensures s != [] && !IsSqlSpace(s[|s| - 1]) ==> r == s
  {
    if s != [] && IsSqlSpace(s[|s| - 1]) then SkipTrailing(s[..|s| - 1]) else s
  }

  function TrimSql(s: string): string {
    SkipTrailing(SkipLeading(s))
  }

  /** `CAST(s AS INTEGER)`: optional white space, an optional sign, at least
      one decimal digit, optional white space, and a value within the 32-bit
      range; any other text is a query error (`None`). */
  function CastInteger(s: string): (r: Option<int>)
    ensures r.Some? ==> MinInt4 <= r.value <= MaxInt4
    ensures AllDigits(s) && s != [] && DecimalValue(s) <= MaxInt4 ==> r == Some(DecimalValue(s))
  {
    var t := TrimSql(s);
    var signed := |t| > 0 && (t[0] == '-' || t[0] == '+');
    var digits := if signed then t[1..] else t;
    if digits == [] || !AllDigits(digits) then None
    else
      var v: int := if |t| > 0 && t[0] == '-' then 0 - DecimalValue(digits) else DecimalValue(digits);
      if MinInt4 <= v <= MaxInt4 then Some(v) else None
  }

  lemma {:induction false} SkipLeadingAfterSpace(pad: string, s: string)
    requires AllSqlSpace(pad)
    ensures SkipLeading(pad + s) == SkipLeading(s)
    decreases |pad|
  {
    if pad != [] {
      assert (pad + s)[1..] == pad[1..] + s;
      SkipLeadingAfterSpace(pad[1..], s);
    } else {
      assert pad + s == s;
    }
  }

  lemma {:induction false} SkipLeadingBeforeSpace(s: string, pad: string)
    requires AllSqlSpace(pad)
    ensures SkipLeading(s) != [] ==> SkipLeading(s + pad) == SkipLeading(s) + pad
    ensures SkipLeading(s) == [] ==> SkipLeading(s + pad) == []
    decreases |s|
  {
    if s == [] {
      assert s + pad == pad + [];
      SkipLeadingAfterSpace(pad, []);
    } else if IsSqlSpace(s[0]) {
      assert (s + pad)[1..] == s[1..] + pad;
      SkipLeadingBeforeSpace(s[1..], pad);
    }
  }

  lemma {:induction false} SkipTrailingBeforeSpace(s: string, pad: string)
    requires AllSqlSpace(pad)
    ensures SkipTrailing(s + pad) == SkipTrailing(s)
    decreases |pad|
  {
    if pad != [] {
      assert (s + pad)[..|s + pad| - 1] == s + pad[..|pad| - 1];
      SkipTrailingBeforeSpace(s, pad[..|pad| - 1]);
    } else {
      assert s + pad == s;
    }
  }

  /** White space around a code does not change what it casts to. */
  lemma PaddedCastIsUnchanged(before: string, code: string, after: string)
    requires AllSqlSpace(before) && AllSqlSpace(after)
    ensures CastInteger(before + code + after) == CastInteger(code)
  {
    assert before + code + after == before + (code + after);
    SkipLeadingAfterSpace(before, code + after);
    SkipLeadingBeforeSpace(code, after);
    if SkipLeading(code) != [] {
      SkipTrailingBeforeSpace(SkipLeading(code), after);
    }
    assert TrimSql(before + code + after) == TrimSql(code);
  }

  /** The aggregate: a failed cast anywhere aborts the query; otherwise the
      maximum, `NULL` on an empty table. */
  datatype Aggregate = CastError | Max(value: Option<int>)

  /** The value a row contributes: its code cast to an integer. */
  function CodeOf(p: Produto): Option<int> {
    CastInteger(p.codigo)
  }

  predicate Castable(p: Produto) {
    CodeOf(p).Some?
  }

  /** `MAX(cast(x))` over the rows in table order, for a cast that may fail. */
  function MaxOf<T>(xs: seq<T>, cast: T -> Option<int>): Aggregate {
    if xs == [] then Max(None)
    else
      match cast(xs[|xs| - 1])
      case None => CastError
      case Some(v) =>
        match MaxOf(xs[..|xs| - 1], cast)
        case CastError => CastError
        case Max(None) => Max(Some(v))
        case Max(Some(m)) => Max(Some(Text.Max(m, v)))
  }

  function MaxCode(ps: seq<Produto>): Aggregate {
    MaxOf(ps, CodeOf)
  }

  lemma {:induction false} CastErrorIffUncastable<T>(xs: seq<T>, cast: T -> Option<int>)
    ensures MaxOf(xs, cast).CastError? <==> exists x :: x in xs && cast(x).None?
  {
    if xs != [] {
      var init, last := xs[..|xs| - 1], xs[|xs| - 1];
      assert xs == init + [last];
      CastErrorIffUncastable(init, cast);
      if cast(last).Some? {
        if x :| x in xs && cast(x).None? {
          assert x in init;
        }
        if x :| x in init && cast(x).None? {
          assert x in xs;
        }
      } else {
        assert last in xs;
      }
    }
  }

  lemma {:induction false} MaxIsStoredUpperBound<T>(xs: seq<T>, cast: T -> Option<int>)
    requires MaxOf(xs, cast).Max?
    ensures MaxOf(xs, cast).value.None? <==> xs == []
    ensures xs != [] ==> forall x :: x in xs ==> cast(x).Some? && cast(x).value <= MaxOf(xs, cast).value.value
    ensures xs != [] ==> exists x :: x in xs && cast(x) == MaxOf(xs, cast).value
  {
    if xs != [] {
      var init, last := xs[..|xs| - 1], xs[|xs| - 1];
      assert xs == init + [last];
      if init == [] {
        assert forall x :: x in xs ==> x == last;
        assert last in xs;
      } else {
        MaxIsStoredUpperBound(init, cast);
        assert forall x :: x in xs ==> x in init || x == last;
        var q :| q in init && cast(q) == MaxOf(init, cast).value;
        assert q in xs && last in xs;
      }
    }
  }

  /** The aggregate fails exactly when some code does not cast; otherwise it
      is `NULL` on an empty table and else a stored code's value that no
      stored code's value exceeds. */
  lemma MaxCodeIsMaximum(ps: seq<Produto>)
    ensures MaxCode(ps).CastError? <==> exists p :: p in ps && !Castable(p)
    ensures MaxCode(ps).Max? ==> (MaxCode(ps).value.None? <==> ps == [])
    ensures MaxCode(ps).Max? && ps != [] ==>
              forall p :: p in ps ==> Castable(p) && CastInteger(p.codigo).value <= MaxCode(ps).value.value
    ensures MaxCode(ps).Max? && ps != [] ==>
              exists p :: p in ps && CastInteger(p.codigo) == MaxCode(ps).value
  {
    CastErrorIffUncastable(ps, CodeOf);
    if MaxCode(ps).Max? {
      MaxIsStoredUpperBound(ps, CodeOf);
    }
  }

  datatype GetResponse = Code(maxCode: int) | GetFailed(error: Response)

  /** `GET /api/produtos/max-code`; the query is statement 0. */
  method Get(db: Db, failAt: Option<nat>) returns (resp: GetResponse)
    requires db.Valid()
    modifies db`connects, db`releases
    ensures db.Valid() && db.connects == old(db.connects) + 1
    ensures resp.GetFailed? <==> Fails(failAt, 0) || MaxCode(db.produtos).CastError?
    ensures resp.GetFailed? ==> resp.error == Response(500, MsgErro)
    ensures resp.Code? && db.produtos == [] ==> resp.maxCode == 0
    ensures resp.Code? ==> forall p :: p in db.produtos ==> Castable(p) && CastInteger(p.codigo).value <= resp.maxCode
    ensures resp.Code? && db.produtos != [] ==> exists p :: p in db.produtos && CastInteger(p.codigo) == Some(resp.maxCode)
  {
    db.Connect();
    var agg := MaxCode(db.produtos);
    MaxCodeIsMaximum(db.produtos);
    if Fails(failAt, 0) || agg.CastError? {
      resp := GetFailed(Response(500, MsgErro));
    } else {
      // `max_code || 0`: NULL (and 0) read as 0
      resp := Code(agg.value.GetOr(0));
    }
    db.Release();
  }
}
