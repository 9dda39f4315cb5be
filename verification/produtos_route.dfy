/** src/app/api/produtos/route.ts: product search (`GET`) and creation (`POST`).
    Prices and costs are cents, so the response's `parseFloat` of the numeric
    columns is the identity here and a null `custo` stays null. */
module ProdutosRoute {
  import opened Wrappers
  import opened Text
  import opened Types
  import opened Database
  import opened SqlLike
  import opened SqlSelect

  const MsgErroBusca := "Erro ao buscar produtos"
  const MsgObrigatorios := "Nome, preço e código são obrigatórios."
  const MsgCadastrado := "Produto cadastrado com sucesso!"
  const MsgErroCadastro := "Erro ao cadastrar produto."

  /** `nome ILIKE '%' || busca || '%'`. */
  predicate NomeMatches(busca: string, p: Produto) {
    ILike(p.nome, SearchPattern(busca))
  }

  function Matching(rows: seq<Produto>, busca: string): seq<Produto> {
    Where(rows, p => NomeMatches(busca, p))
  }

  datatype GetResponse = Found(produtos: seq<Produto>) | GetFailed(error: Response)

  /** `GET /api/produtos?busca=...`; the query is statement 0. */
  method Get(db: Db, busca: Option<string>, failAt: Option<nat>) returns (resp: GetResponse)
    requires db.Valid()
    modifies db`connects, db`releases
    ensures db.Valid() && db.connects == old(db.connects) + 1
    ensures resp.GetFailed? <==> Fails(failAt, 0)
    ensures resp.GetFailed? ==> resp.error == Response(500, MsgErroBusca)
    ensures resp.Found? ==> LimitedBy(resp.produtos, Matching(db.produtos, busca.GetOr("")), RowLimit)
  {
    db.Connect();
    if Fails(failAt, 0) {
      resp := GetFailed(Response(500, MsgErroBusca));
    } else {
      resp := Found(FirstRows(Matching(db.produtos, busca.GetOr("")), RowLimit));
    }
    db.Release();
  }

  /** Every product an admissible answer returns is stored, and, for a term
      without `%`, `_` or `\`, its name contains the term ignoring case. */
  lemma {:induction false} SearchResultsContainTerm(rows: seq<Produto>, busca: string, r: seq<Produto>)
    requires LimitedBy(r, Matching(rows, busca), RowLimit)
    ensures |r| <= 10
    ensures forall p :: p in r ==> p in rows
    ensures WildcardFree(busca) ==> forall p :: p in r ==> ContainsIgnoringCase(p.nome, busca)
  {
    LimitedRowsMatch(r, rows, p => NomeMatches(busca, p), RowLimit);
    if WildcardFree(busca) {
      forall p | p in r ensures ContainsIgnoringCase(p.nome, busca) {
        ILikeSearchIsContainsIgnoringCase(p.nome, busca);
      }
    }
  }

  /** An absent or empty term matches every name: the answer is the first
      `min(10, |table|)` products the store hands back. */
  lemma {:induction false} EmptyTermReturnsUpToTen(rows: seq<Produto>, r: seq<Produto>)
    requires LimitedBy(r, Matching(rows, ""), RowLimit)
    ensures |r| == Min(10, |rows|)
    ensures multiset(r) <= multiset(rows)
  {
    forall p | p in rows ensures NomeMatches("", p) {
      EmptyTermMatchesAll(p.nome);
    }
    WhereAll(rows, p => NomeMatches("", p));
  }

  /** The JSON body of `POST`; an absent string is `""`, an absent number 0. */
  datatype ProdutoBody = ProdutoBody(
    codigo: string,
    nome: string,
    descricao: Option<string>,
    preco: int,
    custo: Option<int>,
    estoque: int,
    estoqueMinimo: int,
    unidadeMedida: string,
    categoria: Option<string>,
    ativo: bool)

  /** `!nome || !preco || !codigo` is false: a price of 0 counts as missing. */
  predicate HasRequired(b: ProdutoBody) {
    b.nome != "" && b.preco != 0 && b.codigo != ""
  }

  /** The inserted row: the ten body fields, in their columns, and the store's id. */
  function RowOf(id: string, b: ProdutoBody): (p: Produto)
    ensures p.id == id && p.codigo == b.codigo && p.nome == b.nome && p.preco == b.preco && p.custo == b.custo
    ensures p.descricao == b.descricao && p.estoque == b.estoque && p.estoqueMinimo == b.estoqueMinimo
    ensures p.unidadeMedida == b.unidadeMedida && p.categoria == b.categoria && p.ativo == b.ativo
  {
    Produto(id, b.codigo, b.nome, b.descricao, b.preco, b.custo, b.estoque, b.estoqueMinimo,
            b.unidadeMedida, b.categoria, b.ativo)
  }

  /** `POST /api/produtos`; the `INSERT` is statement 0. */
  method Post(db: Db, body: ProdutoBody, newId: string, failAt: Option<nat>) returns (resp: Response)
    requires db.Valid()
    modifies db
    ensures db.Valid()
    ensures db.usuarios == old(db.usuarios) && db.clientes == old(db.clientes)
    ensures !HasRequired(body) ==> resp == Response(400, MsgObrigatorios) && db.connects == old(db.connects)
    ensures HasRequired(body) ==> db.connects == old(db.connects) + 1
    ensures HasRequired(body) && Fails(failAt, 0) ==> resp == Response(500, MsgErroCadastro)
    ensures HasRequired(body) && !Fails(failAt, 0) ==> resp == Response(201, MsgCadastrado)
    ensures resp.status == 201 ==> db.produtos == old(db.produtos) + [RowOf(newId, body)]
    ensures resp.status != 201 ==> db.produtos == old(db.produtos)
  {
    if !HasRequired(body) {
      return Response(400, MsgObrigatorios);
    }
    db.Connect();
    if Fails(failAt, 0) {
      resp := Response(500, MsgErroCadastro);
    } else {
      db.produtos := db.produtos + [RowOf(newId, body)];
      resp := Response(201, MsgCadastrado);
    }
    db.Release();
  }
}
