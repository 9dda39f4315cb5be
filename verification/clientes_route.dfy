/** src/app/api/clientes/route.ts: customer search by contact or company name
    (`GET`) and customer creation (`POST`). */
module ClientesRoute {
  import opened Wrappers
  import opened Text
  import opened Types
  import opened Database
  import opened SqlLike
  import opened SqlSelect

  const MsgErroBusca := "Erro ao buscar clientes"
  const MsgObrigatorios := "Nome de contato e telefone são obrigatórios."
  const MsgCadastrado := "Cliente cadastrado com sucesso!"
  const MsgErroCadastro := "Erro ao cadastrar cliente."

  /** `nome ILIKE $1 OR nome_empresa ILIKE $1`: a null company name makes its
      side NULL, which `OR` with a true side still selects and with a false
      side does not. */
  predicate ClienteMatches(busca: string, c: Cliente) {
    ILike(c.nome, SearchPattern(busca))
    || (c.nomeEmpresa.Some? && ILike(c.nomeEmpresa.value, SearchPattern(busca)))
  }

  function Matching(rows: seq<Cliente>, busca: string): seq<Cliente> {
    Where(rows, c => ClienteMatches(busca, c))
  }

  datatype GetResponse = Found(clientes: seq<Cliente>) | GetFailed(error: Response)

  /** `GET /api/clientes?busca=...`; the query is statement 0. */
  method Get(db: Db, busca: Option<string>, failAt: Option<nat>) returns (resp: GetResponse)
    requires db.Valid()
    modifies db`connects, db`releases
    ensures db.Valid() && db.connects == old(db.connects) + 1
    ensures resp.GetFailed? <==> Fails(failAt, 0)
    ensures resp.GetFailed? ==> resp.error == Response(500, MsgErroBusca)
    ensures resp.Found? ==> LimitedBy(resp.clientes, Matching(db.clientes, busca.GetOr("")), RowLimit)
  {
    db.Connect();
    if Fails(failAt, 0) {
      resp := GetFailed(Response(500, MsgErroBusca));
    } else {
      resp := Found(FirstRows(Matching(db.clientes, busca.GetOr("")), RowLimit));
    }
    db.Release();
  }

  /** Every customer an admissible answer returns is stored and, for a term
      without pattern characters, has the term in its contact name or in its
      company name, ignoring case; without a company name only the contact
      name can match. */
  lemma {:induction false} SearchResultsContainTerm(rows: seq<Cliente>, busca: string, r: seq<Cliente>)
    requires LimitedBy(r, Matching(rows, busca), RowLimit)
    ensures |r| <= 10
    ensures forall c :: c in r ==> c in rows
    ensures WildcardFree(busca) ==> forall c :: c in r ==>
              ContainsIgnoringCase(c.nome, busca)
              || (c.nomeEmpresa.Some? && ContainsIgnoringCase(c.nomeEmpresa.value, busca))
    ensures WildcardFree(busca) ==> forall c :: c in r && c.nomeEmpresa.None? ==> ContainsIgnoringCase(c.nome, busca)
  {
    LimitedRowsMatch(r, rows, c => ClienteMatches(busca, c), RowLimit);
    if WildcardFree(busca) {
      forall c | c in r
        ensures ContainsIgnoringCase(c.nome, busca)
                || (c.nomeEmpresa.Some? && ContainsIgnoringCase(c.nomeEmpresa.value, busca))
      {
        ILikeSearchIsContainsIgnoringCase(c.nome, busca);
        if c.nomeEmpresa.Some? {
          ILikeSearchIsContainsIgnoringCase(c.nomeEmpresa.value, busca);
        }
      }
    }
  }

  /** An absent or empty term selects every customer. */
  lemma {:induction false} EmptyTermReturnsUpToTen(rows: seq<Cliente>, r: seq<Cliente>)
    requires LimitedBy(r, Matching(rows, ""), RowLimit)
    ensures |r| == Min(10, |rows|)
  {
    forall c | c in rows ensures ClienteMatches("", c) {
      EmptyTermMatchesAll(c.nome);
    }
    WhereAll(rows, c => ClienteMatches("", c));
  }

  /** The JSON body of `POST`: the company name arrives under `nomeEmpresa`. */
  datatype ClienteBody = ClienteBody(
    nomeEmpresa: Option<string>,
    nome: string,
    telefone: string,
    endereco: Option<string>,
    bairro: Option<string>,
    cidade: Option<string>,
    uf: Option<string>,
    cep: Option<string>,
    email: Option<string>,
    ativo: bool)

  predicate HasRequired(b: ClienteBody) {
    b.nome != "" && b.telefone != ""
  }

  /** The inserted row: `nomeEmpresa` lands in `nome_empresa`, every other
      field in the column of its own name. */
  function RowOf(id: string, b: ClienteBody): (c: Cliente)
    ensures c.id == id && c.nomeEmpresa == b.nomeEmpresa && c.nome == b.nome && c.telefone == b.telefone
    ensures c.endereco == b.endereco && c.bairro == b.bairro && c.cidade == b.cidade && c.uf == b.uf
    ensures c.cep == b.cep && c.email == b.email && c.ativo == b.ativo
  {
    Cliente(id, b.nome, b.telefone, b.endereco, b.nomeEmpresa, b.bairro, b.cidade, b.uf, b.cep, b.email, b.ativo)
  }

  /** `POST /api/clientes`; the `INSERT` is statement 0. */
  method Post(db: Db, body: ClienteBody, newId: string, failAt: Option<nat>) returns (resp: Response)
    requires db.Valid()
    modifies db
    ensures db.Valid()
    ensures db.usuarios == old(db.usuarios) && db.produtos == old(db.produtos)
    ensures !HasRequired(body) ==> resp == Response(400, MsgObrigatorios) && db.connects == old(db.connects)
    ensures HasRequired(body) ==> db.connects == old(db.connects) + 1
    ensures HasRequired(body) && Fails(failAt, 0) ==> resp == Response(500, MsgErroCadastro)
    ensures HasRequired(body) && !Fails(failAt, 0) ==> resp == Response(201, MsgCadastrado)
    ensures resp.status == 201 ==> db.clientes == old(db.clientes) + [RowOf(newId, body)]
    ensures resp.status != 201 ==> db.clientes == old(db.clientes)
  {
    if !HasRequired(body) {
      return Response(400, MsgObrigatorios);
    }
    db.Connect();
    if Fails(failAt, 0) {
      resp := Response(500, MsgErroCadastro);
    } else {
      db.clientes := db.clientes + [RowOf(newId, body)];
      resp := Response(201, MsgCadastrado);
    }
    db.Release();
  }
}
