/** The records of src/types/index.ts, the user row, the abstract password
    hash and the item-total fold that the order page and the order route
    share.  Money (prices, costs, totals) is an integer number of cents. */
module Types {
  import opened Wrappers

  datatype Cliente = Cliente(
    id: string,
    nome: string,
    telefone: string,
    endereco: Option<string>,
    nomeEmpresa: Option<string>,
    bairro: Option<string>,
    cidade: Option<string>,
    uf: Option<string>,
    cep: Option<string>,
    email: Option<string>,
    ativo: bool)

  datatype Produto = Produto(
    id: string,
    codigo: string,
    nome: string,
    descricao: Option<string>,
    preco: int,
    custo: Option<int>,
    estoque: int,
    estoqueMinimo: int,
    unidadeMedida: string,
    categoria: Option<string>,
    ativo: bool)

  /** An order line as the client edits it; `produtoId == ""` means "no product chosen". */
  datatype ItemPedido = ItemPedido(produtoId: string, quantidade: int, precoUnitario: int, total: int)

  datatype Role = User | Operador | Admin

  /** A stored password hash.  bcrypt is abstracted as a function `Hasher`
      supplied by the environment; a password verifies against a digest
      exactly when hashing it yields that digest. */
  datatype Digest = Digest(value: nat)

  type Hasher = string -> Digest

  predicate Verify(hash: Hasher, password: string, d: Digest) {
    hash(password) == d
  }

  /** A row of the `usuarios` table; `role == None` is the column default. */
  datatype Usuario = Usuario(id: string, nome: string, email: string, hashedPassword: Digest, role: Option<Role>)

  /** `itens.reduce((total, item) => total + item.total, 0)`: a left fold over
      the supplied line totals. */
  function Total(itens: seq<ItemPedido>): int {
    if itens == [] then 0 else Total(itens[..|itens| - 1]) + itens[|itens| - 1].total
  }

  /** The fold is additive over concatenation: it is the sum of the `total` fields. */
  lemma {:induction false} TotalAppend(a: seq<ItemPedido>, b: seq<ItemPedido>)
    ensures Total(a + b) == Total(a) + Total(b)
  {
    if b == [] {
      assert a + b == a;
    } else {
      assert (a + b)[..|a + b| - 1] == a + b[..|b| - 1];
      TotalAppend(a, b[..|b| - 1]);
    }
  }

  lemma TotalSingleton(x: ItemPedido)
    ensures Total([x]) == x.total
  {
    assert [x][..0] == [];
  }
}
