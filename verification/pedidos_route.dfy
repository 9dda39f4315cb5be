/** src/app/api/pedidos/route.ts, `POST`: create an order and its lines in
    one transaction on a pooled connection.

    The pool holds a single client, so what one request leaves on the
    connection (an open transaction with uncommitted writes) is what the
    next request finds.  Statements are numbered for fault injection in the
    order the handler issues them: 0 is `BEGIN`, 1 the order `INSERT`,
    `2 + i` the `INSERT` of line `i`, and `2 + |itens|` the `COMMIT`. */
module PedidosRoute {
  import opened Wrappers
  import opened Types
  import opened Database

  const MsgClienteNaoSelecionado := "Cliente não selecionado"
  const MsgSemItens := "O pedido deve ter pelo menos um item"
  const MsgProdutoObrigatorio := "Cada item do pedido deve ter um produto selecionado."
  const MsgErro := "Erro ao criar pedido"
  const StatusPendente := "pendente"

  /** The JSON body; a `null` client is `None`. */
  datatype PedidoBody = PedidoBody(cliente: Option<Cliente>, itens: seq<ItemPedido>, observacoes: string)

  /** A row of `pedidos`: `id` and `numero_pedido` come from the store's defaults. */
  datatype PedidoRow = PedidoRow(id: nat, numeroPedido: nat, clienteId: string, observacoes: string, status: string, total: int)

  /** A row of `itens_pedido`. */
  datatype ItemRow = ItemRow(pedidoId: nat, produtoId: string, quantidade: int, precoUnitario: int, total: int)

  /** A write made inside a transaction, not yet visible in the tables. */
  datatype Write = WritePedido(pedido: PedidoRow) | WriteItem(item: ItemRow)

  datatype Tables = Tables(pedidos: seq<PedidoRow>, itens: seq<ItemRow>)

  /** The transaction-control statements the handler sends. */
  datatype Sql = Begin | Commit | Rollback

  datatype PedidoResponse =
    | Created(pedidoId: nat, numeroPedido: nat)
    | BadRequest(message: string)
    | ServerError(message: string)
  {
    function Status(): int {
      match this
      case Created(_, _) => 201
      case BadRequest(_) => 400
      case ServerError(_) => 500
    }
  }

  /** The checks made before a connection is taken: the message of the 400, if any. */
  function Validate(body: PedidoBody): (r: Option<string>)
    ensures r.None? <==> body.cliente.Some? && body.itens != []
    ensures body.cliente.None? ==> r == Some(MsgClienteNaoSelecionado)
    ensures body.cliente.Some? && body.itens == [] ==> r == Some(MsgSemItens)
  {
    if body.cliente.None? then Some(MsgClienteNaoSelecionado)
    else if |body.itens| == 0 then Some(MsgSemItens)
    else None
  }

  /** What `COMMIT` makes of the pending writes: each adds its row, in order. */
  function Apply(t: Tables, ws: seq<Write>): (r: Tables)
    ensures t.pedidos <= r.pedidos && t.itens <= r.itens
    ensures |r.pedidos| + |r.itens| == |t.pedidos| + |t.itens| + |ws|
  {
    if ws == [] then t
    else
      var s := Apply(t, ws[..|ws| - 1]);
      match ws[|ws| - 1]
      case WritePedido(p) => s.(pedidos := s.pedidos + [p])
      case WriteItem(i) => s.(itens := s.itens + [i])
  }

  /** Committing two batches of writes is committing them in sequence. */
  lemma {:induction false} ApplyAppend(t: Tables, a: seq<Write>, b: seq<Write>)
    ensures Apply(t, a + b) == Apply(Apply(t, a), b)
  {
    if b == [] {
      assert a + b == a;
    } else {
      assert (a + b)[..|a + b| - 1] == a + b[..|b| - 1];
      ApplyAppend(t, a, b[..|b| - 1]);
    }
  }

  /** The order row: status `pendente` and, as total, the fold of the lines'
      own `total` fields (quantity times unit price is never recomputed). */
  function NewPedido(id: nat, numero: nat, cliente: Cliente, body: PedidoBody): (r: PedidoRow)
    ensures r.status == "pendente" && r.total == Total(body.itens)
    ensures r.id == id && r.numeroPedido == numero && r.clienteId == cliente.id && r.observacoes == body.observacoes
  {
    PedidoRow(id, numero, cliente.id, body.observacoes, StatusPendente, Total(body.itens))
  }

  /** The row of one line, carrying the order's id and the line's fields as sent. */
  function ItemRowOf(pedidoId: nat, item: ItemPedido): (r: ItemRow)
    ensures r.pedidoId == pedidoId && r.produtoId == item.produtoId && r.quantidade == item.quantidade
    ensures r.precoUnitario == item.precoUnitario && r.total == item.total
  {
    ItemRow(pedidoId, item.produtoId, item.quantidade, item.precoUnitario, item.total)
  }

  function ItemRows(pedidoId: nat, itens: seq<ItemPedido>): (r: seq<ItemRow>)
    ensures |r| == |itens|
    ensures forall i :: 0 <= i < |itens| ==> r[i] == ItemRowOf(pedidoId, itens[i])
  {
    seq(|itens|, i requires 0 <= i < |itens| => ItemRowOf(pedidoId, itens[i]))
  }

  function ItemWrites(pedidoId: nat, itens: seq<ItemPedido>): (r: seq<Write>)
    ensures |r| == |itens|
    ensures forall i :: 0 <= i < |itens| ==> r[i] == WriteItem(ItemRowOf(pedidoId, itens[i]))
  {
    seq(|itens|, i requires 0 <= i < |itens| => WriteItem(ItemRowOf(pedidoId, itens[i])))
  }

  /** The writes of one order: its row, then one row per line in input order. */
  function OrderWrites(pedido: PedidoRow, itens: seq<ItemPedido>): seq<Write> {
    [WritePedido(pedido)] + ItemWrites(pedido.id, itens)
  }

  lemma ItemWritesSnoc(pedidoId: nat, itens: seq<ItemPedido>, i: nat)
    requires i < |itens|
    ensures ItemWrites(pedidoId, itens[..i]) + [WriteItem(ItemRowOf(pedidoId, itens[i]))] == ItemWrites(pedidoId, itens[..i + 1])
  {
  }

  lemma PendingOrderWrites(p: seq<Write>, pedido: PedidoRow, itens: seq<ItemPedido>)
    ensures p + [WritePedido(pedido)] + ItemWrites(pedido.id, itens) == p + OrderWrites(pedido, itens)
  {
  }

  lemma {:induction false} ApplyItemWrites(t: Tables, pedidoId: nat, itens: seq<ItemPedido>)
    ensures Apply(t, ItemWrites(pedidoId, itens)) == Tables(t.pedidos, t.itens + ItemRows(pedidoId, itens))
  {
    var ws := ItemWrites(pedidoId, itens);
    if itens == [] {
      assert ws == [];
    } else {
      var n := |itens| - 1;
      assert ws[..n] == ItemWrites(pedidoId, itens[..n]);
      ApplyItemWrites(t, pedidoId, itens[..n]);
      assert ItemRows(pedidoId, itens) == ItemRows(pedidoId, itens[..n]) + [ItemRowOf(pedidoId, itens[n])];
    }
  }

  /** Committing the writes of an order adds exactly one order row and one
      row per line, in input order, each carrying the order's id. */
  lemma ApplyOrderWrites(t: Tables, pedido: PedidoRow, itens: seq<ItemPedido>)
    ensures Apply(t, OrderWrites(pedido, itens)) == Tables(t.pedidos + [pedido], t.itens + ItemRows(pedido.id, itens))
  {
    var head := [WritePedido(pedido)];
    ApplyAppend(t, head, ItemWrites(pedido.id, itens));
    assert Apply(t, head) == Tables(t.pedidos + [pedido], t.itens) by {
      assert head[..0] == [];
    }
    ApplyItemWrites(Apply(t, head), pedido.id, itens);
  }

  /** The position of the first line without a product, or `|itens|`. */
  function FirstMissing(itens: seq<ItemPedido>): (k: nat)
    ensures k <= |itens|
    ensures forall j :: 0 <= j < k ==> itens[j].produtoId != ""
    ensures k < |itens| ==> itens[k].produtoId == ""
  {
    if itens == [] then 0
    else if itens[0].produtoId == "" then 0
    else 1 + FirstMissing(itens[1..])
  }

  /** How many statements the handler reaches when none of them fails:
      `BEGIN`, the order, the lines up to the first one without a product,
      and `COMMIT` only when every line has one. */
  function Attempted(itens: seq<ItemPedido>): nat
  {
    var k := FirstMissing(itens);
    if k == |itens| then k + 3 else k + 2
  }

  /** Some statement the handler reaches throws. */
  predicate Hit(failAt: Option<nat>, itens: seq<ItemPedido>) {
    failAt.Some? && failAt.value < Attempted(itens)
  }

  /** Where the line loop stopped. */
  datatype LinesStop = LinesDone | LineMissing | LinesFailed

  /** The pooled connection together with the store it talks to. */
  class Connection {
    var committed: Tables
    var pending: seq<Write>
    var inTx: bool
    var checkedOut: bool
    var checkouts: nat
    var nextId: nat
    var nextNumero: nat
    /** Every `BEGIN`, `COMMIT` and `ROLLBACK` sent on the connection, in order. */
    var log: seq<Sql>

    /** Outside a transaction nothing is pending. */
    predicate Valid()
      reads this
    {
      !inTx ==> pending == []
    }

    constructor (tables: Tables)
      ensures Valid() && !checkedOut && !inTx
      ensures committed == tables && pending == [] && log == [] && checkouts == 0
      ensures nextId == |tables.pedidos| && nextNumero == |tables.pedidos| + 1
    {
      committed := tables;
      pending := [];
      inTx := false;
      checkedOut := false;
      checkouts := 0;
      nextId := |tables.pedidos|;
      nextNumero := |tables.pedidos| + 1;
      log := [];
    }

    /** The effect of the transaction: `rollbackOnMissing` tells apart the
        route as written (false) from the corrected one (true). */
    twostate predicate TxDone(body: PedidoBody, failAt: Option<nat>, rollbackOnMissing: bool, resp: PedidoResponse)
      requires body.cliente.Some?
      reads this
    {
      var itens := body.itens;
      var k := FirstMissing(itens);
      var pedido := NewPedido(old(nextId), old(nextNumero), body.cliente.value, body);
      nextId == old(nextId) + (if failAt == Some(0) then 0 else 1)
      && nextNumero == old(nextNumero) + (if failAt == Some(0) then 0 else 1)
      && if Hit(failAt, itens) then
        resp == ServerError(MsgErro)
        && log == old(log) + [Begin] + (if failAt.value == |itens| + 2 then [Commit] else []) + [Rollback]
        && committed == old(committed) && pending == [] && !inTx
      else if k == |itens| then
        resp == Created(pedido.id, pedido.numeroPedido)
        && log == old(log) + [Begin, Commit]
        && committed == Apply(old(committed), old(pending) + OrderWrites(pedido, itens))
        && pending == [] && !inTx
      else if rollbackOnMissing then
        resp == BadRequest(MsgProdutoObrigatorio)
        && log == old(log) + [Begin, Rollback]
        && committed == old(committed) && pending == [] && !inTx
      else
        resp == BadRequest(MsgProdutoObrigatorio)
        && log == old(log) + [Begin]
        && committed == old(committed) && inTx
        && pending == old(pending) + OrderWrites(pedido, itens[..k])
    }

    /** The effect of a handler call. */
    twostate predicate Handled(body: PedidoBody, failAt: Option<nat>, rollbackOnMissing: bool, resp: PedidoResponse)
      reads this
    {
      if Validate(body).Some? then
        resp == BadRequest(Validate(body).value)
        && checkouts == old(checkouts) && log == old(log) && nextId == old(nextId) && nextNumero == old(nextNumero)
        && committed == old(committed) && pending == old(pending) && inTx == old(inTx)
      else
        checkouts == old(checkouts) + 1 && TxDone(body, failAt, rollbackOnMissing, resp)
    }

    /** `POST /api/pedidos` as written: a line without a product answers 400
        and leaves the transaction open, with neither `COMMIT` nor `ROLLBACK`. */
    method Post(body: PedidoBody, failAt: Option<nat>) returns (resp: PedidoResponse)
      requires Valid() && !checkedOut
      modifies this
      ensures Valid() && !checkedOut
      ensures Handled(body, failAt, false, resp)
    {
      resp := Run(body, failAt, false);
    }

    /** The route with `ROLLBACK` before the 400 for a line without a product. */
    method PostCorrected(body: PedidoBody, failAt: Option<nat>) returns (resp: PedidoResponse)
      requires Valid() && !checkedOut
      modifies this
      ensures Valid() && !checkedOut
      ensures body.cliente.Some? && body.itens != [] ==> !inTx && pending == []
      ensures committed != old(committed) ==> resp.Created?
      ensures Handled(body, failAt, true, resp)
    {
      resp := Run(body, failAt, true);
    }

    /** The `catch` block: `ROLLBACK` discards every pending write. */
    method Abort()
      modifies this`log, this`pending, this`inTx
      ensures log == old(log) + [Rollback] && pending == [] && !inTx
    {
      log := log + [Rollback];
      pending := [];
      inTx := false;
    }

    /** The handler; `rollbackOnMissing` selects the behaviour of a line without a product. */
    method Run(body: PedidoBody, failAt: Option<nat>, rollbackOnMissing: bool) returns (resp: PedidoResponse)
      requires Valid() && !checkedOut
      modifies this
      ensures Valid() && !checkedOut
      ensures rollbackOnMissing && body.cliente.Some? && body.itens != [] ==> !inTx && pending == []
      ensures Handled(body, failAt, rollbackOnMissing, resp)
    {
      var invalid := Validate(body);
      if invalid.Some? {
        return BadRequest(invalid.value);
      }
      checkedOut := true;
      checkouts := checkouts + 1;
      resp := Transaction(body, failAt, rollbackOnMissing);
      checkedOut := false;
    }

    /** The `try` / `catch` block, from `BEGIN` to `COMMIT` or `ROLLBACK`. */
    method Transaction(body: PedidoBody, failAt: Option<nat>, rollbackOnMissing: bool) returns (resp: PedidoResponse)
      requires Valid() && body.cliente.Some? && body.itens != []
      modifies this`log, this`pending, this`inTx, this`committed, this`nextId, this`nextNumero
      ensures Valid()
      ensures rollbackOnMissing ==> !inTx && pending == []
      ensures TxDone(body, failAt, rollbackOnMissing, resp)
    {
      var itens := body.itens;
      log := log + [Begin];
      if Fails(failAt, 0) {
        Abort();
        return ServerError(MsgErro);
      }
      inTx := true;
      var pedido := NewPedido(nextId, nextNumero, body.cliente.value, body);
      nextId, nextNumero := nextId + 1, nextNumero + 1;
      resp := Lines(pedido, itens, failAt, rollbackOnMissing);
    }

    /** The order `INSERT`, the lines and the end of the transaction. */
    method Lines(pedido: PedidoRow, itens: seq<ItemPedido>, failAt: Option<nat>, rollbackOnMissing: bool) returns (resp: PedidoResponse)
      requires inTx && !Fails(failAt, 0)
      modifies this`log, this`pending, this`inTx, this`committed
      ensures Valid()
      ensures rollbackOnMissing ==> !inTx && pending == []
      ensures var k := FirstMissing(itens);
              if Hit(failAt, itens) then
                resp == ServerError(MsgErro)
                && log == old(log) + (if failAt.value == |itens| + 2 then [Commit] else []) + [Rollback]
                && committed == old(committed) && pending == [] && !inTx
              else if k == |itens| then
                resp == Created(pedido.id, pedido.numeroPedido)
                && log == old(log) + [Commit]
                && committed == Apply(old(committed), old(pending) + OrderWrites(pedido, itens))
                && pending == [] && !inTx
              else if rollbackOnMissing then
                resp == BadRequest(MsgProdutoObrigatorio)
                && log == old(log) + [Rollback]
                && committed == old(committed) && pending == [] && !inTx
              else
                resp == BadRequest(MsgProdutoObrigatorio)
                && log == old(log)
                && committed == old(committed) && inTx
                && pending == old(pending) + OrderWrites(pedido, itens[..k])
    {
      if Fails(failAt, 1) {
        Abort();
        return ServerError(MsgErro);
      }
      pending := pending + [WritePedido(pedido)];
      resp := ItemsAndCommit(pedido, itens, failAt, rollbackOnMissing);
      PendingOrderWrites(old(pending), pedido, itens[..FirstMissing(itens)]);
      PendingOrderWrites(old(pending), pedido, itens);
    }

    /** The line `INSERT`s after the order's own, then `COMMIT` or the 400. */
    method ItemsAndCommit(pedido: PedidoRow, itens: seq<ItemPedido>, failAt: Option<nat>, rollbackOnMissing: bool) returns (resp: PedidoResponse)
      requires inTx && !Fails(failAt, 0) && !Fails(failAt, 1)
      modifies this`log, this`pending, this`inTx, this`committed
      ensures Valid()
      ensures rollbackOnMissing ==> !inTx && pending == []
      ensures var k := FirstMissing(itens);
              if Hit(failAt, itens) then
                resp == ServerError(MsgErro)
                && log == old(log) + (if failAt.value == |itens| + 2 then [Commit] else []) + [Rollback]
                && committed == old(committed) && pending == [] && !inTx
              else if k == |itens| then
                resp == Created(pedido.id, pedido.numeroPedido)
                && log == old(log) + [Commit]
                && committed == Apply(old(committed), old(pending) + ItemWrites(pedido.id, itens))
                && pending == [] && !inTx
              else if rollbackOnMissing then
                resp == BadRequest(MsgProdutoObrigatorio)
                && log == old(log) + [Rollback]
                && committed == old(committed) && pending == [] && !inTx
              else
                resp == BadRequest(MsgProdutoObrigatorio)
                && log == old(log)
                && committed == old(committed) && inTx
                && pending == old(pending) + ItemWrites(pedido.id, itens[..k])
    {
      var stop := InsertLines(pedido, itens, failAt);
      match stop {
        case LinesFailed =>
          Abort();
          resp := ServerError(MsgErro);
        case LineMissing =>
          if rollbackOnMissing {
            Abort();
          }
          resp := BadRequest(MsgProdutoObrigatorio);
        case LinesDone =>
          resp := Finish(pedido, Fails(failAt, 2 + |itens|));
      }
    }

    /** `COMMIT`, then the 201 with the order's id and number. */
    method Finish(pedido: PedidoRow, commitFails: bool) returns (resp: PedidoResponse)
      modifies this`log, this`pending, this`inTx, this`committed
      ensures pending == [] && !inTx
      ensures commitFails ==> resp == ServerError(MsgErro) && log == old(log) + [Commit, Rollback] && committed == old(committed)
      ensures !commitFails ==> resp == Created(pedido.id, pedido.numeroPedido) && log == old(log) + [Commit]
                               && committed == Apply(old(committed), old(pending))
    {
      log := log + [Commit];
      if commitFails {
        Abort();
        return ServerError(MsgErro);
      }
      committed := Apply(committed, pending);
      pending := [];
      inTx := false;
      resp := Created(pedido.id, pedido.numeroPedido);
    }

    /** The `for` loop over the lines: one `INSERT` per line until a line
        without a product or a failing statement. */
    method InsertLines(pedido: PedidoRow, itens: seq<ItemPedido>, failAt: Option<nat>) returns (stop: LinesStop)
      requires !Fails(failAt, 0) && !Fails(failAt, 1)
      modifies this`pending
      ensures var k := FirstMissing(itens);
              match stop
              case LinesFailed =>
                failAt.Some? && 2 <= failAt.value < 2 + k
                && pending == old(pending) + ItemWrites(pedido.id, itens[..failAt.value - 2])
              case LineMissing =>
                k < |itens| && (failAt.None? || failAt.value >= 2 + k)
                && pending == old(pending) + ItemWrites(pedido.id, itens[..k])
              case LinesDone =>
                k == |itens| && (failAt.None? || failAt.value >= 2 + k)
                && pending == old(pending) + ItemWrites(pedido.id, itens)
      ensures stop.LinesFailed? ==> Hit(failAt, itens) && failAt.value != |itens| + 2
      ensures stop.LineMissing? ==> !Hit(failAt, itens)
      ensures stop.LinesDone? ==> (Hit(failAt, itens) <==> Fails(failAt, |itens| + 2))
    {
      ghost var k := FirstMissing(itens);
      var i := 0;
      while i < |itens|
        invariant 0 <= i <= k
        invariant pending == old(pending) + ItemWrites(pedido.id, itens[..i])
        invariant failAt.None? || failAt.value >= 2 + i
      {
        if itens[i].produtoId == "" {
          return LineMissing;
        }
        if Fails(failAt, 2 + i) {
          return LinesFailed;
        }
        ItemWritesSnoc(pedido.id, itens, i);
        pending := pending + [WriteItem(ItemRowOf(pedido.id, itens[i]))];
        i := i + 1;
      }
      assert itens[..i] == itens;
      return LinesDone;
    }
  }

  /** A well-formed order on an idle connection adds exactly one order row
      and one row per line, in input order, each carrying the new order's id. */
  lemma SuccessAddsOneOrder(t: Tables, pedido: PedidoRow, itens: seq<ItemPedido>)
    ensures Apply(t, [] + OrderWrites(pedido, itens)).pedidos == t.pedidos + [pedido]
    ensures Apply(t, [] + OrderWrites(pedido, itens)).itens == t.itens + ItemRows(pedido.id, itens)
  {
    assert [] + OrderWrites(pedido, itens) == OrderWrites(pedido, itens);
    ApplyOrderWrites(t, pedido, itens);
  }

  const Cliente1 := Cliente("c1", "Ana", "31999990000", None, None, None, None, None, None, None, true)
  const SemProduto := PedidoBody(Some(Cliente1), [ItemPedido("", 1, 0, 0)], "")
  const ComProduto := PedidoBody(Some(Cliente1), [ItemPedido("p1", 2, 500, 1000)], "")

  /** As written: a request with a line without a product answers 400 but
      leaves its order row pending on the pooled connection; the next
      successful request's `COMMIT` stores it, an order with no lines. */
  method OrphanOrderIsCommitted() returns (first: PedidoResponse, second: PedidoResponse, stored: Tables)
    ensures first == BadRequest(MsgProdutoObrigatorio) && second.Created?
    ensures |stored.pedidos| == 2
    ensures forall it :: it in stored.itens ==> it.pedidoId != stored.pedidos[0].id
  {
    var conn;
    conn, first := RequestWithoutProduct();
    ghost var orphan := NewPedido(0, 1, Cliente1, SemProduto);
    ghost var pedido := NewPedido(1, 2, Cliente1, ComProduto);
    assert FirstMissing(ComProduto.itens) == 1;
    assert !Hit(None, ComProduto.itens);
    second := conn.Post(ComProduto, None);
    stored := conn.committed;
    assert stored == Apply(Tables([], []), [WritePedido(orphan)] + OrderWrites(pedido, ComProduto.itens));
    ApplyAppend(Tables([], []), [WritePedido(orphan)], OrderWrites(pedido, ComProduto.itens));
    assert Apply(Tables([], []), [WritePedido(orphan)]) == Tables([orphan], []);
    ApplyOrderWrites(Tables([orphan], []), pedido, ComProduto.itens);
  }

  /** The first half of the scenario: on a fresh connection, the request with
      a line without a product leaves its order row pending in an open transaction. */
  method RequestWithoutProduct() returns (conn: Connection, first: PedidoResponse)
    ensures fresh(conn) && conn.Valid() && !conn.checkedOut
    ensures first == BadRequest(MsgProdutoObrigatorio)
    ensures conn.pending == [WritePedido(NewPedido(0, 1, Cliente1, SemProduto))] && conn.inTx
    ensures conn.committed == Tables([], []) && conn.nextId == 1 && conn.nextNumero == 2
  {
    conn := new Connection(Tables([], []));
    assert FirstMissing(SemProduto.itens) == 0;
    assert !Hit(None, SemProduto.itens);
    first := conn.Post(SemProduto, None);
    assert SemProduto.itens[..0] == [];
    assert ItemWrites(0, []) == [];
  }

  /** Corrected: with `ROLLBACK` before the 400, the same two requests store
      only the second order, and every stored order has its lines. */
  method NoOrphanWhenRolledBack() returns (first: PedidoResponse, second: PedidoResponse, stored: Tables)
    ensures first == BadRequest(MsgProdutoObrigatorio) && second.Created?
    ensures |stored.pedidos| == 1
    ensures forall it :: it in stored.itens ==> it.pedidoId == stored.pedidos[0].id
  {
    var conn := new Connection(Tables([], []));
    ghost var pedido := NewPedido(1, 2, Cliente1, ComProduto);
    assert FirstMissing(SemProduto.itens) == 0;
    assert !Hit(None, SemProduto.itens);
    first := conn.PostCorrected(SemProduto, None);
    assert conn.committed == Tables([], []) && conn.pending == [] && conn.nextId == 1 && conn.nextNumero == 2;
    assert FirstMissing(ComProduto.itens) == 1;
    assert !Hit(None, ComProduto.itens);
    second := conn.PostCorrected(ComProduto, None);
    stored := conn.committed;
    assert stored == Apply(Tables([], []), [] + OrderWrites(pedido, ComProduto.itens));
    assert [] + OrderWrites(pedido, ComProduto.itens) == OrderWrites(pedido, ComProduto.itens);
    ApplyOrderWrites(Tables([], []), pedido, ComProduto.itens);
  }
}
