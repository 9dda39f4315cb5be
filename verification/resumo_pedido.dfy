/** src/components/pedidos/ResumoPedido.tsx: the order summary. */
module ResumoPedido {
  import opened Wrappers
  import opened Types
  import PedidosRoute

  /** The sum of the line totals, adding from the first line on: a reference
      for the left fold `calcularTotal` shares with the order route. */
  function SomaTotais(itens: seq<ItemPedido>): int {
    if itens == [] then 0 else itens[0].total + SomaTotais(itens[1..])
  }

  /** `calcularTotal` is the sum of the line totals, and 0 for no lines. */
  lemma {:induction false} CalcularTotalIsSum(itens: seq<ItemPedido>)
    ensures Total(itens) == SomaTotais(itens)
    ensures itens == [] ==> Total(itens) == 0
  {
    if itens != [] {
      CalcularTotalIsSum(itens[1..]);
      assert itens == [itens[0]] + itens[1..];
      TotalAppend([itens[0]], itens[1..]);
      TotalSingleton(itens[0]);
    }
  }

  /** The displayed total is the total the route stores for the same lines. */
  lemma DisplayedTotalIsStored(cliente: Cliente, itens: seq<ItemPedido>, observacoes: string, id: nat, numero: nat)
    ensures PedidosRoute.NewPedido(id, numero, cliente, PedidosRoute.PedidoBody(Some(cliente), itens, observacoes)).total
            == SomaTotais(itens)
  {
    CalcularTotalIsSum(itens);
  }

  /** `disabled={!clienteSelecionado || itens.length === 0}`. */
  predicate FinalizarDesabilitado(clienteSelecionado: Option<Cliente>, itens: seq<ItemPedido>) {
    clienteSelecionado.None? || |itens| == 0
  }

  /** The button is disabled exactly when the route would refuse the body
      before taking a connection. */
  lemma DisabledIffRouteRefuses(clienteSelecionado: Option<Cliente>, itens: seq<ItemPedido>, observacoes: string)
    ensures FinalizarDesabilitado(clienteSelecionado, itens)
            <==> PedidosRoute.Validate(PedidosRoute.PedidoBody(clienteSelecionado, itens, observacoes)).Some?
  {
  }
}
