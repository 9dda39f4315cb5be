/** src/app/pedidos/page.tsx: the order form's state and its submit. */
module PedidosPage {
  import opened Wrappers
  import opened Types
  import PedidosRoute

  const MsgSucesso := "Pedido cadastrado com sucesso!"
  const MsgErroPadrao := "Erro ao cadastrar pedido"

  /** How the `POST` settles: an ok reply, a refused one (with the `message`
      of its body, if any), or a thrown error with its message. */
  datatype Outcome = Ok | NotOk(message: Option<string>) | Thrown(errorMessage: string)

  datatype Toast = SuccessToast(text: string) | ErrorToast(text: string)

  /** The text of the error toast for a refused reply: `errorData.message || 'Erro ao cadastrar pedido'`. */
  function RefusalText(message: Option<string>): (r: string)
    ensures r != ""
    ensures message.Some? && message.value != "" ==> r == message.value
  {
    if message.Some? && message.value != "" then message.value else MsgErroPadrao
  }

  class Formulario {
    var clienteSelecionado: Option<Cliente>
    var itens: seq<ItemPedido>
    var observacoes: string

    predicate Limpo()
      reads this
    {
      clienteSelecionado.None? && itens == [] && observacoes == ""
    }

    constructor ()
      ensures Limpo()
    {
      clienteSelecionado, itens, observacoes := None, [], "";
    }

    /** `limparFormulario`, also the Cancel button's handler. */
    method LimparFormulario()
      modifies this
      ensures Limpo()
    {
      clienteSelecionado := None;
      itens := [];
      observacoes := "";
    }

    /** `finalizarPedido`: the body sent is the current state; only an ok
        reply clears the form. */
    method FinalizarPedido(outcome: Outcome) returns (body: PedidosRoute.PedidoBody, toast: Toast)
      modifies this
      ensures body == PedidosRoute.PedidoBody(old(clienteSelecionado), old(itens), old(observacoes))
      ensures outcome.Ok? ==> Limpo() && toast == SuccessToast(MsgSucesso)
      ensures !outcome.Ok? ==> clienteSelecionado == old(clienteSelecionado) && itens == old(itens) && observacoes == old(observacoes)
      ensures outcome.NotOk? ==> toast == ErrorToast(RefusalText(outcome.message))
      ensures outcome.Thrown? ==> toast == ErrorToast(outcome.errorMessage)
    {
      body := PedidosRoute.PedidoBody(clienteSelecionado, itens, observacoes);
      match outcome {
        case Ok =>
          toast := SuccessToast(MsgSucesso);
          LimparFormulario();
        case NotOk(message) =>
          toast := ErrorToast(RefusalText(message));
        case Thrown(m) =>
          toast := ErrorToast(m);
      }
    }
  }

  /** Every refusal of the route before the transaction reaches the user
      with the route's own text. */
  lemma RouteRefusalsAreShown(body: PedidosRoute.PedidoBody)
    requires PedidosRoute.Validate(body).Some?
    ensures RefusalText(PedidosRoute.Validate(body)) == PedidosRoute.Validate(body).value
  {
  }
}
