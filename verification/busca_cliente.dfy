/** src/components/pedidos/BuscaCliente.tsx: the customer search of the
    order page.  `selecionado` is the page's selected customer, which the
    component reads through its props and writes through its callback. */
module BuscaCliente {
  import opened Wrappers
  import opened Types

  /** How the search request settles: the returned list, or an error. */
  datatype Outcome = Loaded(data: seq<Cliente>) | LoadFailed

  /** A load that returns exactly one customer selects it. */
  function AutoSelecao(data: seq<Cliente>): (r: Option<Cliente>)
    ensures r.Some? <==> |data| == 1
    ensures r.Some? ==> r.value == data[0]
  {
    if |data| == 1 then Some(data[0]) else None
  }

  /** The result list is shown while it has rows and nothing is selected. */
  predicate MostrarResultados(clientes: seq<Cliente>, selecionado: Option<Cliente>) {
    |clientes| > 0 && selecionado.None?
  }

  class Busca {
    var clientes: seq<Cliente>
    var selecionado: Option<Cliente>

    constructor (selecionado: Option<Cliente>)
      ensures clientes == [] && this.selecionado == selecionado
    {
      clientes := [];
      this.selecionado := selecionado;
    }

    /** `carregarClientes` once the request has settled. */
    method CarregarClientes(outcome: Outcome)
      modifies this
      ensures outcome.LoadFailed? ==> clientes == old(clientes) && selecionado == old(selecionado)
      ensures outcome.Loaded? ==> clientes == outcome.data && selecionado == SelecaoApos(outcome.data, old(selecionado))
    {
      match outcome {
        case Loaded(data) =>
          clientes := data;
          var unico := AutoSelecao(data);
          if unico.Some? {
            selecionado := unico;
          }
        case LoadFailed =>
      }
    }

    /** A click on a result row. */
    method Selecionar(c: Cliente)
      modifies this`selecionado
      ensures selecionado == Some(c)
    {
      selecionado := Some(c);
    }

    /** "Limpar Seleção". */
    method LimparSelecao()
      modifies this`selecionado
      ensures selecionado.None?
    {
      selecionado := None;
    }
  }

  /** The selection after a load returning `data`. */
  function SelecaoApos(data: seq<Cliente>, selecionado: Option<Cliente>): (r: Option<Cliente>)
    ensures |data| == 1 ==> r == Some(data[0])
    ensures |data| != 1 ==> r == selecionado
  {
    if AutoSelecao(data).Some? then AutoSelecao(data) else selecionado
  }

  /** After a load the list is shown exactly when it holds two or more
      customers and nothing was selected before: a single result is selected
      at once and so never listed. */
  lemma ListedAfterLoad(data: seq<Cliente>, selecionado: Option<Cliente>)
    ensures MostrarResultados(data, SelecaoApos(data, selecionado)) <==> |data| >= 2 && selecionado.None?
  {
  }
}
