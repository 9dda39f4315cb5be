/** src/components/pedidos/ItensPedido.tsx: the order-line editor.  Each
    handler builds a new list from the old one and hands it to `setItens`. */
module ItensPedido {
  import opened Wrappers
  import opened Types
  import JsNumber

  /** The line `adicionarItem` appends: no product, one unit, no price. */
  const ItemPadrao := ItemPedido("", 1, 0, 0)

  /** `adicionarItem`. */
  function AdicionarItem(itens: seq<ItemPedido>): (r: seq<ItemPedido>)
    ensures |r| == |itens| + 1
    ensures r[..|itens|] == itens && r[|itens|] == ItemPedido("", 1, 0, 0)
  {
    itens + [ItemPadrao]
  }

  /** `itens.filter((_, i) => i !== index)`, walking the list from its end. */
  function RemoverItem(itens: seq<ItemPedido>, index: int): (r: seq<ItemPedido>)
    ensures !(0 <= index < |itens|) ==> r == itens
    ensures 0 <= index < |itens| ==> |r| == |itens| - 1
    ensures 0 <= index < |itens| ==> forall j :: 0 <= j < index ==> r[j] == itens[j]
    ensures 0 <= index < |itens| ==> forall j :: index <= j < |r| ==> r[j] == itens[j + 1]
  {
    if itens == [] then []
    else
      var init := RemoverItem(itens[..|itens| - 1], index);
      if |itens| - 1 == index then init else init + [itens[|itens| - 1]]
  }

  /** The field `atualizarItem` writes, with the value written. */
  datatype Edit =
    | SetProdutoId(id: string)
    | SetQuantidade(quantidade: int)
    | SetPrecoUnitario(preco: int)
    | SetTotal(total: int)

  /** `produtos.find(p => p.id === id)`: the first product with that id. */
  function Find(produtos: seq<Produto>, id: string): (r: Option<Produto>)
    ensures r.None? <==> forall p :: p in produtos ==> p.id != id
    ensures r.Some? ==> r.value in produtos && r.value.id == id
  {
    if produtos == [] then None
    else if produtos[0].id == id then Some(produtos[0])
    else Find(produtos[1..], id)
  }

  /** `(quantidade || 1) * (preco_unitario || 0)`: a zero quantity counts as one. */
  function LineTotal(quantidade: int, preco: int): (r: int)
    ensures quantidade != 0 ==> r == quantidade * preco
    ensures quantidade == 0 ==> r == preco
  {
    (if quantidade == 0 then 1 else quantidade) * preco
  }

  /** One line after an edit.  Choosing a catalogue product copies its price;
      the line total is recomputed only after a product or quantity edit. */
  function EditItem(item: ItemPedido, edit: Edit, produtos: seq<Produto>): (r: ItemPedido)
    ensures edit.SetProdutoId? ==> r.produtoId == edit.id && r.quantidade == item.quantidade
    ensures edit.SetProdutoId? && Find(produtos, edit.id).Some? ==> r.precoUnitario == Find(produtos, edit.id).value.preco
    ensures edit.SetProdutoId? && Find(produtos, edit.id).None? ==> r.precoUnitario == item.precoUnitario
    ensures edit.SetQuantidade? ==> r.quantidade == edit.quantidade && r.produtoId == item.produtoId && r.precoUnitario == item.precoUnitario
    ensures edit.SetProdutoId? || edit.SetQuantidade? ==> r.total == LineTotal(r.quantidade, r.precoUnitario)
    ensures edit.SetPrecoUnitario? ==> r == item.(precoUnitario := edit.preco)
    ensures edit.SetTotal? ==> r == item.(total := edit.total)
  {
    match edit
    case SetProdutoId(id) =>
      var withId := item.(produtoId := id);
      var priced := match Find(produtos, id)
        case Some(p) => withId.(precoUnitario := p.preco, produtoId := p.id)
        case None => withId;
      priced.(total := LineTotal(priced.quantidade, priced.precoUnitario))
    case SetQuantidade(q) =>
      item.(quantidade := q, total := LineTotal(q, item.precoUnitario))
    case SetPrecoUnitario(p) =>
      item.(precoUnitario := p)
    case SetTotal(t) =>
      item.(total := t)
  }

  /** `atualizarItem(index, campo, valor)`; it is only called for a row on screen. */
  function AtualizarItem(itens: seq<ItemPedido>, index: nat, edit: Edit, produtos: seq<Produto>): (r: seq<ItemPedido>)
    requires index < |itens|
    ensures |r| == |itens|
    ensures forall j :: 0 <= j < |itens| && j != index ==> r[j] == itens[j]
    ensures r[index] == EditItem(itens[index], edit, produtos)
  {
    itens[index := EditItem(itens[index], edit, produtos)]
  }

  /** The quantity input: `parseInt(value, 10) || 1`. */
  function QuantidadeDigitada(value: string): (q: int)
    ensures q != 0
    ensures JsNumber.ParseInt(value).Some? && JsNumber.ParseInt(value).value != 0 ==> q == JsNumber.ParseInt(value).value
    ensures JsNumber.ParseInt(value).None? ==> q == 1
    ensures JsNumber.ParseInt(value) == Some(0) ==> q == 1
  {
    match JsNumber.ParseInt(value)
    case Some(v) => if v == 0 then 1 else v
    case None => 1
  }

  /** A quantity typed into the input gives the line `quantity × unit price`. */
  lemma TypedQuantityTotal(itens: seq<ItemPedido>, index: nat, value: string, produtos: seq<Produto>)
    requires index < |itens|
    ensures AtualizarItem(itens, index, SetQuantidade(QuantidadeDigitada(value)), produtos)[index].total
            == QuantidadeDigitada(value) * itens[index].precoUnitario
  {
  }

  /** Adding a line leaves the order total unchanged. */
  lemma AddingKeepsTotal(itens: seq<ItemPedido>)
    ensures Total(AdicionarItem(itens)) == Total(itens)
  {
    TotalAppend(itens, [ItemPadrao]);
    TotalSingleton(ItemPadrao);
  }

  /** The order total around one line. */
  lemma TotalAround(a: seq<ItemPedido>, x: ItemPedido, b: seq<ItemPedido>)
    ensures Total(a + [x] + b) == Total(a) + x.total + Total(b)
  {
    TotalAppend(a + [x], b);
    TotalAppend(a, [x]);
    TotalSingleton(x);
  }

  /** Removing position `index` is splicing the list around it. */
  lemma RemoverItemSplices(itens: seq<ItemPedido>, index: int)
    requires 0 <= index < |itens|
    ensures RemoverItem(itens, index) == itens[..index] + itens[index + 1..]
  {
    var r := RemoverItem(itens, index);
    var e := itens[..index] + itens[index + 1..];
    assert |r| == |e|;
    forall j | 0 <= j < |r|
      ensures r[j] == e[j]
    {
      if j < index {
        assert e[j] == itens[j];
      } else {
        assert e[j] == itens[j + 1];
      }
    }
  }

  lemma SplitAt(s: seq<ItemPedido>, i: nat)
    requires i < |s|
    ensures s == s[..i] + [s[i]] + s[i + 1..]
  {
  }

  lemma TotalWithout(s: seq<ItemPedido>, i: nat)
    requires i < |s|
    ensures Total(s[..i] + s[i + 1..]) == Total(s) - s[i].total
  {
    var a, b := s[..i], s[i + 1..];
    TotalAppend(a, b);
    SplitAt(s, i);
    TotalAround(a, s[i], b);
  }

  lemma TotalReplacing(s: seq<ItemPedido>, i: nat, x: ItemPedido)
    requires i < |s|
    ensures Total(s[i := x]) == Total(s) - s[i].total + x.total
  {
    var a, b := s[..i], s[i + 1..];
    SplitAt(s[i := x], i);
    assert s[i := x][..i] == a && s[i := x][i + 1..] == b;
    TotalAround(a, x, b);
    SplitAt(s, i);
    TotalAround(a, s[i], b);
  }

  /** Removing a line takes exactly its total off the order total. */
  lemma RemovingSubtractsLine(itens: seq<ItemPedido>, index: int)
    requires 0 <= index < |itens|
    ensures Total(RemoverItem(itens, index)) == Total(itens) - itens[index].total
  {
    RemoverItemSplices(itens, index);
    TotalWithout(itens, index);
  }

  /** Editing a line changes the order total by the change of that line's total. */
  lemma EditingReplacesLine(itens: seq<ItemPedido>, index: nat, edit: Edit, produtos: seq<Produto>)
    requires index < |itens|
    ensures Total(AtualizarItem(itens, index, edit, produtos))
            == Total(itens) - itens[index].total + EditItem(itens[index], edit, produtos).total
  {
    TotalReplacing(itens, index, EditItem(itens[index], edit, produtos));
  }
}
