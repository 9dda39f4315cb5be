/** src/app/produtos/novo/page.tsx: the new-product form.  Each handler maps
    the previous form state to the next one. */
module NovoProdutoPage {
  import opened Wrappers
  import opened Text
  import opened Types
  import opened JsNumber
  import MaxCodeRoute
  import ProdutosRoute

  /** Every input is kept as text except the `ativo` checkbox. */
  datatype FormData = FormData(
    codigo: string,
    nome: string,
    descricao: string,
    preco: string,
    custo: string,
    estoque: string,
    estoqueMinimo: string,
    unidadeMedida: string,
    categoria: string,
    imagemUrl: string,
    ativo: bool)

  /** The `name` attributes of the text inputs. */
  datatype Field = Codigo | Nome | Descricao | Preco | Custo | Estoque | EstoqueMinimo
                 | UnidadeMedida | Categoria | ImagemUrl

  const InitialForm := FormData("", "", "", "", "", "", "", "un", "", "", true)

  /** The code shown when the maximum code cannot be fetched. */
  const CodigoErro := "ERRO"

  function Get(f: FormData, field: Field): string {
    match field
    case Codigo => f.codigo
    case Nome => f.nome
    case Descricao => f.descricao
    case Preco => f.preco
    case Custo => f.custo
    case Estoque => f.estoque
    case EstoqueMinimo => f.estoqueMinimo
    case UnidadeMedida => f.unidadeMedida
    case Categoria => f.categoria
    case ImagemUrl => f.imagemUrl
  }

  /** `{...prev, [name]: value}`. */
  function Set(f: FormData, field: Field, v: string): (r: FormData)
    ensures Get(r, field) == v
    ensures forall g :: g != field ==> Get(r, g) == Get(f, g)
    ensures r.ativo == f.ativo
  {
    match field
    case Codigo => f.(codigo := v)
    case Nome => f.(nome := v)
    case Descricao => f.(descricao := v)
    case Preco => f.(preco := v)
    case Custo => f.(custo := v)
    case Estoque => f.(estoque := v)
    case EstoqueMinimo => f.(estoqueMinimo := v)
    case UnidadeMedida => f.(unidadeMedida := v)
    case Categoria => f.(categoria := v)
    case ImagemUrl => f.(imagemUrl := v)
  }

  predicate IsPriceChar(c: char) {
    IsDigit(c) || c == ',' || c == '.'
  }

  /** `value.replace(/[^\d,.]/g, '')`. */
  function SanitizePrice(v: string): string {
    Filter(v, IsPriceChar)
  }

  /** `value.replace(/\D/g, '')`. */
  function SanitizeStock(v: string): string {
    Digits(v)
  }

  /** What `handleChange` stores for `name`. */
  function Sanitized(name: Field, value: string): string {
    if name == Preco || name == Custo then SanitizePrice(value)
    else if name == Estoque || name == EstoqueMinimo then SanitizeStock(value)
    else value
  }

  /** `handleChange`: the named field takes the (sanitised) value; every other
      field and the checkbox stay as they were. */
  function HandleChange(f: FormData, name: Field, value: string): (r: FormData)
    ensures (name == Preco || name == Custo) ==>
              (forall i :: 0 <= i < |Get(r, name)| ==> IsPriceChar(Get(r, name)[i]))
              && forall c :: c in value && IsPriceChar(c) ==> c in Get(r, name)
    ensures (name == Estoque || name == EstoqueMinimo) ==>
              AllDigits(Get(r, name)) && forall c :: c in value && IsDigit(c) ==> c in Get(r, name)
    ensures !(name in {Preco, Custo, Estoque, EstoqueMinimo}) ==> Get(r, name) == value
    ensures forall g :: g != name ==> Get(r, g) == Get(f, g)
    ensures r.ativo == f.ativo
  {
    Set(f, name, Sanitized(name, value))
  }

  /** Typing the shown value back into a field changes nothing: both
      sanitisers are idempotent. */
  lemma HandleChangeIdempotent(f: FormData, name: Field, value: string)
    ensures var r := HandleChange(f, name, value);
            HandleChange(r, name, Get(r, name)) == r
  {
    var r := HandleChange(f, name, value);
    FilterIdempotent(value, IsPriceChar);
    FilterIdempotent(value, IsDigit);
    assert Sanitized(name, Get(r, name)) == Get(r, name);
  }

  /** `handleCheckboxChange` for the only checkbox, `ativo`. */
  function HandleCheckboxChange(f: FormData, checked: bool): (r: FormData)
    ensures r.ativo == checked
    ensures forall g :: Get(r, g) == Get(f, g)
  {
    f.(ativo := checked)
  }

  /** `Math.max(maxCode, 999) + 1`. */
  function NextCode(maxCode: int): (n: nat)
    ensures n >= 1000 && n > maxCode
  {
    Max(maxCode, 999) + 1
  }

  /** The code the page shows after the fetch: `None` is a failed fetch. */
  function LoadedCodigo(fetched: Option<int>): (s: string)
    ensures fetched.None? ==> s == CodigoErro
    ensures fetched.Some? ==> AllDigits(s) && DecimalValue(s) == NextCode(fetched.value)
  {
    match fetched
    case None => CodigoErro
    case Some(m) =>
      NatToStringRoundTrip(NextCode(m));
      NatToString(NextCode(m))
  }

  /** `loadNextCode`: only `codigo` changes. */
  function LoadNextCode(f: FormData, fetched: Option<int>): (r: FormData)
    ensures r == Set(f, Codigo, LoadedCodigo(fetched))
  {
    f.(codigo := LoadedCodigo(fetched))
  }

  /** The suggested code collides with no stored code that casts to an
      integer: its value exceeds the maximum the route returned. */
  lemma {:induction false} SuggestedCodeIsNew(ps: seq<Produto>, maxCode: int)
    requires forall p :: p in ps ==> MaxCodeRoute.Castable(p) && MaxCodeRoute.CastInteger(p.codigo).value <= maxCode
    requires NextCode(maxCode) <= MaxCodeRoute.MaxInt4
    ensures forall p :: p in ps ==> p.codigo != LoadedCodigo(Some(maxCode))
    ensures MaxCodeRoute.CastInteger(LoadedCodigo(Some(maxCode))) == Some(NextCode(maxCode) as int)
  {
    var s := LoadedCodigo(Some(maxCode));
    assert MaxCodeRoute.CastInteger(s) == Some(NextCode(maxCode) as int);
  }

  /** Once a product is saved with the fallback code `ERRO` (the route accepts
      any non-empty code), every later maximum-code query fails its cast, and
      the page shows `ERRO` again. */
  lemma ErroCodeIsSticky(ps: seq<Produto>, p: Produto)
    requires p in ps && p.codigo == CodigoErro
    ensures MaxCodeRoute.MaxCode(ps).CastError?
    ensures LoadedCodigo(None) == CodigoErro
  {
    assert !IsDigit('E');
    assert MaxCodeRoute.CastInteger(p.codigo).None?;
    MaxCodeRoute.MaxCodeIsMaximum(ps);
  }

  /** `handleSubmit`'s body.  `preco` and `custo` are the results of
      `parseFloat(x.replace(',', '.')) || 0`, in cents, supplied by the caller;
      the stock fields are `parseInt(x) || 0`. */
  function SubmitBody(f: FormData, preco: int, custo: int): (b: ProdutosRoute.ProdutoBody)
    ensures AllDigits(f.estoque) ==> b.estoque == DecimalValue(f.estoque)
    ensures AllDigits(f.estoqueMinimo) ==> b.estoqueMinimo == DecimalValue(f.estoqueMinimo)
    ensures f.estoque == "" ==> b.estoque == 0
    ensures b.codigo == f.codigo && b.nome == f.nome && b.preco == preco && b.ativo == f.ativo
  {
    ProdutosRoute.ProdutoBody(
      f.codigo, f.nome, Some(f.descricao), preco, Some(custo),
      ParseIntOrZero(f.estoque), ParseIntOrZero(f.estoqueMinimo),
      f.unidadeMedida, Some(f.categoria), f.ativo)
  }

  /** A form submitted with an empty or zero price is refused by the route. */
  lemma ZeroPriceIsRefused(f: FormData, custo: int)
    ensures !ProdutosRoute.HasRequired(SubmitBody(f, 0, custo))
  {
  }
}
