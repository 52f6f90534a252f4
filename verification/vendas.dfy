/** The records the sales app stores and exchanges. Money is in integer cents; a JSON
    field that may be missing is an `Option`, and a text field whose absence and emptiness
    the code treats alike (both are falsy) is a string with "" for missing. */
module Vendas {
  import opened Wrappers

  /** The status every new sale is stored with. */
  const Ativa: string := "ativa"

  /** One line item as submitted: a name and two prices, plus the profit the form computed.
      A price is `None` when the request omitted it (`undefined`). */
  datatype Produto = Produto(
    nome: string,
    precoCompra: Option<int>,
    precoVenda: Option<int>,
    lucro: Option<int>)

  /** The summary the form attaches to a sale. The server stores it as sent. */
  datatype Resumo = Resumo(
    totalCompra: Option<int>,
    totalVenda: Option<int>,
    lucroTotal: Option<int>,
    quantidadeProdutos: Option<int>)

  /** A stored sale. `timestamp` and `updatedAt` are ISO strings supplied by the caller. */
  datatype Venda = Venda(
    id: string,
    dataVenda: string,
    formaPagamento: string,
    produtos: seq<Produto>,
    resumo: Option<Resumo>,
    timestamp: string,
    status: string,
    updatedAt: Option<string>)

  /** The body of a create request. */
  datatype Submissao = Submissao(
    dataVenda: string,
    formaPagamento: string,
    produtos: Option<seq<Produto>>,
    resumo: Option<Resumo>,
    timestamp: Option<string>)

  /** The body of an update request: each field present overrides the stored one. */
  datatype Alteracao = Alteracao(
    id: Option<string>,
    dataVenda: Option<string>,
    formaPagamento: Option<string>,
    produtos: Option<seq<Produto>>,
    resumo: Option<Resumo>,
    timestamp: Option<string>,
    status: Option<string>,
    updatedAt: Option<string>)

  /** One row written to the mirror table per product of a sale. */
  datatype LinhaEspelho = LinhaEspelho(
    name: string,
    sale_price: Option<int>,
    purchase_price: Option<int>,
    created_at: string,
    id: string)

  /** The outcome of an API call on a single sale, with the HTTP status it is answered with. */
  datatype Resposta =
    | Criada(venda: Venda)     // 201
    | Ok(venda: Venda)         // 200
    | NaoEncontrada            // 404
    | Invalida                 // 400
    | Falhou                   // 500

  /** The two stores: the JSON file of sales and the mirror table of product rows. */
  datatype Lojas = Lojas(vendas: seq<Venda>, espelho: seq<LinhaEspelho>)

  /** The stores after a call, and the call's outcome. */
  datatype Passo = Passo(lojas: Lojas, resposta: Resposta)
}
