/** The browser form: the product rows and their counter, the guards on adding a product
    and on saving, and the construction of the create request from the rows. Prices are
    integer cents already read from the inputs; a blank or unparsable input is `None`
    and counts as 0, as `parseFloat(...) || 0` does. */
module Formulario {
  import opened Wrappers
  import opened Text
  import opened Seqs
  import opened Vendas

  /** The payment-method choice whose real name is typed into a separate field. */
  const Outro: string := "outro"

  /** One product row on the page, identified by the counter value it was created with. */
  datatype Linha = Linha(id: nat, nome: string, precoCompra: Option<int>, precoVenda: Option<int>)

  /** The state of the form: header fields, the product rows in page order, and the counter. */
  datatype Form = Form(
    dataVenda: string,
    formaPagamento: string,
    outroPagamento: string,
    linhas: seq<Linha>,
    contador: nat)

  /** The guard of "add product": date and method chosen, and a non-blank name typed
      when the method is "outro". */
  predicate PodeAdicionar(f: Form) {
    && f.dataVenda != ""
    && f.formaPagamento != ""
    && !(f.formaPagamento == Outro && Trim(f.outroPagamento) == "")
  }

  /** The form after "add product", and whether the click was accepted. */
  datatype Adicao = Adicao(form: Form, aceita: bool)

  /** "Add product": when the guard holds, bump the counter and append an empty row carrying
      the new counter value; otherwise change nothing. */
  function AdicionarProduto(f: Form): (r: Adicao)
    ensures r.aceita <==> PodeAdicionar(f)
    ensures !r.aceita ==> r.form == f
    ensures r.aceita ==>
      && r.form.contador == f.contador + 1
      && r.form.linhas == f.linhas + [Linha(r.form.contador, "", None, None)]
      && r.form.dataVenda == f.dataVenda
      && r.form.formaPagamento == f.formaPagamento
      && r.form.outroPagamento == f.outroPagamento
  {
    if !PodeAdicionar(f) then Adicao(f, false)
    else
      var n := f.contador + 1;
      Adicao(f.(linhas := f.linhas + [Linha(n, "", None, None)], contador := n), true)
  }

  /** Position of the first row with the given id. */
  function PosicaoLinha(ls: seq<Linha>, id: nat): (r: Option<nat>)
    ensures r.Some? ==>
      && r.value < |ls|
      && ls[r.value].id == id
      && forall i :: 0 <= i < r.value ==> ls[i].id != id
    ensures r.None? <==> forall i :: 0 <= i < |ls| ==> ls[i].id != id
  {
    if |ls| == 0 then None
    else if ls[0].id == id then Some(0)
    else
      match PosicaoLinha(ls[1..], id)
      case None => None
      case Some(k) => Some(k + 1)
  }

  /** "Remove product": the row with that id leaves the page; the counter is not touched. */
  function RemoverProduto(f: Form, id: nat): (r: Form)
    ensures r.contador == f.contador
    ensures PosicaoLinha(f.linhas, id).None? ==> r == f
    ensures PosicaoLinha(f.linhas, id).Some? ==>
      var k := PosicaoLinha(f.linhas, id).value;
      r == f.(linhas := f.linhas[..k] + f.linhas[k + 1..])
  {
    match PosicaoLinha(f.linhas, id)
    case None => f
    case Some(k) => f.(linhas := f.linhas[..k] + f.linhas[k + 1..])
  }

  /** Clearing the form after a save: no rows, counter back to 0, method fields emptied and
      the date set to today. */
  function Limpar(f: Form, hoje: string): (r: Form)
    ensures r.linhas == [] && r.contador == 0
    ensures r.formaPagamento == "" && r.outroPagamento == ""
    ensures r.dataVenda == hoje
  {
    Form(hoje, "", "", [], 0)
  }

  /** The invariant of a form session: every row id was handed out by the counter, and ids
      increase strictly down the page, so no two rows share one. */
  predicate Sessao(f: Form) {
    && (forall i :: 0 <= i < |f.linhas| ==> 1 <= f.linhas[i].id <= f.contador)
    && (forall i, j :: 0 <= i < j < |f.linhas| ==> f.linhas[i].id < f.linhas[j].id)
  }

  /** Row ids in a session are pairwise distinct. */
  lemma SessaoIdsDistintos(f: Form)
    requires Sessao(f)
    ensures forall i, j :: 0 <= i < |f.linhas| && 0 <= j < |f.linhas| && i != j ==> f.linhas[i].id != f.linhas[j].id
  {
    forall i, j | 0 <= i < |f.linhas| && 0 <= j < |f.linhas| && i != j
      ensures f.linhas[i].id != f.linhas[j].id
    {
      if i < j {
        assert f.linhas[i].id < f.linhas[j].id;
      } else {
        assert f.linhas[j].id < f.linhas[i].id;
      }
    }
  }

  /** An accepted add keeps the session invariant: the new row's id exceeds every other. */
  lemma AdicionarPreservaSessao(f: Form)
    requires Sessao(f)
    ensures Sessao(AdicionarProduto(f).form)
  {
  }

  /** Removing a row keeps the session invariant: the remaining ids stay in order. */
  lemma RemoverPreservaSessao(f: Form, id: nat)
    requires Sessao(f)
    ensures Sessao(RemoverProduto(f, id))
  {
    match PosicaoLinha(f.linhas, id)
    case None =>
    case Some(k) =>
      var ls := f.linhas;
      var rs := ls[..k] + ls[k + 1..];
      assert forall i :: 0 <= i < |rs| ==> rs[i] == ls[if i < k then i else i + 1];
  }

  /** A cleared form starts a new session. */
  lemma LimparIniciaSessao(f: Form, hoje: string)
    ensures Sessao(Limpar(f, hoje))
  {
  }

  /** The counter only grows while the form is in use: an accepted add raises it by one,
      and a refused add or a removal leaves it as it was. */
  lemma ContadorCresce(f: Form, id: nat)
    ensures AdicionarProduto(f).aceita ==> AdicionarProduto(f).form.contador > f.contador
    ensures AdicionarProduto(f).form.contador >= f.contador
    ensures RemoverProduto(f, id).contador == f.contador
  {
  }

  /** A row whose name is not blank after trimming; blank rows are skipped. */
  predicate Preenchida(l: Linha) {
    Trim(l.nome) != ""
  }

  /** The product a filled row becomes: trimmed name, prices with blanks as 0, and profit. */
  function ProdutoDe(l: Linha): (p: Produto)
    ensures p.precoCompra == Some(l.precoCompra.GetOr(0))
    ensures p.precoVenda == Some(l.precoVenda.GetOr(0))
    ensures p.lucro == Some(p.precoVenda.value - p.precoCompra.value)
    ensures p.nome == Trim(l.nome)
  {
    var c := l.precoCompra.GetOr(0);
    var v := l.precoVenda.GetOr(0);
    Produto(Trim(l.nome), Some(c), Some(v), Some(v - c))
  }

  /** The products of the rows, in page order, blank rows skipped. */
  function Produtos(ls: seq<Linha>): (ps: seq<Produto>)
    ensures |ps| <= |ls|
  {
    if |ls| == 0 then []
    else if Preenchida(ls[0]) then [ProdutoDe(ls[0])] + Produtos(ls[1..])
    else Produtos(ls[1..])
  }

  /** The products are the filled rows, in page order, each turned into its product: blank
      rows are exactly the ones dropped. */
  lemma {:induction false} ProdutosDasPreenchidas(ls: seq<Linha>)
    ensures |Produtos(ls)| == |Filter(ls, Preenchida)|
    ensures forall i :: 0 <= i < |Produtos(ls)| ==> Produtos(ls)[i] == ProdutoDe(Filter(ls, Preenchida)[i])
  {
    if |ls| > 0 {
      ProdutosDasPreenchidas(ls[1..]);
      if Preenchida(ls[0]) {
        var ps := Produtos(ls);
        var fs := Filter(ls, Preenchida);
        assert ps[1..] == Produtos(ls[1..]);
        assert fs[1..] == Filter(ls[1..], Preenchida);
      }
    }
  }

  /** A name as `trim` leaves it: non-empty, with no white space at either end. */
  predicate Aparado(n: string) {
    |n| > 0 && !IsWhite(n[0]) && !IsWhite(n[|n| - 1])
  }

  /** A product as the form emits it: a trimmed name, both prices, and profit = sale - purchase. */
  predicate BemFormado(p: Produto) {
    && Aparado(p.nome)
    && p.precoCompra.Some? && p.precoVenda.Some?
    && p.lucro == Some(p.precoVenda.value - p.precoCompra.value)
  }

  /** A filled row yields a well-formed product. */
  lemma ProdutoDePreenchida(l: Linha)
    requires Preenchida(l)
    ensures BemFormado(ProdutoDe(l))
  {
    TrimSpec(l.nome);
  }

  /** Every product the form emits is well formed. */
  lemma {:induction false} ProdutosBemFormados(ls: seq<Linha>)
    ensures forall i :: 0 <= i < |Produtos(ls)| ==> BemFormado(Produtos(ls)[i])
  {
    if |ls| > 0 {
      ProdutosBemFormados(ls[1..]);
      if Preenchida(ls[0]) {
        ProdutoDePreenchida(ls[0]);
        var ps := Produtos(ls);
        assert ps[1..] == Produtos(ls[1..]);
        assert forall i :: 1 <= i < |ps| ==> ps[i] == ps[1..][i - 1];
      }
    }
  }

  function CompraDoProduto(p: Produto): int {
    p.precoCompra.GetOr(0)
  }

  function VendaDoProduto(p: Produto): int {
    p.precoVenda.GetOr(0)
  }

  function LucroDoProduto(p: Produto): int {
    p.lucro.GetOr(0)
  }

  /** The request body the form sends: the header fields with "outro" replaced by the typed
      name, the products, and a summary whose profit is the sum of the products' profits. */
  function ColetarDadosVenda(f: Form, agora: string): (s: Submissao)
    ensures s.dataVenda == f.dataVenda
    ensures s.formaPagamento == if f.formaPagamento == Outro then f.outroPagamento else f.formaPagamento
    ensures s.produtos == Some(Produtos(f.linhas))
    ensures s.timestamp == Some(agora)
    ensures s.resumo.Some?
    ensures var ps := Produtos(f.linhas);
      var t := s.resumo.value;
      && t.totalCompra == Some(Sum(ps, CompraDoProduto))
      && t.totalVenda == Some(Sum(ps, VendaDoProduto))
      && t.lucroTotal == Some(Sum(ps, LucroDoProduto))
      && t.lucroTotal.value == t.totalVenda.value - t.totalCompra.value
      && t.quantidadeProdutos == Some(|ps|)
  {
    var ps := Produtos(f.linhas);
    ProdutosBemFormados(f.linhas);
    var totalCompra := Sum(ps, CompraDoProduto);
    var totalVenda := Sum(ps, VendaDoProduto);
    SumDifference(ps, VendaDoProduto, CompraDoProduto, LucroDoProduto);
    Submissao(
      f.dataVenda,
      if f.formaPagamento == Outro then f.outroPagamento else f.formaPagamento,
      Some(ps),
      Some(Resumo(Some(totalCompra), Some(totalVenda), Some(totalVenda - totalCompra), Some(|ps|))),
      Some(agora))
  }

  /** The form after "save", and the request sent, if any. */
  datatype Envio = Envio(form: Form, enviada: Option<Submissao>)

  /** "Save": without products nothing is sent and nothing changes; otherwise the request is
      sent, and the form is cleared only when the server answers with success. */
  function SalvarVenda(f: Form, hoje: string, agora: string, respostaOk: bool): (r: Envio)
    ensures Produtos(f.linhas) == [] <==> r.enviada.None?
    ensures r.enviada.None? ==> r.form == f
    ensures r.enviada.Some? ==>
      && r.enviada.value == ColetarDadosVenda(f, agora)
      && r.form == if respostaOk then Limpar(f, hoje) else f
  {
    var s := ColetarDadosVenda(f, agora);
    if |s.produtos.value| == 0 then Envio(f, None)
    else Envio(if respostaOk then Limpar(f, hoje) else f, Some(s))
  }
}
