/** How the form, the write path and the report fit together. */
module Fluxo {
  import opened Wrappers
  import opened Text
  import opened Vendas
  import Store
  import Relatorio
  import opened Formulario

  /** A request the form actually sends passes the server's validation exactly when the
      date and the (substituted) payment method are non-empty: the products always pass.
      With "outro" chosen, a typed name of only spaces is accepted and stored as such. */
  lemma EnvioAceitoPeloServidor(f: Form, hoje: string, agora: string, respostaOk: bool)
    requires SalvarVenda(f, hoje, agora, respostaOk).enviada.Some?
    ensures var s := SalvarVenda(f, hoje, agora, respostaOk).enviada.value;
      Store.Validar(s) == Store.Aceita <==> s.dataVenda != "" && s.formaPagamento != ""
  {
    var ps := Produtos(f.linhas);
    ProdutosBemFormados(f.linhas);
    assert forall i :: 0 <= i < |ps| ==> Store.ProdutoCompleto(ps[i]);
  }

  /** The summary the form computes is coherent, so a sale created from it keeps the
      report's profit equal to its sales minus its purchases. */
  lemma ResumoDoFormularioCoerente(f: Form, agora: string, id: string, ts: string)
    ensures var s := ColetarDadosVenda(f, agora);
      Relatorio.ResumoCoerente(Store.NovaVenda(s, id, ts))
  {
  }

  /** A successful create moves the report by exactly the stored summary of the new sale:
      one more sale and active sale, and each total raised by the summary's field. */
  lemma RelatorioAposCriar(l: Lojas, s: Submissao, id: string, ts: string, gravouEspelho: bool,
                           agora: int, instante: string -> Option<int>)
    requires Store.Validar(s) == Store.Aceita
    requires s.resumo.Some?
    requires Relatorio.Gerar(l.vendas, agora, instante).Some?
    ensures var depois := Store.Criar(l, s, id, ts, true, gravouEspelho).lojas.vendas;
      var antes := Relatorio.Gerar(l.vendas, agora, instante).value.resumo;
      && Relatorio.Gerar(depois, agora, instante).Some?
      && var e := Relatorio.Gerar(depois, agora, instante).value.resumo;
         && e.totalVendas == antes.totalVendas + 1
         && e.vendasAtivas == antes.vendasAtivas + 1
         && e.totalCompra == antes.totalCompra + s.resumo.value.totalCompra.GetOr(0)
         && e.totalVenda == antes.totalVenda + s.resumo.value.totalVenda.GetOr(0)
         && e.lucroTotal == antes.lucroTotal + s.resumo.value.lucroTotal.GetOr(0)
         && e.totalProdutos == antes.totalProdutos + s.resumo.value.quantidadeProdutos.GetOr(0)
  {
    var v := Store.NovaVenda(s, id, ts);
    var depois := Store.Criar(l, s, id, ts, true, gravouEspelho).lojas.vendas;
    assert depois == l.vendas + [v];
    Relatorio.GerarAposAcrescentar(l.vendas, v, agora, instante);
    Relatorio.CorrigidoAposAcrescentar(l.vendas, v, agora, instante);
  }

  /** The example sale: "outro" with "Voucher" typed, one product "Widget" bought at 10 and
      sold at 15, is sent with method "Voucher" and summary (10, 15, 5, 1), and the server
      accepts it. */
  lemma ExemploVoucher(f: Form, agora: string)
    requires f.dataVenda == "2024-01-10"
    requires f.formaPagamento == Outro && f.outroPagamento == "Voucher"
    requires f.linhas == [Linha(1, "Widget", Some(10), Some(15))]
    ensures var s := ColetarDadosVenda(f, agora);
      && s.formaPagamento == "Voucher"
      && s.produtos == Some([Produto("Widget", Some(10), Some(15), Some(5))])
      && s.resumo == Some(Resumo(Some(10), Some(15), Some(5), Some(1)))
      && Store.Validar(s) == Store.Aceita
  {
    var l := f.linhas[0];
    assert LeadingWhite("Widget") == 0;
    assert TrailingWhite("Widget") == 0;
    assert Trim("Widget") == "Widget";
    assert Preenchida(l);
    assert f.linhas[1..] == [];
    var ps := Produtos(f.linhas);
    assert ps == [Produto("Widget", Some(10), Some(15), Some(5))];
    assert ps[..0] == [];
  }

  /** The server accepts a sale without a summary, and from then on the report handler
      throws on it and answers 500; the corrected report still counts that sale, with
      zero totals. */
  lemma VendaSemResumoQuebraRelatorio(l: Lojas, s: Submissao, id: string, ts: string,
                                      agora: int, instante: string -> Option<int>)
    requires Store.Validar(s) == Store.Aceita
    requires s.resumo.None?
    ensures var p := Store.Criar(l, s, id, ts, true, true);
      && p.resposta.Criada?
      && Relatorio.Gerar(p.lojas.vendas, agora, instante).None?
      && Relatorio.GerarCorrigido(p.lojas.vendas, agora, instante).resumo.vendasAtivas
         == Relatorio.GerarCorrigido(l.vendas, agora, instante).resumo.vendasAtivas + 1
  {
    var v := Store.NovaVenda(s, id, ts);
    var depois := Store.Criar(l, s, id, ts, true, true).lojas.vendas;
    assert depois == l.vendas + [v];
    assert depois[|l.vendas|] == v;
    assert Relatorio.AtivaSemResumo(depois);
    assert depois[..|l.vendas|] == l.vendas;
  }
}
