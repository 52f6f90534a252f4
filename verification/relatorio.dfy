/** The report endpoint: counts, totals of the stored summaries over the active sales,
    a count per payment method and the number of recent sales. */
module Relatorio {
  import opened Wrappers
  import opened Seqs
  import opened Vendas

  /** Thirty days in milliseconds, the width of the "recent sales" window. */
  const TrintaDiasMs: int := 30 * 24 * 60 * 60 * 1000

  predicate EstaAtiva(v: Venda) {
    v.status == Ativa
  }

  function Ativas(vendas: seq<Venda>): seq<Venda> {
    Filter(vendas, EstaAtiva)
  }

  /** The summary fields the report adds up, each read with `|| 0`. */
  function CompraDoResumo(v: Venda): int {
    if v.resumo.Some? then v.resumo.value.totalCompra.GetOr(0) else 0
  }

  function VendaDoResumo(v: Venda): int {
    if v.resumo.Some? then v.resumo.value.totalVenda.GetOr(0) else 0
  }

  function LucroDoResumo(v: Venda): int {
    if v.resumo.Some? then v.resumo.value.lucroTotal.GetOr(0) else 0
  }

  function QuantidadeDoResumo(v: Venda): int {
    if v.resumo.Some? then v.resumo.value.quantidadeProdutos.GetOr(0) else 0
  }

  /** One entry of the per-payment-method count. */
  datatype Contagem = Contagem(forma: string, n: nat)

  /** The keys of a count, in insertion order, are pairwise distinct. */
  predicate ChavesDistintas(h: seq<Contagem>) {
    forall i, j :: 0 <= i < j < |h| ==> h[i].forma != h[j].forma
  }

  /** The keys of a count. */
  function Formas(h: seq<Contagem>): set<string> {
    if |h| == 0 then {} else {h[0].forma} + Formas(h[1..])
  }

  /** A key is in `Formas` exactly when some entry carries it. */
  lemma {:induction false} FormasIndices(h: seq<Contagem>)
    ensures forall i :: 0 <= i < |h| ==> h[i].forma in Formas(h)
    ensures forall x :: x in Formas(h) ==> exists i :: 0 <= i < |h| && h[i].forma == x
  {
    if |h| > 0 {
      FormasIndices(h[1..]);
      assert forall i :: 1 <= i < |h| ==> h[i] == h[1..][i - 1];
      forall x | x in Formas(h[1..])
        ensures exists i :: 0 <= i < |h| && h[i].forma == x
      {
        var k :| 0 <= k < |h[1..]| && h[1..][k].forma == x;
        assert h[k + 1].forma == x;
      }
    }
  }

  /** The count recorded for `forma`; 0 when it has no entry. */
  function Quantas(h: seq<Contagem>, forma: string): nat {
    if |h| == 0 then 0
    else if h[0].forma == forma then h[0].n
    else Quantas(h[1..], forma)
  }

  function SomaContagens(h: seq<Contagem>): nat {
    if |h| == 0 then 0 else h[0].n + SomaContagens(h[1..])
  }

  /** `acc[forma] = (acc[forma] || 0) + 1`: bump the entry, or add one with 1 at the end. */
  function Incrementar(h: seq<Contagem>, forma: string): (r: seq<Contagem>)
    ensures |r| == |h| || |r| == |h| + 1
  {
    if |h| == 0 then [Contagem(forma, 1)]
    else if h[0].forma == forma then [Contagem(forma, h[0].n + 1)] + h[1..]
    else [h[0]] + Incrementar(h[1..], forma)
  }

  /** Incrementing adds `forma` to the keys and nothing else. */
  lemma {:induction false} IncrementarFormas(h: seq<Contagem>, forma: string)
    ensures Formas(Incrementar(h, forma)) == Formas(h) + {forma}
    decreases |h|
  {
    var r := Incrementar(h, forma);
    if |h| > 0 {
      if h[0].forma == forma {
        assert r[1..] == h[1..];
      } else {
        IncrementarFormas(h[1..], forma);
        assert r[1..] == Incrementar(h[1..], forma);
      }
    }
  }

  /** Incrementing keeps the keys pairwise distinct. */
  lemma {:induction false} IncrementarDistintas(h: seq<Contagem>, forma: string)
    requires ChavesDistintas(h)
    ensures ChavesDistintas(Incrementar(h, forma))
    decreases |h|
  {
    if |h| > 0 && h[0].forma != forma {
      var t := Incrementar(h[1..], forma);
      IncrementarDistintas(h[1..], forma);
      IncrementarFormas(h[1..], forma);
      FormasIndices(h[1..]);
      FormasIndices(t);
      assert h[0].forma !in Formas(h[1..]) by {
        forall i | 0 <= i < |h[1..]|
          ensures h[1..][i].forma != h[0].forma
        {
          assert h[1..][i] == h[i + 1];
        }
      }
      var r := Incrementar(h, forma);
      assert r == [h[0]] + t;
    }
  }

  /** Incrementing adds one to the count of `forma` and leaves every other count alone. */
  lemma {:induction false} IncrementarQuantas(h: seq<Contagem>, forma: string, g: string)
    ensures Quantas(Incrementar(h, forma), g) == Quantas(h, g) + (if g == forma then 1 else 0)
    decreases |h|
  {
    if |h| > 0 && h[0].forma != forma {
      IncrementarQuantas(h[1..], forma, g);
      assert Incrementar(h, forma)[1..] == Incrementar(h[1..], forma);
    } else if |h| > 0 {
      assert Incrementar(h, forma)[1..] == h[1..];
    }
  }

  /** Incrementing adds one to the total of the counts. */
  lemma {:induction false} IncrementarSoma(h: seq<Contagem>, forma: string)
    ensures SomaContagens(Incrementar(h, forma)) == SomaContagens(h) + 1
    decreases |h|
  {
    if |h| > 0 && h[0].forma != forma {
      IncrementarSoma(h[1..], forma);
      assert Incrementar(h, forma)[1..] == Incrementar(h[1..], forma);
    } else if |h| > 0 {
      assert Incrementar(h, forma)[1..] == h[1..];
    }
  }

  /** Every entry of a count holds at least 1: the object only gets a key when a sale
      with that method is counted. */
  predicate ContagensPositivas(h: seq<Contagem>) {
    forall i :: 0 <= i < |h| ==> h[i].n >= 1
  }

  /** Incrementing keeps every count positive. */
  lemma {:induction false} IncrementarPositivas(h: seq<Contagem>, forma: string)
    requires ContagensPositivas(h)
    ensures ContagensPositivas(Incrementar(h, forma))
    decreases |h|
  {
    if |h| > 0 && h[0].forma != forma {
      IncrementarPositivas(h[1..], forma);
      var r := Incrementar(h, forma);
      assert r == [h[0]] + Incrementar(h[1..], forma);
    } else if |h| > 0 {
      assert Incrementar(h, forma)[1..] == h[1..];
    }
  }

  /** The payment methods used by some sale of the list. */
  function FormasUsadas(vendas: seq<Venda>): set<string> {
    set v | v in vendas :: v.formaPagamento
  }

  /** Predicate "paid with `forma`", as a function value for `Count`. */
  function MesmaForma(forma: string): Venda -> bool {
    (v: Venda) => v.formaPagamento == forma
  }

  /** The per-payment-method count, folded over the sales in order. */
  function PorPagamento(vendas: seq<Venda>): (h: seq<Contagem>)
    ensures ChavesDistintas(h)
    ensures ContagensPositivas(h)
    ensures Formas(h) == FormasUsadas(vendas)
    ensures SomaContagens(h) == |vendas|
    ensures forall forma :: Quantas(h, forma) == Count(vendas, MesmaForma(forma))
    decreases |vendas|
  {
    if |vendas| == 0 then []
    else
      var antes := PorPagamento(vendas[..|vendas| - 1]);
      var forma := vendas[|vendas| - 1].formaPagamento;
      assert vendas == vendas[..|vendas| - 1] + [vendas[|vendas| - 1]];
      assert FormasUsadas(vendas) == FormasUsadas(vendas[..|vendas| - 1]) + {forma};
      IncrementarFormas(antes, forma);
      IncrementarPositivas(antes, forma);
      IncrementarDistintas(antes, forma);
      IncrementarSoma(antes, forma);
      forall g | true
        ensures Quantas(Incrementar(antes, forma), g) == Count(vendas, MesmaForma(g))
      {
        IncrementarQuantas(antes, forma, g);
      }
      Incrementar(antes, forma)
  }

  /** A sale dated on or after the start of the window; an unparsable date (`None`, an
      Invalid Date in the source) never compares as recent. */
  predicate Recente(v: Venda, instante: string -> Option<int>, inicio: int) {
    instante(v.dataVenda).Some? && instante(v.dataVenda).value >= inicio
  }

  /** `Recente` for a fixed window start, as a test for `Filter` and `Count`. */
  function RecenteDesde(instante: string -> Option<int>, inicio: int): Venda -> bool {
    (v: Venda) => Recente(v, instante, inicio)
  }

  /** The `resumo` block of the report. */
  datatype Estatisticas = Estatisticas(
    totalVendas: nat,
    vendasAtivas: nat,
    totalCompra: int,
    totalVenda: int,
    lucroTotal: int,
    totalProdutos: int)

  /** The report. `inicio` and `fim` are the window's ends in milliseconds. */
  datatype RelatorioVendas = RelatorioVendas(
    resumo: Estatisticas,
    vendasPorPagamento: seq<Contagem>,
    vendasRecentes: nat,
    inicio: int,
    fim: int)

  /** Some active sale has no summary: reading its fields throws and the call answers 500. */
  predicate AtivaSemResumo(vendas: seq<Venda>) {
    exists i :: 0 <= i < |vendas| && EstaAtiva(vendas[i]) && vendas[i].resumo.None?
  }

  /** The 500 condition, read on the filtered list the handler folds over. */
  lemma SemResumoEntreAtivas(vendas: seq<Venda>)
    ensures AtivaSemResumo(vendas) <==>
      exists i :: 0 <= i < |Ativas(vendas)| && Ativas(vendas)[i].resumo.None?
  {
    var ativas := Ativas(vendas);
    FilterMembers(vendas, EstaAtiva);
    if AtivaSemResumo(vendas) {
      var i :| 0 <= i < |vendas| && EstaAtiva(vendas[i]) && vendas[i].resumo.None?;
      assert vendas[i] in ativas;
    }
    if exists i :: 0 <= i < |ativas| && ativas[i].resumo.None? {
      var i :| 0 <= i < |ativas| && ativas[i].resumo.None?;
      assert ativas[i] in vendas;
    }
  }

  /** The report computed with every missing summary field read as 0, which is what the
      `|| 0` fallbacks aim at; it is defined for every list of sales. */
  function GerarCorrigido(vendas: seq<Venda>, agora: int, instante: string -> Option<int>): (r: RelatorioVendas)
    ensures r.resumo.totalVendas == |vendas|
    ensures r.resumo.vendasAtivas == Count(vendas, EstaAtiva)
    ensures r.resumo.totalCompra == Sum(Ativas(vendas), CompraDoResumo)
    ensures r.resumo.totalVenda == Sum(Ativas(vendas), VendaDoResumo)
    ensures r.resumo.lucroTotal == Sum(Ativas(vendas), LucroDoResumo)
    ensures r.resumo.totalProdutos == Sum(Ativas(vendas), QuantidadeDoResumo)
    ensures ChavesDistintas(r.vendasPorPagamento)
    ensures ContagensPositivas(r.vendasPorPagamento)
    ensures Formas(r.vendasPorPagamento) == FormasUsadas(Ativas(vendas))
    ensures SomaContagens(r.vendasPorPagamento) == r.resumo.vendasAtivas
    ensures forall forma :: Quantas(r.vendasPorPagamento, forma) == Count(Ativas(vendas), MesmaForma(forma))
    ensures r.vendasRecentes == Count(Ativas(vendas), RecenteDesde(instante, agora - TrintaDiasMs))
    ensures r.vendasRecentes <= r.resumo.vendasAtivas
    ensures r.inicio == agora - TrintaDiasMs && r.fim == agora
  {
    var ativas := Ativas(vendas);
    CountIsFilterLength(vendas, EstaAtiva);
    var inicio := agora - TrintaDiasMs;
    var recentes := Filter(ativas, RecenteDesde(instante, inicio));
    CountIsFilterLength(ativas, RecenteDesde(instante, inicio));
    var e := Estatisticas(|vendas|, |ativas|,
      Sum(ativas, CompraDoResumo), Sum(ativas, VendaDoResumo), Sum(ativas, LucroDoResumo), Sum(ativas, QuantidadeDoResumo));
    RelatorioVendas(e, PorPagamento(ativas), |recentes|, inicio, agora)
  }

  /** The report as the handler computes it: reading `venda.resumo.totalCompra` throws when
      an active sale has no summary, and the call then answers 500 (`None`). */
  function Gerar(vendas: seq<Venda>, agora: int, instante: string -> Option<int>): (r: Option<RelatorioVendas>)
    ensures r.None? <==> AtivaSemResumo(vendas)
    ensures r.Some? ==> r.value == GerarCorrigido(vendas, agora, instante)
  {
    var ativas := Ativas(vendas);
    SemResumoEntreAtivas(vendas);
    if exists i :: 0 <= i < |ativas| && ativas[i].resumo.None? then None
    else Some(GerarCorrigido(vendas, agora, instante))
  }

  /** A sale whose stored summary is internally consistent: its profit is sale minus purchase. */
  predicate ResumoCoerente(v: Venda) {
    LucroDoResumo(v) == VendaDoResumo(v) - CompraDoResumo(v)
  }

  /** When every active sale carries a consistent summary, the report's profit is its total
      sale value minus its total purchase cost. */
  lemma LucroDoRelatorio(vendas: seq<Venda>, agora: int, instante: string -> Option<int>)
    requires forall i :: 0 <= i < |vendas| && EstaAtiva(vendas[i]) ==> ResumoCoerente(vendas[i])
    requires Gerar(vendas, agora, instante).Some?
    ensures var e := Gerar(vendas, agora, instante).value.resumo;
      e.lucroTotal == e.totalVenda - e.totalCompra
  {
    var ativas := Ativas(vendas);
    FilterMembers(vendas, EstaAtiva);
    forall i | 0 <= i < |ativas|
      ensures LucroDoResumo(ativas[i]) == VendaDoResumo(ativas[i]) - CompraDoResumo(ativas[i])
    {
      assert ativas[i] in vendas;
    }
    SumDifference(ativas, VendaDoResumo, CompraDoResumo, LucroDoResumo);
  }

  /** Appending an active sale to the list leaves the active sales before it in place. */
  lemma AtivasAposAcrescentar(vendas: seq<Venda>, v: Venda)
    requires EstaAtiva(v)
    ensures Ativas(vendas + [v]) == Ativas(vendas) + [v]
  {
    FilterConcat(vendas, [v], EstaAtiva);
    assert Filter([v], EstaAtiva) == [v];
  }

  /** Appending an active sale moves every figure of the corrected report by exactly that
      sale: one more sale and active sale, its totals added, one more recent sale when it is
      recent, its method counted once more. */
  lemma CorrigidoAposAcrescentar(vendas: seq<Venda>, v: Venda, agora: int, instante: string -> Option<int>)
    requires EstaAtiva(v)
    ensures var r := GerarCorrigido(vendas, agora, instante);
      var r' := GerarCorrigido(vendas + [v], agora, instante);
      && r'.resumo.totalVendas == r.resumo.totalVendas + 1
      && r'.resumo.vendasAtivas == r.resumo.vendasAtivas + 1
      && r'.resumo.totalCompra == r.resumo.totalCompra + CompraDoResumo(v)
      && r'.resumo.totalVenda == r.resumo.totalVenda + VendaDoResumo(v)
      && r'.resumo.lucroTotal == r.resumo.lucroTotal + LucroDoResumo(v)
      && r'.resumo.totalProdutos == r.resumo.totalProdutos + QuantidadeDoResumo(v)
      && r'.vendasRecentes
           == r.vendasRecentes + (if Recente(v, instante, agora - TrintaDiasMs) then 1 else 0)
      && forall forma :: Quantas(r'.vendasPorPagamento, forma)
           == Quantas(r.vendasPorPagamento, forma) + (if forma == v.formaPagamento then 1 else 0)
  {
    var ativas := Ativas(vendas);
    AtivasAposAcrescentar(vendas, v);
    var novas := ativas + [v];
    assert novas[..|ativas|] == ativas;
    assert PorPagamento(novas) == Incrementar(PorPagamento(ativas), v.formaPagamento);
    forall forma | true
      ensures Quantas(PorPagamento(novas), forma)
        == Quantas(PorPagamento(ativas), forma) + (if forma == v.formaPagamento then 1 else 0)
    {
      IncrementarQuantas(PorPagamento(ativas), v.formaPagamento, forma);
    }
  }

  /** Appending an active sale with a summary to a list the handler can report on keeps it
      reportable, and the report moves as `CorrigidoAposAcrescentar` says. */
  lemma GerarAposAcrescentar(vendas: seq<Venda>, v: Venda, agora: int, instante: string -> Option<int>)
    requires Gerar(vendas, agora, instante).Some?
    requires EstaAtiva(v) && v.resumo.Some?
    ensures Gerar(vendas + [v], agora, instante) == Some(GerarCorrigido(vendas + [v], agora, instante))
  {
    var w := vendas + [v];
    assert !AtivaSemResumo(vendas);
    assert !AtivaSemResumo(w) by {
      forall i | 0 <= i < |w| && EstaAtiva(w[i])
        ensures w[i].resumo.Some?
      {
        if i < |vendas| {
          assert w[i] == vendas[i];
        }
      }
    }
  }

  /** Two active sales with totals (10, 15) and (20, 25), one product each, report
      purchases 30, sales 40, profit 10 and two products. */
  lemma ExemploDoisResumos(a: Venda, b: Venda, agora: int, instante: string -> Option<int>)
    requires EstaAtiva(a) && EstaAtiva(b)
    requires a.resumo == Some(Resumo(Some(10), Some(15), Some(5), Some(1)))
    requires b.resumo == Some(Resumo(Some(20), Some(25), Some(5), Some(1)))
    ensures Gerar([a, b], agora, instante).Some?
    ensures var e := Gerar([a, b], agora, instante).value.resumo;
      e.totalCompra == 30 && e.totalVenda == 40 && e.lucroTotal == 10 && e.totalProdutos == 2
  {
    assert Filter([b], EstaAtiva) == [b];
    assert Ativas([a, b]) == [a, b];
    assert [a, b][..1] == [a];
    assert [a][..0] == [];
    assert CompraDoResumo(a) == 10 && VendaDoResumo(a) == 15 && LucroDoResumo(a) == 5 && QuantidadeDoResumo(a) == 1;
    assert CompraDoResumo(b) == 20 && VendaDoResumo(b) == 25 && LucroDoResumo(b) == 5 && QuantidadeDoResumo(b) == 1;
    forall f: Venda -> int
      ensures Sum([a, b], f) == f(a) + f(b)
    {
      assert Sum([a], f) == Sum([], f) + f(a);
      assert Sum([a, b], f) == Sum([a], f) + f(b);
    }
    assert Sum([a, b], CompraDoResumo) == 30;
    assert Sum([a, b], VendaDoResumo) == 40;
    assert Sum([a, b], LucroDoResumo) == 10;
    assert Sum([a, b], QuantidadeDoResumo) == 2;
    assert !AtivaSemResumo([a, b]);
  }
}
