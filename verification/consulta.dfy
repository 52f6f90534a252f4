/** Listing sales: optional exact-date and payment-method filters, then an optional limit. */
module Consulta {
  import opened Text
  import opened Seqs
  import opened Vendas

  /** The `limite` query parameter after `parseInt`: absent or empty (no truncation),
      a number, or something `parseInt` turns into NaN. */
  datatype Limite = SemLimite | Numero(n: int) | NaoNumero

  /** The query of a list request. An empty `data` or `formaPagamento` means no filter. */
  datatype Filtros = Filtros(data: string, formaPagamento: string, limite: Limite)

  /** The list response: the sales and their count. */
  datatype Listagem = Listagem(vendas: seq<Venda>, total: nat)

  /** The payment-method filter: a case-insensitive substring match. */
  predicate CombinaForma(v: Venda, consulta: string) {
    Includes(ToLower(v.formaPagamento), ToLower(consulta))
  }

  /** A sale passes both filters of `f`. */
  predicate Passa(v: Venda, f: Filtros) {
    && (f.data != "" ==> v.dataVenda == f.data)
    && (f.formaPagamento != "" ==> CombinaForma(v, f.formaPagamento))
  }

  /** `Passa` for fixed filters, as a test for `Filter`. */
  function PassaFiltros(f: Filtros): Venda -> bool {
    (v: Venda) => Passa(v, f)
  }

  /** The list after the date filter and then the payment-method filter. Together the two
      passes keep exactly what one pass testing both filters keeps, in the same order and
      with the same repetitions. */
  function Filtradas(vendas: seq<Venda>, f: Filtros): (r: seq<Venda>)
    ensures r == Filter(vendas, PassaFiltros(f))
    ensures |r| == Count(vendas, PassaFiltros(f))
    ensures IsSubseq(r, vendas)
    ensures forall i :: 0 <= i < |r| ==> Passa(r[i], f)
    ensures forall v :: v in vendas ==> (v in r <==> Passa(v, f))
  {
    var porData := if f.data != "" then Filter(vendas, (v: Venda) => v.dataVenda == f.data) else vendas;
    var porForma := if f.formaPagamento != "" then Filter(porData, (v: Venda) => CombinaForma(v, f.formaPagamento)) else porData;
    PrefixIsSubseq(vendas, vendas);
    PrefixIsSubseq(porData, porData);
    SubseqMembers(porForma, porData);
    SubseqMembers(porData, vendas);
    SubseqTrans(porForma, porData, vendas);
    assert porForma == Filter(vendas, PassaFiltros(f)) by {
      var pd := (v: Venda) => v.dataVenda == f.data;
      var pf := (v: Venda) => CombinaForma(v, f.formaPagamento);
      if f.data != "" && f.formaPagamento != "" {
        FilterFilter(vendas, pd, pf, PassaFiltros(f));
      } else if f.data != "" {
        FilterCongruent(vendas, pd, PassaFiltros(f));
      } else if f.formaPagamento != "" {
        FilterCongruent(vendas, pf, PassaFiltros(f));
      } else {
        FilterKeepsAll(vendas, PassaFiltros(f));
      }
    }
    CountIsFilterLength(vendas, PassaFiltros(f));
    porForma
  }

  /** The list endpoint: filter, then `slice(0, parseInt(limite))`; `total` is the length returned. */
  function Listar(vendas: seq<Venda>, f: Filtros): (r: Listagem)
    ensures r.total == |r.vendas|
    ensures r.vendas <= Filtradas(vendas, f)
    ensures IsSubseq(r.vendas, vendas)
    ensures forall i :: 0 <= i < |r.vendas| ==> Passa(r.vendas[i], f)
    ensures f.limite.SemLimite? ==> r.vendas == Filtradas(vendas, f)
    ensures f.limite.NaoNumero? ==> r.vendas == []
    ensures f.limite.Numero? && f.limite.n >= 0 ==>
      |r.vendas| == if f.limite.n < |Filtradas(vendas, f)| then f.limite.n else |Filtradas(vendas, f)|
    ensures f.limite.Numero? && f.limite.n < 0 ==>
      |r.vendas| == if |Filtradas(vendas, f)| + f.limite.n < 0 then 0 else |Filtradas(vendas, f)| + f.limite.n
  {
    var filtradas := Filtradas(vendas, f);
    var resultado :=
      match f.limite
      case SemLimite => filtradas
      case Numero(n) => SliceTo(filtradas, n)
      case NaoNumero => SliceTo(filtradas, 0);
    PrefixIsSubseq(resultado, filtradas);
    SubseqTrans(resultado, filtradas, vendas);
    Listagem(resultado, |resultado|)
  }

  /** Without a limit, the listing holds exactly the stored sales that pass the filters. */
  lemma ListarCompleto(vendas: seq<Venda>, f: Filtros)
    requires f.limite.SemLimite?
    ensures forall v :: v in Listar(vendas, f).vendas <==> v in vendas && Passa(v, f)
  {
    SubseqMembers(Listar(vendas, f).vendas, vendas);
  }

  /** A method filter of "pix" finds a sale stored with "Pix". */
  lemma PixCombinaComPix(v: Venda)
    requires v.formaPagamento == "Pix"
    ensures CombinaForma(v, "pix")
  {
    assert ToLower("Pix") == "pix";
    assert ToLower("pix") == "pix";
  }
}
