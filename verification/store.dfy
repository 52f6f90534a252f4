/** The server's write path and lookups over the stored list of sales: validating a
    submitted sale, creating it in both stores, and finding, updating and deleting by id.
    Each call reads the whole list, changes it in memory and writes it back; whether a
    write succeeded is a parameter. */
module Store {
  import opened Wrappers
  import opened Seqs
  import opened Vendas

  /** A product the server accepts: a non-empty name and both prices present. A price of 0
      passes, since only a missing price is refused. */
  predicate ProdutoCompleto(p: Produto) {
    p.nome != "" && p.precoCompra.Some? && p.precoVenda.Some?
  }

  /** The loop over the products, stopping at the first incomplete one. */
  function TodosCompletos(ps: seq<Produto>): (ok: bool)
    ensures ok <==> forall i :: 0 <= i < |ps| ==> ProdutoCompleto(ps[i])
  {
    if |ps| == 0 then true
    else if !ProdutoCompleto(ps[0]) then false
    else
      assert forall i :: 1 <= i < |ps| ==> ps[i] == ps[1..][i - 1];
      TodosCompletos(ps[1..])
  }

  /** The verdict of create-request validation: accepted, or one of the two 400 answers. */
  datatype Veredito = Aceita | Incompleta | ProdutoInvalido

  /** The header fields are all present and the product list is non-empty. */
  predicate CabecalhoCompleto(s: Submissao) {
    s.dataVenda != "" && s.formaPagamento != "" && s.produtos.Some? && |s.produtos.value| > 0
  }

  /** Validation of a create request: header fields first, then every product. */
  function Validar(s: Submissao): (v: Veredito)
    ensures v == Incompleta <==> !CabecalhoCompleto(s)
    ensures v == ProdutoInvalido <==>
      CabecalhoCompleto(s) && exists i :: 0 <= i < |s.produtos.value| && !ProdutoCompleto(s.produtos.value[i])
    ensures v == Aceita <==>
      CabecalhoCompleto(s) && forall i :: 0 <= i < |s.produtos.value| ==> ProdutoCompleto(s.produtos.value[i])
  {
    if !CabecalhoCompleto(s) then Incompleta
    else if !TodosCompletos(s.produtos.value) then ProdutoInvalido
    else Aceita
  }

  /** The record a valid submission becomes: the id and timestamp come from the clock,
      everything else is copied from the request, and the status is "ativa". */
  function NovaVenda(s: Submissao, id: string, agora: string): (v: Venda)
    requires s.produtos.Some?
  {
    Venda(id, s.dataVenda, s.formaPagamento, s.produtos.value, s.resumo, agora, Ativa, None)
  }

  /** The rows mirrored for a sale: one per product, each tagged with the sale's id and date. */
  function LinhasEspelho(v: Venda): (r: seq<LinhaEspelho>)
    ensures |r| == |v.produtos|
    ensures forall i :: 0 <= i < |r| ==>
      && r[i].id == v.id
      && r[i].created_at == v.dataVenda
      && r[i].name == v.produtos[i].nome
      && r[i].sale_price == v.produtos[i].precoVenda
      && r[i].purchase_price == v.produtos[i].precoCompra
  {
    seq(|v.produtos|, i requires 0 <= i < |v.produtos| =>
      LinhaEspelho(v.produtos[i].nome, v.produtos[i].precoVenda, v.produtos[i].precoCompra, v.dataVenda, v.id))
  }

  /** Creating a sale. An invalid request touches nothing. A valid one appends the new record
      to the list, which persists if the file write succeeds; the mirror rows are then written
      whatever the file write did; success is reported only when both writes succeed. */
  function Criar(l: Lojas, s: Submissao, id: string, agora: string,
                 gravouArquivo: bool, gravouEspelho: bool): (p: Passo)
    ensures Validar(s) != Aceita ==> p == Passo(l, Invalida)
    ensures Validar(s) == Aceita ==>
      && (p.resposta.Criada? <==> gravouArquivo && gravouEspelho)
      && (p.resposta.Falhou? <==> !(gravouArquivo && gravouEspelho))
      && (gravouArquivo ==>
            && |p.lojas.vendas| == |l.vendas| + 1
            && p.lojas.vendas[..|l.vendas|] == l.vendas
            && var v := p.lojas.vendas[|l.vendas|];
               && v.id == id
               && v.dataVenda == s.dataVenda
               && v.formaPagamento == s.formaPagamento
               && v.produtos == s.produtos.value
               && v.resumo == s.resumo
               && v.timestamp == agora
               && v.status == Ativa
               && v.updatedAt == None
               && (p.resposta.Criada? ==> p.resposta.venda == v))
      && (!gravouArquivo ==> p.lojas.vendas == l.vendas)
      && (gravouEspelho ==> p.lojas.espelho == l.espelho + LinhasEspelho(NovaVenda(s, id, agora)))
      && (!gravouEspelho ==> p.lojas.espelho == l.espelho)
  {
    if Validar(s) != Aceita then Passo(l, Invalida)
    else
      var v := NovaVenda(s, id, agora);
      var vendas := if gravouArquivo then l.vendas + [v] else l.vendas;
      var espelho := if gravouEspelho then l.espelho + LinhasEspelho(v) else l.espelho;
      Passo(Lojas(vendas, espelho), if gravouArquivo && gravouEspelho then Criada(v) else Falhou)
  }

  /** `Array.prototype.findIndex` on the id: the first position holding that id. */
  function IndiceDe(vendas: seq<Venda>, id: string): (r: Option<nat>)
    ensures r.Some? ==>
      && r.value < |vendas|
      && vendas[r.value].id == id
      && forall j :: 0 <= j < r.value ==> vendas[j].id != id
    ensures r.None? <==> forall j :: 0 <= j < |vendas| ==> vendas[j].id != id
  {
    if |vendas| == 0 then None
    else if vendas[0].id == id then Some(0)
    else
      match IndiceDe(vendas[1..], id)
      case None => None
      case Some(k) => Some(k + 1)
  }

  /** Fetching a sale by id (`Array.prototype.find`): the first record with that id. */
  function Buscar(vendas: seq<Venda>, id: string): (r: Resposta)
    ensures r.NaoEncontrada? || r.Ok?
    ensures r.NaoEncontrada? <==> forall j :: 0 <= j < |vendas| ==> vendas[j].id != id
    ensures r.Ok? ==> r.venda.id == id && exists j :: 0 <= j < |vendas| && vendas[j] == r.venda
    ensures r.Ok? ==>
      exists j :: 0 <= j < |vendas| && vendas[j] == r.venda && forall k :: 0 <= k < j ==> vendas[k].id != id
  {
    match IndiceDe(vendas, id)
    case None => NaoEncontrada
    case Some(i) => Ok(vendas[i])
  }

  /** The merge `{...stored, ...body, id: stored.id, updatedAt: now}`: a field present in the
      body wins, except that the id is always the stored one and `updatedAt` is always now.
      The body may replace `timestamp` and `status`. */
  function Mesclar(v: Venda, a: Alteracao, agora: string): (r: Venda)
    ensures r.id == v.id
    ensures r.updatedAt == Some(agora)
    ensures r.dataVenda == a.dataVenda.GetOr(v.dataVenda)
    ensures r.formaPagamento == a.formaPagamento.GetOr(v.formaPagamento)
    ensures r.produtos == a.produtos.GetOr(v.produtos)
    ensures r.resumo == (if a.resumo.Some? then a.resumo else v.resumo)
    ensures r.timestamp == a.timestamp.GetOr(v.timestamp)
    ensures r.status == a.status.GetOr(v.status)
  {
    Venda(
      v.id,
      a.dataVenda.GetOr(v.dataVenda),
      a.formaPagamento.GetOr(v.formaPagamento),
      a.produtos.GetOr(v.produtos),
      if a.resumo.Some? then a.resumo else v.resumo,
      a.timestamp.GetOr(v.timestamp),
      a.status.GetOr(v.status),
      Some(agora))
  }

  /** Updating a sale by id: the first record with that id is replaced by the merge; the
      list is only changed when the file write succeeds. */
  function Atualizar(l: Lojas, id: string, a: Alteracao, agora: string, gravou: bool): (p: Passo)
    ensures p.lojas.espelho == l.espelho
    ensures IndiceDe(l.vendas, id).None? ==> p == Passo(l, NaoEncontrada)
    ensures IndiceDe(l.vendas, id).Some? && !gravou ==> p == Passo(l, Falhou)
    ensures IndiceDe(l.vendas, id).Some? && gravou ==>
      var i := IndiceDe(l.vendas, id).value;
      && |p.lojas.vendas| == |l.vendas|
      && p.lojas.vendas[i] == Mesclar(l.vendas[i], a, agora)
      && (forall j :: 0 <= j < |l.vendas| && j != i ==> p.lojas.vendas[j] == l.vendas[j])
      && p.resposta == Ok(p.lojas.vendas[i])
  {
    match IndiceDe(l.vendas, id)
    case None => Passo(l, NaoEncontrada)
    case Some(i) =>
      if !gravou then Passo(l, Falhou)
      else
        var nova := Mesclar(l.vendas[i], a, agora);
        Passo(Lojas(l.vendas[i := nova], l.espelho), Ok(nova))
  }

  /** Deleting a sale by id: `splice` removes the first record with that id and the call
      answers with it; the list is only changed when the file write succeeds. */
  function Remover(l: Lojas, id: string, gravou: bool): (p: Passo)
    ensures p.lojas.espelho == l.espelho
    ensures IndiceDe(l.vendas, id).None? ==> p == Passo(l, NaoEncontrada)
    ensures IndiceDe(l.vendas, id).Some? && !gravou ==> p == Passo(l, Falhou)
    ensures IndiceDe(l.vendas, id).Some? && gravou ==>
      var i := IndiceDe(l.vendas, id).value;
      && |p.lojas.vendas| == |l.vendas| - 1
      && p.lojas.vendas[..i] == l.vendas[..i]
      && p.lojas.vendas[i..] == l.vendas[i + 1..]
      && p.resposta == Ok(l.vendas[i])
      && p.resposta.venda.id == id
  {
    match IndiceDe(l.vendas, id)
    case None => Passo(l, NaoEncontrada)
    case Some(i) =>
      if !gravou then Passo(l, Falhou)
      else Passo(Lojas(l.vendas[..i] + l.vendas[i + 1..], l.espelho), Ok(l.vendas[i]))
  }

  /** `findIndex` on a list with one record appended: an earlier match still wins. */
  lemma IndiceDeAppend(vendas: seq<Venda>, v: Venda, id: string)
    ensures IndiceDe(vendas + [v], id) ==
      if IndiceDe(vendas, id).Some? then IndiceDe(vendas, id)
      else if v.id == id then Some(|vendas|)
      else None
  {
    var w := vendas + [v];
    assert forall j :: 0 <= j < |vendas| ==> w[j] == vendas[j];
    assert w[|vendas|] == v;
  }

  /** Round trip: after a successful create with a fresh id, fetching that id returns
      the new record. */
  lemma CriarDepoisBuscar(l: Lojas, s: Submissao, id: string, agora: string, gravouEspelho: bool)
    requires Validar(s) == Aceita
    requires forall j :: 0 <= j < |l.vendas| ==> l.vendas[j].id != id
    ensures Buscar(Criar(l, s, id, agora, true, gravouEspelho).lojas.vendas, id) == Ok(NovaVenda(s, id, agora))
  {
    IndiceDeAppend(l.vendas, NovaVenda(s, id, agora), id);
  }

  /** When the clock-derived id is already taken, the new record is stored but fetching,
      updating and deleting by that id keep reaching the older record. */
  lemma CriarIdRepetido(l: Lojas, s: Submissao, id: string, agora: string, gravouEspelho: bool)
    requires Validar(s) == Aceita
    requires IndiceDe(l.vendas, id).Some?
    ensures var depois := Criar(l, s, id, agora, true, gravouEspelho).lojas.vendas;
      && depois[|l.vendas|] == NovaVenda(s, id, agora)
      && IndiceDe(depois, id) == IndiceDe(l.vendas, id)
      && Buscar(depois, id) == Ok(l.vendas[IndiceDe(l.vendas, id).value])
  {
    IndiceDeAppend(l.vendas, NovaVenda(s, id, agora), id);
  }

  /** An update keeps every id in place, so the list's ids are exactly as before. */
  lemma AtualizarPreservaIds(l: Lojas, id: string, a: Alteracao, agora: string, gravou: bool)
    ensures var depois := Atualizar(l, id, a, agora, gravou).lojas.vendas;
      && |depois| == |l.vendas|
      && forall j :: 0 <= j < |depois| ==> depois[j].id == l.vendas[j].id
  {
  }

  /** Round trip: after a successful update, fetching the id returns the merged record. */
  lemma AtualizarDepoisBuscar(l: Lojas, id: string, a: Alteracao, agora: string)
    requires IndiceDe(l.vendas, id).Some?
    ensures var i := IndiceDe(l.vendas, id).value;
      Buscar(Atualizar(l, id, a, agora, true).lojas.vendas, id) == Ok(Mesclar(l.vendas[i], a, agora))
  {
    var i := IndiceDe(l.vendas, id).value;
    var depois := Atualizar(l, id, a, agora, true).lojas.vendas;
    assert depois[i].id == id;
    assert forall j :: 0 <= j < i ==> depois[j] == l.vendas[j];
  }

  /** A delete takes out exactly the record it answers with: what remains is a subsequence
      of the old list, and adding the removed record back gives the old multiset. */
  lemma RemoverTiraUm(l: Lojas, id: string)
    requires IndiceDe(l.vendas, id).Some?
    ensures var p := Remover(l, id, true);
      && IsSubseq(p.lojas.vendas, l.vendas)
      && multiset(p.lojas.vendas) + multiset{p.resposta.venda} == multiset(l.vendas)
  {
    var i := IndiceDe(l.vendas, id).value;
    DropOneIsSubseq(l.vendas, i);
    var s := l.vendas;
    assert s == s[..i] + [s[i]] + s[i + 1..];
  }

  /** When ids are unique, a deleted id can no longer be found. */
  lemma RemoverDepoisBuscar(l: Lojas, id: string)
    requires IndiceDe(l.vendas, id).Some?
    requires forall j, k :: 0 <= j < k < |l.vendas| ==> l.vendas[j].id != l.vendas[k].id
    ensures Buscar(Remover(l, id, true).lojas.vendas, id) == NaoEncontrada
  {
    var i := IndiceDe(l.vendas, id).value;
    var depois := Remover(l, id, true).lojas.vendas;
    forall j | 0 <= j < |depois|
      ensures depois[j].id != id
    {
      if j < i {
        assert depois[j] == depois[..i][j];
      } else {
        assert depois[j] == depois[i..][j - i] == l.vendas[j + 1];
      }
    }
  }

  /** The merge the comment beside it describes: the stored id and the stored `timestamp`
      are both kept, and every other field present in the body wins. */
  function MesclarCorrigido(v: Venda, a: Alteracao, agora: string): (r: Venda)
    ensures r.id == v.id
    ensures r.timestamp == v.timestamp
    ensures r.updatedAt == Some(agora)
    ensures r.dataVenda == a.dataVenda.GetOr(v.dataVenda)
    ensures r.formaPagamento == a.formaPagamento.GetOr(v.formaPagamento)
    ensures r.produtos == a.produtos.GetOr(v.produtos)
    ensures r.status == a.status.GetOr(v.status)
    ensures r.resumo == (if a.resumo.Some? then a.resumo else v.resumo)
  {
    Mesclar(v, a.(timestamp := None), agora)
  }

  /** The merge as written lets the request body replace the stored `timestamp`, although
      the comment above it says the original one is kept. */
  lemma MesclarSobrescreveTimestamp(v: Venda, agora: string)
    requires v.timestamp != "2000-01-01T00:00:00.000Z"
    ensures var a := Alteracao(None, None, None, None, None, Some("2000-01-01T00:00:00.000Z"), None, None);
      Mesclar(v, a, agora).timestamp != v.timestamp
      && MesclarCorrigido(v, a, agora).timestamp == v.timestamp
  {
  }
}
