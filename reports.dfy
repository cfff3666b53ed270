/**
 * The read-side aggregates of `EmprestimoService`: dashboard indicators,
 * the financial summary, the current-month summary and the list of upcoming
 * due installments. Each is a query over the store; SQL's `SUM` over no rows
 * is NULL and the service turns it into 0, which the sums below give
 * directly.
 */
module EmprestimoReports {
  import opened Wrappers
  import opened Seqs
  import opened Models
  import opened Database
  import opened EmprestimoService

  /** Sum of `valor` over the installments satisfying `c`. */
  function SomaSe(ps: seq<Parcela>, c: Parcela -> bool): real {
    if ps == [] then 0.0
    else (if c(ps[0]) then ps[0].valor else 0.0) + SomaSe(ps[1..], c)
  }

  /** Number of installments satisfying `c`. */
  function ContaSe(ps: seq<Parcela>, c: Parcela -> bool): (r: nat)
    ensures r <= |ps|
  {
    if ps == [] then 0
    else (if c(ps[0]) then 1 else 0) + ContaSe(ps[1..], c)
  }

  /** Sum of `valor` over the loans. */
  function SomaEmprestimos(es: seq<Emprestimo>): real {
    if es == [] then 0.0 else es[0].valor + SomaEmprestimos(es[1..])
  }

  function Quitada(p: Parcela): bool { p.pago }
  function EmAberto(p: Parcela): bool { !p.pago }
  function Qualquer(p: Parcela): bool { true }

  /** Unpaid and due strictly before `hoje`. */
  function Atrasada(hoje: int): Parcela -> bool {
    (p: Parcela) => !p.pago && p.dataVencimento < hoje
  }

  // ---------------------------------------------------------------------
  // Sum bookkeeping.

  /** Splitting installments by a condition splits their total. */
  lemma {:induction false} SomaSeParticao(ps: seq<Parcela>, c: Parcela -> bool, d: Parcela -> bool)
    requires forall p: Parcela :: c(p) != d(p)
    ensures SomaSe(ps, c) + SomaSe(ps, d) == SomaSe(ps, Qualquer)
  {
    if ps != [] {
      SomaSeParticao(ps[1..], c, d);
      assert c(ps[0]) != d(ps[0]);
    }
  }

  /** Rewriting one row changes a conditional sum by that row's contribution only. */
  lemma {:induction false} SomaSeAtualizar(ps: seq<Parcela>, k: nat, p: Parcela, c: Parcela -> bool)
    requires k < |ps|
    ensures SomaSe(ps[k := p], c)
            == SomaSe(ps, c) - (if c(ps[k]) then ps[k].valor else 0.0) + (if c(p) then p.valor else 0.0)
  {
    if k == 0 {
      assert ps[k := p][1..] == ps[1..];
    } else {
      assert ps[k := p][1..] == ps[1..][k - 1 := p];
      SomaSeAtualizar(ps[1..], k - 1, p, c);
    }
  }

  /** A conditional count is at most a weaker condition's count. */
  lemma {:induction false} ContaSeMonotono(ps: seq<Parcela>, c: Parcela -> bool, d: Parcela -> bool)
    requires forall p: Parcela :: c(p) ==> d(p)
    ensures ContaSe(ps, c) <= ContaSe(ps, d)
  {
    if ps != [] {
      ContaSeMonotono(ps[1..], c, d);
      assert c(ps[0]) ==> d(ps[0]);
    }
  }

  lemma {:induction false} ContaSeZero(ps: seq<Parcela>, c: Parcela -> bool)
    ensures ContaSe(ps, c) == 0 <==> forall i :: 0 <= i < |ps| ==> !c(ps[i])
  {
    if ps != [] {
      ContaSeZero(ps[1..], c);
      assert forall i :: 1 <= i < |ps| ==> ps[i] == ps[1..][i - 1];
    }
  }

  // ---------------------------------------------------------------------
  // get_dashboard_indicators

  datatype Indicadores = Indicadores(
    emprestimosAtivos: nat, valorTotalEmprestado: real, parcelasAtrasadas: nat, aReceber: real)

  /** The loan has at least one unpaid installment (the inner join with `pago = False`). */
  function Ativo(ps: seq<Parcela>): Emprestimo -> bool {
    (e: Emprestimo) => exists i :: 0 <= i < |ps| && ps[i].emprestimoId == e.id && !ps[i].pago
  }

  /**
   * `COUNT(DISTINCT emprestimo.id)` over the join with unpaid installments:
   * loan keys are unique, so it is the number of loans with an unpaid one.
   */
  function EmprestimosAtivos(s: Store): nat {
    |Filter(s.emprestimos, Ativo(s.parcelas))|
  }

  function DashboardIndicators(s: Store, hoje: int): Indicadores {
    Indicadores(EmprestimosAtivos(s), SomaEmprestimos(s.emprestimos),
                ContaSe(s.parcelas, Atrasada(hoje)), SomaSe(s.parcelas, EmAberto))
  }

  /**
   * The indicators: active loans are at most all loans and are none exactly
   * when every installment is paid; late installments are among the unpaid
   * ones; what is still to receive is the total of installments minus what
   * has been paid.
   */
  lemma DashboardCorreto(s: Store, hoje: int)
    requires Valido(s)
    ensures var r := DashboardIndicators(s, hoje);
      r.emprestimosAtivos <= |s.emprestimos| &&
      (r.emprestimosAtivos == 0 <==> forall i :: 0 <= i < |s.parcelas| ==> s.parcelas[i].pago) &&
      r.parcelasAtrasadas <= ContaSe(s.parcelas, EmAberto) &&
      (r.parcelasAtrasadas == 0 <==>
         forall i :: 0 <= i < |s.parcelas| ==> s.parcelas[i].pago || s.parcelas[i].dataVencimento >= hoje) &&
      r.aReceber == SomaSe(s.parcelas, Qualquer) - SomaSe(s.parcelas, Quitada)
  {
    var ativos := Filter(s.emprestimos, Ativo(s.parcelas));
    forall i | 0 <= i < |s.parcelas| && !s.parcelas[i].pago ensures ativos != [] {
      assert EmprestimoExiste(s.emprestimos, s.parcelas[i].emprestimoId);
      var j :| 0 <= j < |s.emprestimos| && s.emprestimos[j].id == s.parcelas[i].emprestimoId;
      assert Ativo(s.parcelas)(s.emprestimos[j]);
      assert s.emprestimos[j] in ativos;
    }
    if ativos != [] {
      assert ativos[0] in s.emprestimos && Ativo(s.parcelas)(ativos[0]);
    }
    ContaSeMonotono(s.parcelas, Atrasada(hoje), EmAberto);
    ContaSeZero(s.parcelas, Atrasada(hoje));
    SomaSeParticao(s.parcelas, Quitada, EmAberto);
  }

  // ---------------------------------------------------------------------
  // get_financial_summary

  datatype ResumoFinanceiro = ResumoFinanceiro(
    totalEmprestado: real, totalRecebido: real, totalAReceber: real, jurosFuturos: real)

  /**
   * `valor / numero_parcelas` of every loan with primary key `eid` (the
   * inner join); a zero divisor is NULL in SQL and adds nothing to the sum.
   */
  function Cota(es: seq<Emprestimo>, eid: int): real {
    if es == [] then 0.0
    else (if es[0].id == eid && es[0].numeroParcelas != 0
          then es[0].valor / es[0].numeroParcelas as real else 0.0) + Cota(es[1..], eid)
  }

  /** The principal share summed once per joined unpaid installment. */
  function PrincipalAReceber(es: seq<Emprestimo>, ps: seq<Parcela>): real {
    if ps == [] then 0.0
    else (if !ps[0].pago then Cota(es, ps[0].emprestimoId) else 0.0) + PrincipalAReceber(es, ps[1..])
  }

  function Max(a: real, b: real): (r: real)
    ensures r >= a && r >= b && (r == a || r == b)
  {
    if a >= b then a else b
  }

  function FinancialSummary(s: Store): ResumoFinanceiro {
    var aReceber := SomaSe(s.parcelas, EmAberto);
    ResumoFinanceiro(SomaEmprestimos(s.emprestimos), SomaSe(s.parcelas, Quitada), aReceber,
                     Max(aReceber - PrincipalAReceber(s.emprestimos, s.parcelas), 0.0))
  }

  /**
   * Received plus outstanding is the total of every installment; the future
   * interest is never negative, and is exactly outstanding minus the
   * outstanding principal share whenever that difference is not negative.
   */
  lemma ResumoFinanceiroCorreto(s: Store)
    ensures var r := FinancialSummary(s);
      r.totalRecebido + r.totalAReceber == SomaSe(s.parcelas, Qualquer) &&
      r.jurosFuturos >= 0.0 &&
      r.jurosFuturos >= r.totalAReceber - PrincipalAReceber(s.emprestimos, s.parcelas) &&
      (r.totalAReceber - PrincipalAReceber(s.emprestimos, s.parcelas) >= 0.0 ==>
         r.jurosFuturos == r.totalAReceber - PrincipalAReceber(s.emprestimos, s.parcelas)) &&
      (r.totalAReceber - PrincipalAReceber(s.emprestimos, s.parcelas) < 0.0 ==> r.jurosFuturos == 0.0)
  {
    SomaSeParticao(s.parcelas, Quitada, EmAberto);
  }

  /** With every installment paid there is nothing left to receive and no future interest. */
  lemma {:induction false} TudoPagoSemJuros(s: Store)
    requires forall i :: 0 <= i < |s.parcelas| ==> s.parcelas[i].pago
    ensures FinancialSummary(s).totalAReceber == 0.0 && FinancialSummary(s).jurosFuturos == 0.0
  {
    TudoPagoZero(s.emprestimos, s.parcelas);
  }

  lemma {:induction false} TudoPagoZero(es: seq<Emprestimo>, ps: seq<Parcela>)
    requires forall i :: 0 <= i < |ps| ==> ps[i].pago
    ensures SomaSe(ps, EmAberto) == 0.0 && PrincipalAReceber(es, ps) == 0.0
  {
    if ps != [] {
      TudoPagoZero(es, ps[1..]);
    }
  }

  // ---------------------------------------------------------------------
  // get_monthly_payment_summary. `mes` maps a day ordinal to its year and
  // month, standing for `strftime('%Y-%m', ...)`.

  datatype ResumoMensal = ResumoMensal(pagoMes: real, pendenteMes: real)

  function PagaNoMes(mes: int -> int, m: int): Parcela -> bool {
    (p: Parcela) => p.pago && p.dataPagamento.Some? && mes(p.dataPagamento.value) == m
  }

  function PendenteNoMes(mes: int -> int, m: int): Parcela -> bool {
    (p: Parcela) => !p.pago && mes(p.dataVencimento) == m
  }

  function MonthlyPaymentSummary(s: Store, hoje: int, mes: int -> int): ResumoMensal {
    ResumoMensal(SomaSe(s.parcelas, PagaNoMes(mes, mes(hoje))),
                 SomaSe(s.parcelas, PendenteNoMes(mes, mes(hoje))))
  }

  /**
   * Registering a payment today moves that installment's value into this
   * month's paid total, and out of this month's pending total when it was
   * due this month; what remains to be received drops by the same value.
   */
  lemma PagamentoNoResumoMensal(s: Store, pid: int, hoje: int, mes: int -> int)
    requires Valido(s) && ParcelaPaga(s, pid, hoje).Some?
    ensures var (v, s') := (ParcelaPaga(s, pid, hoje).value, Pagamento(s, pid, hoje));
      var (antes, depois) := (MonthlyPaymentSummary(s, hoje, mes), MonthlyPaymentSummary(s', hoje, mes));
      depois.pagoMes == antes.pagoMes + v.valor &&
      depois.pendenteMes == antes.pendenteMes - (if mes(v.dataVencimento) == mes(hoje) then v.valor else 0.0) &&
      FinancialSummary(s').totalAReceber == FinancialSummary(s).totalAReceber - v.valor &&
      FinancialSummary(s').totalRecebido == FinancialSummary(s).totalRecebido + v.valor
  {
    var k := Localizar(s.parcelas, IdParcela, pid).value;
    var p := Paga(s.parcelas[k], hoje);
    assert Pagamento(s, pid, hoje).parcelas == s.parcelas[k := p];
    SomaSeAtualizar(s.parcelas, k, p, PagaNoMes(mes, mes(hoje)));
    SomaSeAtualizar(s.parcelas, k, p, PendenteNoMes(mes, mes(hoje)));
    SomaSeAtualizar(s.parcelas, k, p, EmAberto);
    SomaSeAtualizar(s.parcelas, k, p, Quitada);
  }

  // ---------------------------------------------------------------------
  // get_proximos_vencimentos_detalhados

  datatype Vencimento = Vencimento(
    clienteNome: string, emprestimoId: int, parcelaNumero: int, dataVencimento: int)

  function Elegivel(hoje: int): Parcela -> bool {
    (p: Parcela) => !p.pago && p.dataVencimento >= hoje
  }

  /** The inner join installment ⋈ loan ⋈ client, one row per installment whose loan and client exist. */
  function Juntar(s: Store, ps: seq<Parcela>): (r: seq<Vencimento>)
    ensures |r| <= |ps|
  {
    if ps == [] then []
    else
      var linha :=
        match Localizar(s.emprestimos, IdEmprestimo, ps[0].emprestimoId)
        case None => []
        case Some(i) =>
          match Localizar(s.clientes, IdCliente, s.emprestimos[i].clienteId)
          case None => []
          case Some(j) => [Vencimento(s.clientes[j].nome, ps[0].emprestimoId, ps[0].numero, ps[0].dataVencimento)];
      linha + Juntar(s, ps[1..])
  }

  function PorVencimento(a: Vencimento, b: Vencimento): bool { a.dataVencimento <= b.dataVencimento }

  /** The rows the query can return, before ordering and limiting. */
  function Candidatos(s: Store, hoje: int): seq<Vencimento> {
    Juntar(s, Filter(s.parcelas, Elegivel(hoje)))
  }

  /** A negative `limit` is no limit in SQL. */
  function ProximosVencimentos(s: Store, hoje: int, limit: int): seq<Vencimento> {
    Page(SortBy(Candidatos(s, hoje), PorVencimento), None, if limit >= 0 then Some(limit as nat) else None)
  }

  /** Every joined row comes from an installment of `ps`, with its loan and number and due date. */
  lemma {:induction false} JuntarOrigem(s: Store, ps: seq<Parcela>, x: Vencimento)
    requires x in Juntar(s, ps)
    ensures exists i :: 0 <= i < |ps| && ps[i].emprestimoId == x.emprestimoId &&
                        ps[i].numero == x.parcelaNumero && ps[i].dataVencimento == x.dataVencimento
  {
    if ps != [] {
      var linha := Juntar(s, ps[..1]);
      assert Juntar(s, ps) == Juntar(s, [ps[0]]) + Juntar(s, ps[1..]) by {
        assert [ps[0]][1..] == [];
      }
      if x !in Juntar(s, [ps[0]]) {
        JuntarOrigem(s, ps[1..], x);
        var i :| 0 <= i < |ps[1..]| && ps[1..][i].emprestimoId == x.emprestimoId &&
                 ps[1..][i].numero == x.parcelaNumero && ps[1..][i].dataVencimento == x.dataVencimento;
        assert ps[i + 1] == ps[1..][i];
      } else {
        assert ps[0].emprestimoId == x.emprestimoId;
      }
    }
  }

  /** The join of a non-empty run is the join of its first installment followed by the join of the rest. */
  lemma {:induction false} JuntarCabeca(s: Store, ps: seq<Parcela>)
    requires ps != []
    ensures Juntar(s, ps) == Juntar(s, [ps[0]]) + Juntar(s, ps[1..])
  {
    assert [ps[0]][1..] == [];
  }

  /** With valid references a single installment yields its row, carrying its client's name. */
  lemma JuntarUma(s: Store, p: Parcela)
    requires ReferenciasValidas(s) && EmprestimoExiste(s.emprestimos, p.emprestimoId)
    ensures exists x :: x in Juntar(s, [p]) && x.emprestimoId == p.emprestimoId &&
                        x.parcelaNumero == p.numero && x.dataVencimento == p.dataVencimento
  {
    var k := Localizar(s.emprestimos, IdEmprestimo, p.emprestimoId).value;
    assert ClienteExiste(s.clientes, s.emprestimos[k].clienteId);
    var j := Localizar(s.clientes, IdCliente, s.emprestimos[k].clienteId).value;
    var x := Vencimento(s.clientes[j].nome, p.emprestimoId, p.numero, p.dataVencimento);
    assert Juntar(s, [p]) == [x];
  }

  /** With valid references every installment yields a row carrying its client's name. */
  lemma {:induction false} JuntarCompleto(s: Store, ps: seq<Parcela>, i: nat)
    requires ReferenciasValidas(s) && i < |ps|
    requires EmprestimoExiste(s.emprestimos, ps[i].emprestimoId)
    ensures exists x :: x in Juntar(s, ps) && x.emprestimoId == ps[i].emprestimoId &&
                        x.parcelaNumero == ps[i].numero && x.dataVencimento == ps[i].dataVencimento
  {
    JuntarCabeca(s, ps);
    if i == 0 {
      JuntarUma(s, ps[0]);
      var x :| x in Juntar(s, [ps[0]]) && x.emprestimoId == ps[0].emprestimoId &&
               x.parcelaNumero == ps[0].numero && x.dataVencimento == ps[0].dataVencimento;
      assert x in Juntar(s, ps);
    } else {
      assert ps[1..][i - 1] == ps[i];
      JuntarCompleto(s, ps[1..], i - 1);
      var x :| x in Juntar(s, ps[1..]) && x.emprestimoId == ps[i].emprestimoId &&
               x.parcelaNumero == ps[i].numero && x.dataVencimento == ps[i].dataVencimento;
      assert x in Juntar(s, ps);
    }
  }

  lemma PorVencimentoTotal()
    ensures TotalPreorder(PorVencimento)
  {
  }

  /** The upcoming-due list holds at most `limit` rows, in ascending due order. */
  lemma ProximosOrdenados(s: Store, hoje: int, limit: int)
    ensures var r := ProximosVencimentos(s, hoje, limit);
      (limit >= 0 ==> |r| <= limit) &&
      forall i, j :: 0 <= i < j < |r| ==> r[i].dataVencimento <= r[j].dataVencimento
  {
    var l := SortBy(Candidatos(s, hoje), PorVencimento);
    var r := ProximosVencimentos(s, hoje, limit);
    PorVencimentoTotal();
    SortBySorted(Candidatos(s, hoje), PorVencimento);
    forall i, j | 0 <= i < j < |r| ensures r[i].dataVencimento <= r[j].dataVencimento {
      assert r[i] == l[i] && r[j] == l[j];
      assert PorVencimento(l[i], l[j]);
    }
  }

  /** Every row listed is a candidate, so it comes from an unpaid installment due on or after `hoje`. */
  lemma ProximosElegiveis(s: Store, hoje: int, limit: int)
    ensures var r := ProximosVencimentos(s, hoje, limit);
      forall i :: 0 <= i < |r| ==>
        r[i] in Candidatos(s, hoje) && r[i].dataVencimento >= hoje &&
        exists k :: 0 <= k < |s.parcelas| && !s.parcelas[k].pago && s.parcelas[k].dataVencimento >= hoje &&
          s.parcelas[k].emprestimoId == r[i].emprestimoId && s.parcelas[k].numero == r[i].parcelaNumero &&
          s.parcelas[k].dataVencimento == r[i].dataVencimento
  {
    var c := Candidatos(s, hoje);
    var f := Filter(s.parcelas, Elegivel(hoje));
    var l := SortBy(c, PorVencimento);
    var r := ProximosVencimentos(s, hoje, limit);
    forall i | 0 <= i < |r|
      ensures r[i] in c && r[i].dataVencimento >= hoje &&
        exists k :: 0 <= k < |s.parcelas| && !s.parcelas[k].pago && s.parcelas[k].dataVencimento >= hoje &&
          s.parcelas[k].emprestimoId == r[i].emprestimoId && s.parcelas[k].numero == r[i].parcelaNumero &&
          s.parcelas[k].dataVencimento == r[i].dataVencimento
    {
      assert r[i] == l[i];
      assert r[i] in multiset(l);
      JuntarOrigem(s, f, r[i]);
      var m :| 0 <= m < |f| && f[m].emprestimoId == r[i].emprestimoId &&
               f[m].numero == r[i].parcelaNumero && f[m].dataVencimento == r[i].dataVencimento;
      assert f[m] in s.parcelas && Elegivel(hoje)(f[m]);
      var k :| 0 <= k < |s.parcelas| && s.parcelas[k] == f[m];
    }
  }

  /** The list is a prefix of the candidates sorted by due date. */
  lemma {:induction false} ProximosPrefixo(s: Store, hoje: int, limit: int)
    ensures var l := SortBy(Candidatos(s, hoje), PorVencimento);
      var r := ProximosVencimentos(s, hoje, limit);
      |r| <= |l| && r == l[..|r|]
  {
  }

  /** No candidate left out of the list is due earlier than a row in it. */
  lemma ProximosPrimeiros(s: Store, hoje: int, limit: int)
    ensures var r := ProximosVencimentos(s, hoje, limit);
      forall x :: x in Candidatos(s, hoje) && x !in r ==>
        forall i :: 0 <= i < |r| ==> r[i].dataVencimento <= x.dataVencimento
  {
    var c := Candidatos(s, hoje);
    var l := SortBy(c, PorVencimento);
    var r := ProximosVencimentos(s, hoje, limit);
    PorVencimentoTotal();
    SortBySorted(c, PorVencimento);
    ProximosPrefixo(s, hoje, limit);
    forall x | x in c && x !in r
      ensures forall i :: 0 <= i < |r| ==> r[i].dataVencimento <= x.dataVencimento
    {
      assert x in multiset(l);
      var j :| 0 <= j < |l| && l[j] == x;
      assert j >= |r|;
      forall i | 0 <= i < |r| ensures r[i].dataVencimento <= x.dataVencimento {
        assert r[i] == l[i];
        assert PorVencimento(l[i], l[j]);
      }
    }
  }

  /** When the limit does not bite, the list holds every candidate. */
  lemma ProximosTodos(s: Store, hoje: int, limit: int)
    requires limit < 0 || |Candidatos(s, hoje)| <= limit
    ensures multiset(ProximosVencimentos(s, hoje, limit)) == multiset(Candidatos(s, hoje))
  {
    var l := SortBy(Candidatos(s, hoje), PorVencimento);
    assert ProximosVencimentos(s, hoje, limit) == l;
  }

  /** Under valid references every eligible installment is a candidate row. */
  lemma CandidatosCompletos(s: Store, hoje: int, k: nat)
    requires Valido(s) && k < |s.parcelas| && !s.parcelas[k].pago && s.parcelas[k].dataVencimento >= hoje
    ensures exists x :: x in Candidatos(s, hoje) && x.emprestimoId == s.parcelas[k].emprestimoId &&
                        x.parcelaNumero == s.parcelas[k].numero && x.dataVencimento == s.parcelas[k].dataVencimento
  {
    var f := Filter(s.parcelas, Elegivel(hoje));
    assert s.parcelas[k] in f;
    var m :| 0 <= m < |f| && f[m] == s.parcelas[k];
    JuntarCompleto(s, f, m);
  }
}
