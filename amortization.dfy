/**
 * The installment value and the schedule generated for a loan
 * (`EmprestimoService._calcular_e_criar_parcelas`).
 */
module Amortization {
  import opened Wrappers
  import opened Money
  import opened Models

  /**
   * The compound formula divides by `(1 + r)^n - 1`; it is defined unless
   * that is zero (a rate of -200% with an even term). Any rate >= 0 is fine.
   */
  predicate DivisorNaoNulo(taxaComposto: real, n: nat) {
    taxaComposto / 100.0 == 0.0 || Pow(1.0 + taxaComposto / 100.0, n) != 1.0
  }

  /** The inputs for which the service can compute an installment value. */
  predicate Calculavel(n: int, tipo: TipoJuros, taxaComposto: real) {
    n >= 1 && (tipo == Composto ==> DivisorNaoNulo(taxaComposto, n))
  }

  lemma TaxaNaoNegativaCalculavel(n: int, tipo: TipoJuros, taxaComposto: real)
    requires n >= 1 && taxaComposto >= 0.0
    ensures Calculavel(n, tipo, taxaComposto)
  {
    if taxaComposto > 0.0 {
      PowAboveOne(1.0 + taxaComposto / 100.0, n);
    }
  }

  /** The installment value before rounding, from principal, term, regime and rates. */
  function ValorParcelaExato(valor: real, n: int, tipo: TipoJuros, taxaSimples: real, taxaComposto: real): real
    requires Calculavel(n, tipo, taxaComposto)
  {
    match tipo
    case Simples =>
      var taxa := taxaSimples / 100.0;
      var totalJuros := valor * taxa * n as real;
      (valor + totalJuros) / n as real
    case Composto =>
      var taxa := taxaComposto / 100.0;
      if taxa == 0.0 then valor / n as real
      else
        Anuidade(valor, taxa, Pow(1.0 + taxa, n))
  }

  /** The annuity payment `P·(r·f)/(f − 1)` for the growth factor `f = (1 + r)^n`. */
  function Anuidade(valor: real, taxa: real, fator: real): real
    requires fator != 1.0
  {
    valor * (taxa * fator) / (fator - 1.0)
  }

  /** The installment value the service stores: the exact value rounded to cents. */
  function ValorParcela(valor: real, n: int, tipo: TipoJuros, taxaSimples: real, taxaComposto: real): (v: real)
    requires Calculavel(n, tipo, taxaComposto)
    ensures OnCentGrid(v)
    ensures Abs(v - ValorParcelaExato(valor, n, tipo, taxaSimples, taxaComposto)) <= 0.005
  {
    Round2(ValorParcelaExato(valor, n, tipo, taxaSimples, taxaComposto))
  }

  /** Simple interest: the n unrounded installments add up to principal plus P·s·n. */
  lemma SimplesSomaTotal(valor: real, n: int, taxaSimples: real)
    requires n >= 1
    ensures n as real * ValorParcelaExato(valor, n, Simples, taxaSimples, 0.0)
            == valor + valor * (taxaSimples / 100.0) * n as real
  {
    var t := valor + valor * (taxaSimples / 100.0) * n as real;
    assert ValorParcelaExato(valor, n, Simples, taxaSimples, 0.0) == t / n as real;
  }

  /** Simple interest: the rounded installments add up to the total within n half-cents. */
  lemma SimplesSomaArredondada(valor: real, n: int, taxaSimples: real)
    requires n >= 1
    ensures var v := ValorParcela(valor, n, Simples, taxaSimples, 0.0);
            Abs(n as real * v - (valor + valor * (taxaSimples / 100.0) * n as real)) <= n as real * 0.005
  {
    var v := ValorParcela(valor, n, Simples, taxaSimples, 0.0);
    var e := ValorParcelaExato(valor, n, Simples, taxaSimples, 0.0);
    var total := valor + valor * (taxaSimples / 100.0) * n as real;
    assert Abs(v - e) <= 0.005;
    assert n as real * e == total by {
      SimplesSomaTotal(valor, n, taxaSimples);
    }
    ErroEscalado(n as real, v, e, total);
  }

  /** n copies of a value within half a cent of e are within n half-cents of n·e. */
  lemma ErroEscalado(n: real, v: real, e: real, total: real)
    requires n >= 1.0 && n * e == total && Abs(v - e) <= 0.005
    ensures Abs(n * v - total) <= n * 0.005
  {
    var d := v - e;
    assert n * v - total == n * d;
    if d >= 0.0 {
      assert n * d <= n * 0.005;
      assert n * d >= 0.0;
    } else {
      assert n * (-d) <= n * 0.005;
      assert n * (-d) >= 0.0;
    }
  }

  /** With a zero rate the compound regime degenerates to the simple regime at zero. */
  lemma CompostoTaxaZeroIgualSimples(valor: real, n: int)
    requires n >= 1
    ensures ValorParcela(valor, n, Composto, 0.0, 0.0) == ValorParcela(valor, n, Simples, 0.0, 0.0)
    ensures ValorParcelaExato(valor, n, Composto, 0.0, 0.0) == valor / n as real
  {
  }

  /**
   * The outstanding balance after k monthly payments of `v`: interest at
   * rate `r` accrues on the balance, then one payment is subtracted.
   */
  function Saldo(valor: real, r: real, v: real, k: nat): real {
    if k == 0 then valor else Saldo(valor, r, v, k - 1) * (1.0 + r) - v
  }

  /** `b` is the balance left by payments `v` on `valor` at rate `r`, once the factor reached `f`, in closed form (times `r`). */
  predicate FormaFechada(valor: real, r: real, v: real, b: real, f: real) {
    r * b == r * valor * f - v * (f - 1.0)
  }

  lemma {:induction false} SaldoFormaFechada(valor: real, r: real, v: real, k: nat)
    ensures FormaFechada(valor, r, v, Saldo(valor, r, v, k), Pow(1.0 + r, k))
  {
    if k == 0 {
      SaldoInicial(valor, r, v);
    } else {
      SaldoFormaFechada(valor, r, v, k - 1);
      PassoSaldo(r, Saldo(valor, r, v, k - 1), v, valor, Pow(1.0 + r, k - 1), Saldo(valor, r, v, k), Pow(1.0 + r, k));
    }
  }

  /** Before any payment the closed form holds with factor 1. */
  lemma SaldoInicial(valor: real, r: real, v: real)
    ensures FormaFechada(valor, r, v, Saldo(valor, r, v, 0), Pow(1.0 + r, 0))
  {
    assert Saldo(valor, r, v, 0) == valor && Pow(1.0 + r, 0) == 1.0;
  }

  /** One step of the closed form, as pure algebra on opaque reals: `s` is the next balance, `g` the next factor. */
  lemma PassoSaldo(r: real, b: real, v: real, valor: real, f: real, s: real, g: real)
    requires FormaFechada(valor, r, v, b, f)
    requires s == b * (1.0 + r) - v && g == (1.0 + r) * f
    ensures FormaFechada(valor, r, v, s, g)
  {
    var x := r * b;
    assert r * s == (1.0 + r) * x - r * v;
    assert (1.0 + r) * x == (1.0 + r) * (r * valor * f) - (1.0 + r) * (v * (f - 1.0));
  }

  /**
   * The compound (annuity) installment amortizes the loan exactly: after n
   * unrounded payments nothing is owed, for every rate the service accepts.
   */
  lemma CompostoAmortiza(valor: real, n: int, taxaComposto: real)
    requires Calculavel(n, Composto, taxaComposto)
    ensures Saldo(valor, taxaComposto / 100.0, ValorParcelaExato(valor, n, Composto, 0.0, taxaComposto), n) == 0.0
  {
    var r := taxaComposto / 100.0;
    var v := ValorParcelaExato(valor, n, Composto, 0.0, taxaComposto);
    if r == 0.0 {
      assert v == valor / n as real;
      SaldoTaxaZero(valor, v, n);
      DivisaoCancela(valor, n as real);
    } else {
      var f := Pow(1.0 + r, n);
      assert f != 1.0;
      assert v == Anuidade(valor, r, f);
      SaldoFormaFechada(valor, r, v, n);
      AnuidadeCancela(valor, r, f, v);
      FatorNulo(r, Saldo(valor, r, v, n));
    }
  }

  lemma DivisaoCancela(a: real, d: real)
    requires d != 0.0
    ensures a - d * (a / d) == 0.0
  {
  }

  lemma FatorNulo(r: real, x: real)
    requires r != 0.0 && r * x == 0.0
    ensures x == 0.0
  {
  }

  /** The annuity payment times `f - 1` is the principal's interest at the horizon. */
  lemma AnuidadeCancela(valor: real, r: real, f: real, v: real)
    requires f != 1.0 && v == Anuidade(valor, r, f)
    ensures r * valor * f - v * (f - 1.0) == 0.0
  {
    var q := valor * (r * f);
    assert v * (f - 1.0) == q;
  }

  lemma {:induction false} SaldoTaxaZero(valor: real, v: real, k: nat)
    ensures Saldo(valor, 0.0, v, k) == valor - k as real * v
  {
    if k > 0 {
      SaldoTaxaZero(valor, v, k - 1);
    }
  }

  /** Non-negative principal and rates give a non-negative installment value. */
  lemma ValorParcelaNaoNegativo(valor: real, n: int, tipo: TipoJuros, taxaSimples: real, taxaComposto: real)
    requires valor >= 0.0 && taxaSimples >= 0.0 && taxaComposto >= 0.0 && n >= 1
    ensures Calculavel(n, tipo, taxaComposto)
    ensures ValorParcela(valor, n, tipo, taxaSimples, taxaComposto) >= 0.0
  {
    TaxaNaoNegativaCalculavel(n, tipo, taxaComposto);
    var e := ValorParcelaExato(valor, n, tipo, taxaSimples, taxaComposto);
    if tipo == Simples {
      var juros := valor * (taxaSimples / 100.0) * n as real;
      ProdutoNaoNegativo(valor, taxaSimples / 100.0, n as real);
      assert e == (valor + juros) / n as real;
      QuocienteNaoNegativo(valor + juros, n as real);
    } else if taxaComposto > 0.0 {
      var r := taxaComposto / 100.0;
      var f := Pow(1.0 + r, n);
      PowAboveOne(1.0 + r, n);
      assert e == Anuidade(valor, r, f);
      AnuidadeNaoNegativa(valor, r, f);
    } else {
      QuocienteNaoNegativo(valor, n as real);
    }
    Round2Monotone(0.0, e);
  }

  lemma ProdutoNaoNegativo(a: real, b: real, c: real)
    requires a >= 0.0 && b >= 0.0 && c >= 0.0
    ensures a * b * c >= 0.0
  {
    assert a * b >= 0.0;
  }

  lemma QuocienteNaoNegativo(a: real, d: real)
    requires a >= 0.0 && d > 0.0
    ensures a / d >= 0.0
  {
  }

  lemma AnuidadeNaoNegativa(valor: real, r: real, f: real)
    requires valor >= 0.0 && r >= 0.0 && f > 1.0
    ensures Anuidade(valor, r, f) >= 0.0
  {
    assert r * f >= 0.0;
    assert valor * (r * f) >= 0.0;
    QuocienteNaoNegativo(valor * (r * f), f - 1.0);
  }

  /** Worked example: 1200.00 over 12 months at 2% simple gives 124.00 a month. */
  lemma ExemploSimples()
    ensures ValorParcela(1200.0, 12, Simples, 2.0, 0.0) == 124.0
  {
    assert ValorParcelaExato(1200.0, 12, Simples, 2.0, 0.0) == 124.0;
  }

  /**
   * The installments generated for `e`, the first with id `primeiroId`:
   * number i (1..n) is due `30·i` days after the start, unpaid, and every
   * one carries the same rounded value.
   */
  function Cronograma(e: Emprestimo, primeiroId: int): seq<Parcela>
    requires Calculavel(e.numeroParcelas, e.tipoJuros, e.taxaJurosComposto)
  {
    var v := ValorParcela(e.valor, e.numeroParcelas, e.tipoJuros, e.taxaJurosSimples, e.taxaJurosComposto);
    seq(e.numeroParcelas, k requires 0 <= k => Parcela(primeiroId + k, e.id, k + 1, v, e.dataInicio + 30 * (k + 1), false, None))
  }

  /** What the service promises about a generated schedule, stated per installment. */
  lemma CronogramaForma(e: Emprestimo, primeiroId: int)
    requires Calculavel(e.numeroParcelas, e.tipoJuros, e.taxaJurosComposto)
    ensures var c := Cronograma(e, primeiroId);
            var v := ValorParcela(e.valor, e.numeroParcelas, e.tipoJuros, e.taxaJurosSimples, e.taxaJurosComposto);
            |c| == e.numeroParcelas &&
            forall k :: 0 <= k < |c| ==>
              c[k].id == primeiroId + k && c[k].emprestimoId == e.id && c[k].numero == k + 1 &&
              c[k].valor == v && OnCentGrid(c[k].valor) &&
              c[k].dataVencimento == e.dataInicio + 30 * c[k].numero &&
              !c[k].pago && c[k].dataPagamento == None
  {
  }
}
