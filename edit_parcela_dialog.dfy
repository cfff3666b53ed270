/**
 * The edit-installment dialog (`ui/edit_parcela_dialog.py`): late-payment
 * interest as a percentage of the installment, the increased value rounded
 * to cents, and a guard against lowering the value.
 */
module UiEditParcela {
  import opened Wrappers
  import opened Money
  import opened Models

  /** `round(v + v * (m / 100), 2)`: the installment value with `m`% late interest. */
  function ValorComMora(v: real, m: real): (r: real)
    ensures OnCentGrid(r)
    ensures Abs(r - (v + v * (m / 100.0))) <= 0.005
  {
    Round2(v + v * (m / 100.0))
  }

  /** What the percentage spin box holds after `setValue(x)`: two decimals within 0..100. */
  function CampoMora(x: real): (r: real)
    ensures 0.0 <= r <= 100.0 && OnCentGrid(r)
    ensures OnCentGrid(x) && 0.0 <= x <= 100.0 ==> r == x
  {
    var c := Clamp(Round2(x), 0.0, 100.0);
    assert OnCentGrid(Cents(0)) && OnCentGrid(Cents(10000));
    assert Cents(0) == 0.0 && Cents(10000) == 100.0;
    c
  }

  /**
   * For a stored installment value (non-negative, whole cents) and a rate the
   * spin box allows, late interest never lowers the value, and 0% keeps it;
   * so the guard in `accept` can never refuse.
   */
  lemma ValorComMoraNaoDiminui(v: real, m: real)
    requires v >= 0.0 && OnCentGrid(v) && 0.0 <= m <= 100.0
    ensures ValorComMora(v, m) >= v
    ensures m == 0.0 ==> ValorComMora(v, m) == v
    ensures ValorComMora(v, m) <= 2.0 * v
  {
    var juros := v * (m / 100.0);
    assert 0.0 <= juros <= v by {
      assert 0.0 <= m / 100.0 <= 1.0;
      MultiplicaFracao(v, m / 100.0);
    }
    assert Round2(v) == v;
    Round2Monotone(v, v + juros);
    Round2Monotone(v + juros, 2.0 * v);
    DobroNaGrade(v);
  }

  /** Twice a whole-cent amount is a whole-cent amount. */
  lemma DobroNaGrade(v: real)
    requires OnCentGrid(v)
    ensures OnCentGrid(2.0 * v)
  {
    var k := (v * 100.0).Floor;
    assert 2.0 * v * 100.0 == 2.0 * (k as real);
    assert (2.0 * v * 100.0).Floor == 2 * k;
  }

  lemma MultiplicaFracao(v: real, f: real)
    requires v >= 0.0 && 0.0 <= f <= 1.0
    ensures 0.0 <= v * f <= v
  {
    assert v * (1.0 - f) >= 0.0;
  }

  /** A negative rate, which the spin box excludes, would lower the value. */
  lemma MoraNegativaDiminui()
    ensures ValorComMora(100.0, -10.0) == 90.0
  {
    assert 100.0 + 100.0 * (-10.0 / 100.0) == 90.0;
    assert OnCentGrid(90.0) by {
      assert 90.0 * 100.0 == 9000 as real;
    }
  }

  class EditParcelaDialog {
    const parcela: Parcela
    var jurosMora: real
    var novoValorCalculado: real

    /** The rate within the spin box's range, and the value in step with it. */
    predicate Valid()
      reads this
    {
      0.0 <= jurosMora <= 100.0 && novoValorCalculado == ValorComMora(parcela.valor, jurosMora)
    }

    /**
     * The rate starts from the loan's late-interest rate, 0 when it has none;
     * the value is computed once the box holds it.
     */
    constructor (parcela: Parcela, taxaJurosMoraPadrao: Option<real>)
      ensures this.parcela == parcela
      ensures jurosMora == CampoMora(taxaJurosMoraPadrao.GetOr(0.0))
      ensures Valid()
    {
      this.parcela := parcela;
      jurosMora := CampoMora(taxaJurosMoraPadrao.GetOr(0.0));
      novoValorCalculado := parcela.valor;
      new;
      CalcularNovoValor();
    }

    /** `calcular_novo_valor`. */
    method CalcularNovoValor()
      modifies this`novoValorCalculado
      ensures novoValorCalculado == ValorComMora(parcela.valor, jurosMora)
    {
      // the value plus `valor_juros`, the value times `taxa_juros` = rate / 100
      novoValorCalculado := ValorComMora(parcela.valor, jurosMora);
    }

    /** Editing the rate: the box clamps it and `valueChanged` recomputes the value. */
    method SetJurosMora(x: real)
      modifies this`jurosMora, this`novoValorCalculado
      ensures jurosMora == CampoMora(x) && Valid()
    {
      jurosMora := CampoMora(x);
      CalcularNovoValor();
    }

    /** `get_novo_valor`: the value last computed. */
    function GetNovoValor(): (r: real)
      reads this
      requires Valid()
      ensures r == ValorComMora(parcela.valor, jurosMora)
    {
      novoValorCalculado
    }

    /** `accept`: closes the dialog unless the new value is below the original. */
    method Accept() returns (aceito: bool)
      requires Valid()
      ensures aceito <==> !(GetNovoValor() < parcela.valor)
      ensures parcela.valor >= 0.0 && OnCentGrid(parcela.valor) ==> aceito
    {
      if parcela.valor >= 0.0 && OnCentGrid(parcela.valor) {
        ValorComMoraNaoDiminui(parcela.valor, jurosMora);
      }
      aceito := !(GetNovoValor() < parcela.valor);
    }
  }
}
