/**
 * The edit-loan dialog (`ui/edit_emprestimo_dialog.py`): a form started from
 * the loan's own values, whose principal is locked once any installment has
 * been paid, and which on confirmation asks the loan service to recompute
 * the schedule.
 */
module UiEditEmprestimo {
  import opened Wrappers
  import opened Money
  import opened Seqs
  import opened Models
  import opened Database
  import opened Amortization
  import opened EmprestimoService
  import UiEmprestimo

  /** `any(p.pago for p in ps)`. */
  function AlgumaPaga(ps: seq<Parcela>): (r: bool)
    ensures r <==> exists i :: 0 <= i < |ps| && ps[i].pago
  {
    if ps == [] then false else ps[0].pago || AlgumaPaga(ps[1..])
  }

  /** Some installment of loan `id` in the store has been paid. */
  predicate TemParcelaPaga(s: Store, id: int) {
    exists i :: 0 <= i < |s.parcelas| && s.parcelas[i].emprestimoId == id && s.parcelas[i].pago
  }

  /** `any` does not depend on the order of the installments. */
  lemma AlgumaPagaPermutacao(a: seq<Parcela>, b: seq<Parcela>)
    requires multiset(a) == multiset(b)
    ensures AlgumaPaga(a) ==> AlgumaPaga(b)
  {
    if AlgumaPaga(a) {
      var i :| 0 <= i < |a| && a[i].pago;
      assert a[i] in multiset(b);
      var j :| 0 <= j < |b| && b[j] == a[i];
    }
  }

  /** Some installment of the loan's filtered rows is paid exactly when one of the store's is. */
  lemma AlgumaPagaFiltrada(s: Store, id: int)
    ensures AlgumaPaga(ParcelasDe(s, id)) <==> TemParcelaPaga(s, id)
  {
    var f := ParcelasDe(s, id);
    if AlgumaPaga(f) {
      var j :| 0 <= j < |f| && f[j].pago;
      assert f[j] in s.parcelas && DoEmprestimo(id)(f[j]);
      var k :| 0 <= k < |s.parcelas| && s.parcelas[k] == f[j];
    }
    if TemParcelaPaga(s, id) {
      var k :| 0 <= k < |s.parcelas| && s.parcelas[k].emprestimoId == id && s.parcelas[k].pago;
      assert DoEmprestimo(id)(s.parcelas[k]);
      assert s.parcelas[k] in f;
      var j :| 0 <= j < |f| && f[j] == s.parcelas[k];
    }
  }

  /** The flag the dialog computes from the ordered installment list is exactly "some installment of this loan is paid". */
  lemma HasPaidInstallmentsCorreto(s: Store, id: int)
    ensures AlgumaPaga(GetParcelasByEmprestimoId(s, id)) <==> TemParcelaPaga(s, id)
  {
    var r := GetParcelasByEmprestimoId(s, id);
    var f := ParcelasDe(s, id);
    AlgumaPagaPermutacao(r, f);
    AlgumaPagaPermutacao(f, r);
    AlgumaPagaFiltrada(s, id);
  }

  /** The guard of `accept`: a paid installment and a principal different from the stored one. */
  predicate ValorBloqueado(hasPaid: bool, e: Emprestimo, d: DadosEdicao) {
    hasPaid && d.valor != e.valor
  }

  /**
   * A loan whose principal the spin box can hold is never refused when the
   * amount field was left alone (and it cannot be edited once a payment
   * exists); only a principal outside the box's range or grid trips the guard.
   */
  lemma GuardaSoComValorForaDoCampo(hasPaid: bool, e: Emprestimo, d: DadosEdicao)
    requires d.valor == UiEmprestimo.CampoValor(e.valor)
    ensures ValorBloqueado(hasPaid, e, d) <==> hasPaid && !(OnCentGrid(e.valor) && 0.01 <= e.valor <= 1000000.0)
  {
  }

  /**
   * An edit accepted by the service recomputes every installment of the loan
   * as unpaid, so any payment already recorded on it is discarded; what it
   * keeps is the client and the three rates the loan was created with.
   */
  lemma {:induction false} EdicaoDescartaPagamentos(s: Store, id: int, d: DadosEdicao)
    requires Valido(s) && PodeEditar(s, id, d) && Edicao(s, id, d).Success?
    ensures !TemParcelaPaga(Edicao(s, id, d).value, id)
    ensures forall i :: 0 <= i < |s.emprestimos| && s.emprestimos[i].id == id ==>
              var e' := Edicao(s, id, d).value.emprestimos[i];
              e'.clienteId == s.emprestimos[i].clienteId &&
              e'.taxaJurosSimples == s.emprestimos[i].taxaJurosSimples &&
              e'.taxaJurosComposto == s.emprestimos[i].taxaJurosComposto &&
              e'.taxaJurosMora == s.emprestimos[i].taxaJurosMora &&
              e'.valor == d.valor
  {
    var s' := Edicao(s, id, d).value;
    EdicaoCorreta(s, id, d);
    forall k | 0 <= k < |s'.parcelas| && s'.parcelas[k].emprestimoId == id ensures !s'.parcelas[k].pago {
      assert DoEmprestimo(id)(s'.parcelas[k]);
      var f := ParcelasDe(s', id);
      var j :| 0 <= j < |f| && f[j] == s'.parcelas[k];
    }
  }

  /** With non-negative compound rates, whatever the form can submit is an edit the service can compute. */
  lemma GetDataEditavel(s: Store, id: int, d: DadosEdicao)
    requires 1 <= d.numeroParcelas <= 120
    requires forall i :: 0 <= i < |s.emprestimos| ==> s.emprestimos[i].taxaJurosComposto >= 0.0
    ensures PodeEditar(s, id, d)
  {
    forall i | 0 <= i < |s.emprestimos| && s.emprestimos[i].id == id
      ensures Calculavel(d.numeroParcelas, d.tipoJuros, s.emprestimos[i].taxaJurosComposto)
    {
      TaxaNaoNegativaCalculavel(d.numeroParcelas, d.tipoJuros, s.emprestimos[i].taxaJurosComposto);
    }
  }

  /** How `accept` ends. */
  datatype Resposta =
    | ValorRecusado   // paid installments and a changed principal: an error box, the service is not called
    | NaoConfirmado   // the user answered No
    | Salvo           // the service recomputed the loan
    | Falhou          // the service raised; the error is shown

  class EditEmprestimoDialog {
    const emprestimo: Emprestimo
    const service: EmprestimoService
    const hasPaidInstallments: bool
    var valor: real
    var numeroParcelas: int
    var dataInicio: int
    var simples: bool

    /** The spin boxes' ranges. */
    predicate Valid()
      reads this
    {
      0.01 <= valor <= 1000000.0 && 1 <= numeroParcelas <= 120
    }

    /** The form starts from the loan's own values; the flag is read once from the service. */
    constructor (e: Emprestimo, service: EmprestimoService)
      ensures emprestimo == e && this.service == service
      ensures valor == UiEmprestimo.CampoValor(e.valor) && numeroParcelas == ClampInt(e.numeroParcelas, 1, 120)
      ensures dataInicio == e.dataInicio && simples == (e.tipoJuros == Simples)
      ensures hasPaidInstallments == TemParcelaPaga(service.db.State(), e.id)
      ensures Valid()
    {
      emprestimo := e;
      this.service := service;
      valor := UiEmprestimo.CampoValor(e.valor);
      numeroParcelas := ClampInt(e.numeroParcelas, 1, 120);
      dataInicio := e.dataInicio;
      simples := e.tipoJuros == Simples;
      var ps := GetParcelasByEmprestimoId(service.db.State(), e.id);
      HasPaidInstallmentsCorreto(service.db.State(), e.id);
      hasPaidInstallments := AlgumaPaga(ps);
    }

    /** Typing an amount; the field is disabled when an installment has been paid. */
    method SetValor(v: real)
      requires Valid()
      modifies this`valor
      ensures valor == if hasPaidInstallments then old(valor) else UiEmprestimo.CampoValor(v)
      ensures Valid()
    {
      if !hasPaidInstallments {
        valor := UiEmprestimo.CampoValor(v);
      }
    }

    method SetNumeroParcelas(n: int)
      requires Valid()
      modifies this`numeroParcelas
      ensures numeroParcelas == ClampInt(n, 1, 120) && Valid()
    {
      numeroParcelas := ClampInt(n, 1, 120);
    }

    method SetDataInicio(d: int)
      modifies this`dataInicio
      ensures dataInicio == d
    {
      dataInicio := d;
    }

    method SetSimples(b: bool)
      modifies this`simples
      ensures simples == b
    {
      simples := b;
    }

    /** `get_data`: the four edited fields; no client, no rate. */
    function GetData(): (d: DadosEdicao)
      reads this
      ensures d.valor == valor && d.numeroParcelas == numeroParcelas && d.dataInicio == dataInicio
      ensures d.tipoJuros == if simples then Simples else Composto
    {
      DadosEdicao(valor, numeroParcelas, dataInicio, if simples then Simples else Composto)
    }

    /**
     * `accept`, with the answer to the confirmation box as `confirmado`: a
     * changed principal under paid installments is refused before asking;
     * otherwise a Yes submits `get_data` for this loan.
     */
    method Accept(confirmado: bool) returns (r: Resposta)
      requires service.db.Valid()
      modifies service.db
      ensures service.db.Valid()
      ensures ValorBloqueado(hasPaidInstallments, emprestimo, GetData()) ==>
                r == ValorRecusado && service.db.State() == old(service.db.State())
      ensures !ValorBloqueado(hasPaidInstallments, emprestimo, GetData()) && !confirmado ==>
                r == NaoConfirmado && service.db.State() == old(service.db.State())
      ensures !ValorBloqueado(hasPaidInstallments, emprestimo, GetData()) && confirmado ==>
                if PodeEditar(old(service.db.State()), emprestimo.id, GetData()) then
                  var c := Edicao(old(service.db.State()), emprestimo.id, GetData());
                  (c.Success? ==> r == Salvo && service.db.State() == c.value) &&
                  (c.Failure? ==> r == Falhou && service.db.State() == old(service.db.State()))
                else r == Falhou && service.db.State() == old(service.db.State())
    {
      var data := GetData();
      if hasPaidInstallments && data.valor != emprestimo.valor {
        return ValorRecusado;
      }
      if !confirmado {
        return NaoConfirmado;
      }
      if !PodeEditar(service.db.State(), emprestimo.id, data) {
        return Falhou;
      }
      var o := service.UpdateEmprestimoComParcelas(emprestimo.id, data);
      r := if o.Pass? then Salvo else Falhou;
    }
  }
}
