/**
 * The loan lifecycle of `EmprestimoService`: create a loan with its schedule,
 * edit it (regenerating the schedule), delete it, register a payment and
 * override an installment's value. Each operation is a function from the
 * store before to the store after; the service class below performs it step
 * by step on a `Db` and is proved to produce exactly that store.
 */
module EmprestimoService {
  import opened Wrappers
  import opened Money
  import opened Seqs
  import opened Models
  import opened Database
  import opened Amortization

  datatype Erro = TaxasNaoConfiguradas | ClienteInexistente | EmprestimoNaoEncontrado

  /** What the new-loan form submits. */
  datatype DadosNovoEmprestimo = DadosNovoEmprestimo(
    clienteId: int, valor: real, numeroParcelas: int, dataInicio: int, tipoJuros: TipoJuros)

  /** What the edit form submits: no rate is ever part of it. */
  datatype DadosEdicao = DadosEdicao(
    valor: real, numeroParcelas: int, dataInicio: int, tipoJuros: TipoJuros)

  /** `get_taxas_config`: the first rate row, or nothing; it never creates one. */
  function GetTaxasConfig(s: Store): (r: Option<TaxaJuros>)
    ensures r.None? <==> s.taxas == []
    ensures r.Some? ==> r.value == s.taxas[0]
  {
    if s.taxas == [] then None else Some(s.taxas[0])
  }

  function DoEmprestimo(eid: int): Parcela -> bool {
    (p: Parcela) => p.emprestimoId == eid
  }

  function ForaDoEmprestimo(eid: int): Parcela -> bool {
    (p: Parcela) => p.emprestimoId != eid
  }

  function OutroEmprestimo(id: int): Emprestimo -> bool {
    (e: Emprestimo) => e.id != id
  }

  /** The installments of loan `eid`, in table order. */
  function ParcelasDe(s: Store, eid: int): seq<Parcela> {
    Filter(s.parcelas, DoEmprestimo(eid))
  }

  /** The loan with primary key `id`, if any (`get_emprestimo_by_id`). */
  function GetEmprestimoById(s: Store, id: int): (r: Option<Emprestimo>)
    ensures r.Some? ==> r.value in s.emprestimos && r.value.id == id
    ensures r.None? <==> !EmprestimoExiste(s.emprestimos, id)
  {
    match Localizar(s.emprestimos, IdEmprestimo, id)
    case None => None
    case Some(k) => Some(s.emprestimos[k])
  }

  /** The installment with primary key `id`, if any (`get_parcela_by_id`). */
  function GetParcelaById(s: Store, id: int): (r: Option<Parcela>)
    ensures r.Some? ==> r.value in s.parcelas && r.value.id == id
    ensures r.None? <==> forall i :: 0 <= i < |s.parcelas| ==> s.parcelas[i].id != id
  {
    match Localizar(s.parcelas, IdParcela, id)
    case None => None
    case Some(k) => Some(s.parcelas[k])
  }

  /** `get_emprestimos_by_cliente_id`: the client's loans in table order. */
  function GetEmprestimosByClienteId(s: Store, clienteId: int): (r: seq<Emprestimo>)
    ensures forall i :: 0 <= i < |r| ==> r[i] in s.emprestimos && r[i].clienteId == clienteId
    ensures forall i :: 0 <= i < |s.emprestimos| && s.emprestimos[i].clienteId == clienteId ==> s.emprestimos[i] in r
  {
    Filter(s.emprestimos, (e: Emprestimo) => e.clienteId == clienteId)
  }

  function PorNumero(a: Parcela, b: Parcela): bool { a.numero <= b.numero }

  /** `get_parcelas_by_emprestimo_id`: the loan's installments ordered by number. */
  function GetParcelasByEmprestimoId(s: Store, eid: int): (r: seq<Parcela>)
    ensures multiset(r) == multiset(ParcelasDe(s, eid))
    ensures SortedBy(r, PorNumero)
  {
    SortBySorted(ParcelasDe(s, eid), PorNumero);
    SortBy(ParcelasDe(s, eid), PorNumero)
  }

  /** The service can compute the installment value for these inputs. */
  predicate PodeCriar(s: Store, d: DadosNovoEmprestimo) {
    s.taxas != [] ==> Calculavel(d.numeroParcelas, d.tipoJuros, s.taxas[0].taxaJurosComposto)
  }

  /** The loan `create_emprestimo_com_parcelas` inserts: the form's data plus the rate snapshot. */
  function NovoEmprestimo(id: int, d: DadosNovoEmprestimo, t: TaxaJuros): Emprestimo {
    Emprestimo(id, d.clienteId, d.valor, d.numeroParcelas, d.dataInicio, d.tipoJuros,
               t.taxaJurosSimples, t.taxaJurosComposto, t.taxaJurosMora)
  }

  /** `create_emprestimo_com_parcelas`. */
  function Criacao(s: Store, d: DadosNovoEmprestimo): Result<Store, Erro>
    requires PodeCriar(s, d)
  {
    if s.taxas == [] then Failure(TaxasNaoConfiguradas)
    else if !ClienteExiste(s.clientes, d.clienteId) then Failure(ClienteInexistente)
    else
      var e := NovoEmprestimo(s.proximoEmprestimoId, d, s.taxas[0]);
      Success(s.(emprestimos := s.emprestimos + [e],
                 proximoEmprestimoId := s.proximoEmprestimoId + 1,
                 parcelas := s.parcelas + Cronograma(e, s.proximoParcelaId),
                 proximoParcelaId := s.proximoParcelaId + d.numeroParcelas))
  }

  /**
   * `create_emprestimo_com_parcelas` on an engine that checks no foreign key
   * (SQLite without `PRAGMA foreign_keys=ON`): the service never looks the
   * client up, so an unknown `cliente_id` is inserted as it is.
   */
  function CriacaoSemChaveEstrangeira(s: Store, d: DadosNovoEmprestimo): Result<Store, Erro>
    requires PodeCriar(s, d)
  {
    if s.taxas == [] then Failure(TaxasNaoConfiguradas)
    else
      var e := NovoEmprestimo(s.proximoEmprestimoId, d, s.taxas[0]);
      Success(s.(emprestimos := s.emprestimos + [e],
                 proximoEmprestimoId := s.proximoEmprestimoId + 1,
                 parcelas := s.parcelas + Cronograma(e, s.proximoParcelaId),
                 proximoParcelaId := s.proximoParcelaId + d.numeroParcelas))
  }

  /** The loan after an edit: four fields replaced, the rate snapshot kept. */
  function Editado(e: Emprestimo, d: DadosEdicao): Emprestimo {
    e.(valor := d.valor, numeroParcelas := d.numeroParcelas, dataInicio := d.dataInicio, tipoJuros := d.tipoJuros)
  }

  /** The service can recompute the schedule of loan `id` for this edit. */
  predicate PodeEditar(s: Store, id: int, d: DadosEdicao) {
    forall i :: 0 <= i < |s.emprestimos| && s.emprestimos[i].id == id ==>
      Calculavel(d.numeroParcelas, d.tipoJuros, s.emprestimos[i].taxaJurosComposto)
  }

  /** `update_emprestimo_com_parcelas`. */
  function Edicao(s: Store, id: int, d: DadosEdicao): Result<Store, Erro>
    requires PodeEditar(s, id, d)
  {
    match Localizar(s.emprestimos, IdEmprestimo, id)
    case None => Failure(EmprestimoNaoEncontrado)
    case Some(k) =>
      var e := Editado(s.emprestimos[k], d);
      Success(s.(emprestimos := s.emprestimos[k := e],
                 parcelas := Filter(s.parcelas, ForaDoEmprestimo(id)) + Cronograma(e, s.proximoParcelaId),
                 proximoParcelaId := s.proximoParcelaId + d.numeroParcelas))
  }

  /** `delete_emprestimo`. */
  function Exclusao(s: Store, id: int): Store {
    if !EmprestimoExiste(s.emprestimos, id) then s
    else s.(parcelas := Filter(s.parcelas, ForaDoEmprestimo(id)),
            emprestimos := Filter(s.emprestimos, OutroEmprestimo(id)))
  }

  /** An installment as `registrar_pagamento_parcela` leaves it. */
  function Paga(p: Parcela, hoje: int): Parcela {
    p.(pago := true, dataPagamento := Some(hoje))
  }

  /** What `registrar_pagamento_parcela` returns. */
  function ParcelaPaga(s: Store, pid: int, hoje: int): Option<Parcela> {
    match Localizar(s.parcelas, IdParcela, pid)
    case None => None
    case Some(k) => if s.parcelas[k].pago then None else Some(Paga(s.parcelas[k], hoje))
  }

  /** The store after `registrar_pagamento_parcela`. */
  function Pagamento(s: Store, pid: int, hoje: int): Store {
    match Localizar(s.parcelas, IdParcela, pid)
    case None => s
    case Some(k) =>
      if s.parcelas[k].pago then s
      else s.(parcelas := s.parcelas[k := Paga(s.parcelas[k], hoje)])
  }

  /** The store after `update_valor_parcela`: no paid check. */
  function NovoValor(s: Store, pid: int, valor: real): Store {
    match Localizar(s.parcelas, IdParcela, pid)
    case None => s
    case Some(k) => s.(parcelas := s.parcelas[k := s.parcelas[k].(valor := valor)])
  }

  // ---------------------------------------------------------------------
  // Schedule bookkeeping used by the proofs below.

  lemma {:induction false} NumerosDeUniforme(c: seq<Parcela>, eid: int)
    requires forall k :: 0 <= k < |c| ==> c[k].emprestimoId == eid
    ensures NumerosDe(c, eid) == seq(|c|, k requires 0 <= k < |c| => c[k].numero)
  {
    if c != [] {
      NumerosDeUniforme(c[1..], eid);
    }
  }

  /** A generated schedule numbers its own loan's installments 1..n and no other loan's. */
  lemma NumerosDeCronograma(e: Emprestimo, primeiro: int, eid: int)
    requires Calculavel(e.numeroParcelas, e.tipoJuros, e.taxaJurosComposto)
    ensures NumerosDe(Cronograma(e, primeiro), eid) == if eid == e.id then Faixa(e.numeroParcelas) else []
  {
    var c := Cronograma(e, primeiro);
    CronogramaForma(e, primeiro);
    if eid == e.id {
      NumerosDeUniforme(c, eid);
    } else {
      NumerosDeAusente(c, eid);
    }
  }

  lemma CronogramaChaves(ps: seq<Parcela>, e: Emprestimo, primeiro: int)
    requires Calculavel(e.numeroParcelas, e.tipoJuros, e.taxaJurosComposto)
    requires ChavesCrescentes(ps, IdParcela, primeiro)
    ensures ChavesCrescentes(ps + Cronograma(e, primeiro), IdParcela, primeiro + e.numeroParcelas)
  {
    CronogramaForma(e, primeiro);
  }

  /** No installment refers to a loan key that has not been handed out yet. */
  lemma SemParcelasFuturas(s: Store, eid: int)
    requires ChavesValidas(s) && ReferenciasValidas(s) && eid >= s.proximoEmprestimoId
    ensures forall i :: 0 <= i < |s.parcelas| ==> s.parcelas[i].emprestimoId != eid
  {
    forall i | 0 <= i < |s.parcelas| ensures s.parcelas[i].emprestimoId != eid {
      assert EmprestimoExiste(s.emprestimos, s.parcelas[i].emprestimoId);
    }
  }

  // ---------------------------------------------------------------------
  // Create.

  /**
   * Creating fails, adding nothing, exactly when there is no rate row or no
   * such client; otherwise it appends one loan carrying the form's data and
   * the first rate row's three rates, and that loan's installments are a
   * fresh schedule. Other loans keep their installments.
   */
  lemma CriacaoCorreta(s: Store, d: DadosNovoEmprestimo)
    requires ChavesValidas(s) && ReferenciasValidas(s) && PodeCriar(s, d)
    ensures Criacao(s, d).Failure? <==> s.taxas == [] || !ClienteExiste(s.clientes, d.clienteId)
    ensures s.taxas == [] ==> Criacao(s, d) == Failure(TaxasNaoConfiguradas)
    ensures Criacao(s, d).Success? ==>
      var s' := Criacao(s, d).value;
      var e := s'.emprestimos[|s'.emprestimos| - 1];
      s'.emprestimos == s.emprestimos + [e] &&
      e.id == s.proximoEmprestimoId && !EmprestimoExiste(s.emprestimos, e.id) &&
      e.clienteId == d.clienteId && e.valor == d.valor && e.numeroParcelas == d.numeroParcelas &&
      e.dataInicio == d.dataInicio && e.tipoJuros == d.tipoJuros &&
      e.taxaJurosSimples == s.taxas[0].taxaJurosSimples &&
      e.taxaJurosComposto == s.taxas[0].taxaJurosComposto &&
      e.taxaJurosMora == s.taxas[0].taxaJurosMora &&
      ParcelasDe(s', e.id) == Cronograma(e, s.proximoParcelaId) &&
      (forall eid :: eid != e.id ==> ParcelasDe(s', eid) == ParcelasDe(s, eid)) &&
      s'.clientes == s.clientes && s'.taxas == s.taxas
  {
    if Criacao(s, d).Success? {
      var s' := Criacao(s, d).value;
      var e := NovoEmprestimo(s.proximoEmprestimoId, d, s.taxas[0]);
      var c := Cronograma(e, s.proximoParcelaId);
      assert s'.emprestimos[|s'.emprestimos| - 1] == e;
      assert s'.parcelas == s.parcelas + c;
      CronogramaForma(e, s.proximoParcelaId);
      SemParcelasFuturas(s, e.id);
      AcrescentarParcelas(s.parcelas, c, e.id);
    }
  }

  /**
   * Appending the installments `c` of a loan `eid` that had none gives that
   * loan exactly `c`, and leaves every other loan's installments alone.
   */
  lemma AcrescentarParcelas(ps: seq<Parcela>, c: seq<Parcela>, eid: int)
    requires forall i :: 0 <= i < |ps| ==> ps[i].emprestimoId != eid
    requires forall k :: 0 <= k < |c| ==> c[k].emprestimoId == eid
    ensures Filter(ps + c, DoEmprestimo(eid)) == c
    ensures forall outro :: outro != eid ==> Filter(ps + c, DoEmprestimo(outro)) == Filter(ps, DoEmprestimo(outro))
  {
    FilterAppend(ps, c, DoEmprestimo(eid));
    FilterNone(ps, DoEmprestimo(eid));
    FilterAll(c, DoEmprestimo(eid));
    forall outro | outro != eid ensures Filter(ps + c, DoEmprestimo(outro)) == Filter(ps, DoEmprestimo(outro)) {
      FilterAppend(ps, c, DoEmprestimo(outro));
      FilterNone(c, DoEmprestimo(outro));
    }
  }

  /**
   * Without foreign-key checks creation fails only for a missing rate row.
   * With a known client it is the creation above; with an unknown client
   * it still inserts the loan, which then references no client, so the
   * table constraints no longer hold.
   */
  lemma CriacaoSemChaveEstrangeiraCorreta(s: Store, d: DadosNovoEmprestimo)
    requires PodeCriar(s, d)
    ensures CriacaoSemChaveEstrangeira(s, d).Failure? <==> s.taxas == []
    ensures ClienteExiste(s.clientes, d.clienteId) ==> CriacaoSemChaveEstrangeira(s, d) == Criacao(s, d)
    ensures s.taxas != [] && !ClienteExiste(s.clientes, d.clienteId) ==>
      var s' := CriacaoSemChaveEstrangeira(s, d).value;
      Criacao(s, d) == Failure(ClienteInexistente) &&
      |s'.emprestimos| == |s.emprestimos| + 1 &&
      s'.emprestimos[|s.emprestimos|].clienteId == d.clienteId &&
      s'.clientes == s.clientes &&
      !ReferenciasValidas(s')
  {
    if s.taxas != [] && !ClienteExiste(s.clientes, d.clienteId) {
      var s' := CriacaoSemChaveEstrangeira(s, d).value;
      assert s'.emprestimos[|s.emprestimos|].clienteId == d.clienteId;
      assert !ClienteExiste(s'.clientes, s'.emprestimos[|s.emprestimos|].clienteId);
    }
  }

  lemma CriacaoPreservaChaves(s: Store, d: DadosNovoEmprestimo)
    requires ChavesValidas(s) && PodeCriar(s, d) && Criacao(s, d).Success?
    ensures ChavesValidas(Criacao(s, d).value)
  {
    var e := NovoEmprestimo(s.proximoEmprestimoId, d, s.taxas[0]);
    AcrescentarMantemChaves(s.emprestimos, IdEmprestimo, s.proximoEmprestimoId, e, s.proximoEmprestimoId + 1);
    CronogramaChaves(s.parcelas, e, s.proximoParcelaId);
  }

  lemma CriacaoPreservaReferencias(s: Store, d: DadosNovoEmprestimo)
    requires ReferenciasValidas(s) && PodeCriar(s, d) && Criacao(s, d).Success?
    ensures ReferenciasValidas(Criacao(s, d).value)
  {
    var s' := Criacao(s, d).value;
    var e := NovoEmprestimo(s.proximoEmprestimoId, d, s.taxas[0]);
    var c := Cronograma(e, s.proximoParcelaId);
    CronogramaForma(e, s.proximoParcelaId);
    assert s'.emprestimos[|s.emprestimos|] == e;
    forall i | 0 <= i < |s'.parcelas| ensures EmprestimoExiste(s'.emprestimos, s'.parcelas[i].emprestimoId) {
      if i < |s.parcelas| {
        assert EmprestimoExiste(s.emprestimos, s.parcelas[i].emprestimoId);
        var j :| 0 <= j < |s.emprestimos| && s.emprestimos[j].id == s.parcelas[i].emprestimoId;
        assert s'.emprestimos[j] == s.emprestimos[j];
      } else {
        assert s'.parcelas[i] == c[i - |s.parcelas|];
      }
    }
  }

  lemma CriacaoPreservaPagamentos(s: Store, d: DadosNovoEmprestimo)
    requires PagamentosCoerentes(s.parcelas) && PodeCriar(s, d) && Criacao(s, d).Success?
    ensures PagamentosCoerentes(Criacao(s, d).value.parcelas)
  {
    var s' := Criacao(s, d).value;
    var e := NovoEmprestimo(s.proximoEmprestimoId, d, s.taxas[0]);
    var c := Cronograma(e, s.proximoParcelaId);
    CronogramaForma(e, s.proximoParcelaId);
    forall i | 0 <= i < |s'.parcelas| ensures s'.parcelas[i].pago <==> s'.parcelas[i].dataPagamento.Some? {
      if i >= |s.parcelas| {
        assert s'.parcelas[i] == c[i - |s.parcelas|];
      }
    }
  }

  lemma CriacaoPreservaCronogramas(s: Store, d: DadosNovoEmprestimo)
    requires ChavesValidas(s) && ReferenciasValidas(s) && CronogramasCompletos(s)
    requires PodeCriar(s, d) && Criacao(s, d).Success?
    ensures CronogramasCompletos(Criacao(s, d).value)
  {
    var s' := Criacao(s, d).value;
    var e := NovoEmprestimo(s.proximoEmprestimoId, d, s.taxas[0]);
    var c := Cronograma(e, s.proximoParcelaId);
    SemParcelasFuturas(s, e.id);
    forall i | 0 <= i < |s'.emprestimos|
      ensures s'.emprestimos[i].numeroParcelas >= 1 &&
              NumerosDe(s'.parcelas, s'.emprestimos[i].id) == Faixa(s'.emprestimos[i].numeroParcelas)
    {
      var f := s'.emprestimos[i];
      NumerosDeConcat(s.parcelas, c, f.id);
      NumerosDeCronograma(e, s.proximoParcelaId, f.id);
      if i == |s.emprestimos| {
        NumerosDeAusente(s.parcelas, e.id);
      } else {
        assert f == s.emprestimos[i] && f.id < e.id;
      }
    }
  }

  lemma CriacaoPreservaValido(s: Store, d: DadosNovoEmprestimo)
    requires Valido(s) && PodeCriar(s, d) && Criacao(s, d).Success?
    ensures Valido(Criacao(s, d).value)
  {
    CriacaoPreservaChaves(s, d);
    CriacaoPreservaReferencias(s, d);
    CriacaoPreservaPagamentos(s, d);
    CriacaoPreservaCronogramas(s, d);
  }

  // ---------------------------------------------------------------------
  // Edit.

  lemma {:induction false} NumerosDeFiltro(ps: seq<Parcela>, id: int, eid: int)
    requires eid != id
    ensures NumerosDe(Filter(ps, ForaDoEmprestimo(id)), eid) == NumerosDe(ps, eid)
  {
    if ps != [] {
      NumerosDeFiltro(ps[1..], id, eid);
      var f := Filter(ps, ForaDoEmprestimo(id));
      var g := Filter(ps[1..], ForaDoEmprestimo(id));
      if ps[0].emprestimoId != id {
        assert f == [ps[0]] + g;
        assert f[0] == ps[0] && f[1..] == g;
        assert NumerosDe(f, eid) == (if ps[0].emprestimoId == eid then [ps[0].numero] else []) + NumerosDe(g, eid);
      } else {
        assert f == g;
        assert NumerosDe(ps, eid) == NumerosDe(ps[1..], eid);
      }
    }
  }

  /** Once a loan's installments are filtered out, none of them is left. */
  lemma SemParcelasDoEmprestimo(ps: seq<Parcela>, id: int)
    ensures forall i :: 0 <= i < |Filter(ps, ForaDoEmprestimo(id))| ==> Filter(ps, ForaDoEmprestimo(id))[i].emprestimoId != id
  {
  }

  /**
   * Replacing a loan's installments by a new schedule `c`: the loan then has
   * exactly `c`, and every other loan keeps its own.
   */
  lemma ParcelasSubstituidas(ps: seq<Parcela>, id: int, c: seq<Parcela>)
    requires forall k :: 0 <= k < |c| ==> c[k].emprestimoId == id
    ensures Filter(Filter(ps, ForaDoEmprestimo(id)) + c, DoEmprestimo(id)) == c
    ensures forall eid :: eid != id ==>
      Filter(Filter(ps, ForaDoEmprestimo(id)) + c, DoEmprestimo(eid)) == Filter(ps, DoEmprestimo(eid))
  {
    var resto := Filter(ps, ForaDoEmprestimo(id));
    FilterAppend(resto, c, DoEmprestimo(id));
    SemParcelasDoEmprestimo(ps, id);
    FilterNone(resto, DoEmprestimo(id));
    FilterAll(c, DoEmprestimo(id));
    forall eid | eid != id
      ensures Filter(resto + c, DoEmprestimo(eid)) == Filter(ps, DoEmprestimo(eid))
    {
      FilterAppend(resto, c, DoEmprestimo(eid));
      FilterNone(c, DoEmprestimo(eid));
      FilterFilter(ps, ForaDoEmprestimo(id), DoEmprestimo(eid));
    }
  }

  /**
   * Editing an unknown loan raises and changes nothing. Otherwise only that
   * loan's valor, term, start and regime change, its rate snapshot is kept,
   * its installments are exactly a fresh unpaid schedule (paid ones are not
   * checked and are discarded too), and every other loan keeps its
   * installments.
   */
  lemma EdicaoCorreta(s: Store, id: int, d: DadosEdicao)
    requires Valido(s) && PodeEditar(s, id, d)
    ensures Edicao(s, id, d).Failure? <==> !EmprestimoExiste(s.emprestimos, id)
    ensures Edicao(s, id, d).Failure? ==> Edicao(s, id, d).error == EmprestimoNaoEncontrado
    ensures Edicao(s, id, d).Success? ==>
      var s' := Edicao(s, id, d).value;
      |s'.emprestimos| == |s.emprestimos| &&
      (forall i :: 0 <= i < |s.emprestimos| && s.emprestimos[i].id != id ==> s'.emprestimos[i] == s.emprestimos[i]) &&
      (forall i :: 0 <= i < |s.emprestimos| && s.emprestimos[i].id == id ==>
         var e' := s'.emprestimos[i];
         e' == Editado(s.emprestimos[i], d) &&
         ParcelasDe(s', id) == Cronograma(e', s.proximoParcelaId)) &&
      (forall k :: 0 <= k < |ParcelasDe(s', id)| ==> !ParcelasDe(s', id)[k].pago) &&
      (forall eid :: eid != id ==> ParcelasDe(s', eid) == ParcelasDe(s, eid)) &&
      s'.clientes == s.clientes && s'.taxas == s.taxas
  {
    if Edicao(s, id, d).Success? {
      var k := Localizar(s.emprestimos, IdEmprestimo, id).value;
      var e' := Editado(s.emprestimos[k], d);
      CronogramaForma(e', s.proximoParcelaId);
      forall i | 0 <= i < |s.emprestimos| && s.emprestimos[i].id == id ensures i == k {
        LocalizarUnico(s.emprestimos, IdEmprestimo, s.proximoEmprestimoId, id, i);
      }
      ParcelasSubstituidas(s.parcelas, id, Cronograma(e', s.proximoParcelaId));
    }
  }

  lemma EdicaoPreservaChaves(s: Store, id: int, d: DadosEdicao)
    requires ChavesValidas(s) && PodeEditar(s, id, d) && Edicao(s, id, d).Success?
    ensures ChavesValidas(Edicao(s, id, d).value)
  {
    var s' := Edicao(s, id, d).value;
    var k := Localizar(s.emprestimos, IdEmprestimo, id).value;
    var e' := Editado(s.emprestimos[k], d);
    var resto := Filter(s.parcelas, ForaDoEmprestimo(id));
    FiltroMantemChaves(s.parcelas, IdParcela, s.proximoParcelaId, ForaDoEmprestimo(id));
    CronogramaChaves(resto, e', s.proximoParcelaId);
    assert forall i :: 0 <= i < |s.emprestimos| ==> s'.emprestimos[i].id == s.emprestimos[i].id;
  }

  lemma EdicaoPreservaReferencias(s: Store, id: int, d: DadosEdicao)
    requires ReferenciasValidas(s) && PodeEditar(s, id, d) && Edicao(s, id, d).Success?
    ensures ReferenciasValidas(Edicao(s, id, d).value)
  {
    var s' := Edicao(s, id, d).value;
    var k := Localizar(s.emprestimos, IdEmprestimo, id).value;
    var e' := Editado(s.emprestimos[k], d);
    var resto := Filter(s.parcelas, ForaDoEmprestimo(id));
    var c := Cronograma(e', s.proximoParcelaId);
    CronogramaForma(e', s.proximoParcelaId);
    forall i | 0 <= i < |s'.emprestimos| ensures ClienteExiste(s'.clientes, s'.emprestimos[i].clienteId) {
      assert s'.emprestimos[i].clienteId == s.emprestimos[i].clienteId;
    }
    forall i | 0 <= i < |s'.parcelas| ensures EmprestimoExiste(s'.emprestimos, s'.parcelas[i].emprestimoId) {
      if i < |resto| {
        assert resto[i] in s.parcelas;
        var m :| 0 <= m < |s.parcelas| && s.parcelas[m] == resto[i];
        assert EmprestimoExiste(s.emprestimos, s.parcelas[m].emprestimoId);
        var j :| 0 <= j < |s.emprestimos| && s.emprestimos[j].id == s.parcelas[m].emprestimoId;
        assert s'.emprestimos[j].id == s.emprestimos[j].id;
      } else {
        assert s'.parcelas[i] == c[i - |resto|];
        assert s'.emprestimos[k].id == id;
      }
    }
  }

  lemma EdicaoPreservaPagamentos(s: Store, id: int, d: DadosEdicao)
    requires PagamentosCoerentes(s.parcelas) && PodeEditar(s, id, d) && Edicao(s, id, d).Success?
    ensures PagamentosCoerentes(Edicao(s, id, d).value.parcelas)
  {
    var s' := Edicao(s, id, d).value;
    var k := Localizar(s.emprestimos, IdEmprestimo, id).value;
    var e' := Editado(s.emprestimos[k], d);
    var resto := Filter(s.parcelas, ForaDoEmprestimo(id));
    var c := Cronograma(e', s.proximoParcelaId);
    CronogramaForma(e', s.proximoParcelaId);
    forall i | 0 <= i < |s'.parcelas| ensures s'.parcelas[i].pago <==> s'.parcelas[i].dataPagamento.Some? {
      if i < |resto| {
        assert resto[i] in s.parcelas;
      } else {
        assert s'.parcelas[i] == c[i - |resto|];
      }
    }
  }

  lemma EdicaoPreservaCronogramas(s: Store, id: int, d: DadosEdicao)
    requires ChavesValidas(s) && CronogramasCompletos(s) && PodeEditar(s, id, d) && Edicao(s, id, d).Success?
    ensures CronogramasCompletos(Edicao(s, id, d).value)
  {
    var s' := Edicao(s, id, d).value;
    var k := Localizar(s.emprestimos, IdEmprestimo, id).value;
    var e' := Editado(s.emprestimos[k], d);
    var resto := Filter(s.parcelas, ForaDoEmprestimo(id));
    var c := Cronograma(e', s.proximoParcelaId);
    forall i | 0 <= i < |s'.emprestimos|
      ensures s'.emprestimos[i].numeroParcelas >= 1 &&
              NumerosDe(s'.parcelas, s'.emprestimos[i].id) == Faixa(s'.emprestimos[i].numeroParcelas)
    {
      var f := s'.emprestimos[i];
      NumerosDeConcat(resto, c, f.id);
      NumerosDeCronograma(e', s.proximoParcelaId, f.id);
      if i == k {
        SemParcelasDoEmprestimo(s.parcelas, id);
        NumerosDeAusente(resto, id);
      } else {
        assert f == s.emprestimos[i];
        assert f.id != id by {
          assert s.emprestimos[k].id == id;
        }
        NumerosDeFiltro(s.parcelas, id, f.id);
      }
    }
  }

  lemma EdicaoPreservaValido(s: Store, id: int, d: DadosEdicao)
    requires Valido(s) && PodeEditar(s, id, d) && Edicao(s, id, d).Success?
    ensures Valido(Edicao(s, id, d).value)
  {
    EdicaoPreservaChaves(s, id, d);
    EdicaoPreservaReferencias(s, id, d);
    EdicaoPreservaPagamentos(s, id, d);
    EdicaoPreservaCronogramas(s, id, d);
  }

  // ---------------------------------------------------------------------
  // Delete.

  /**
   * Deleting an unknown loan changes nothing. Otherwise the loan and every
   * installment of it are gone, every other loan stays and keeps its
   * installments, and no other table changes.
   */
  lemma ExclusaoCorreta(s: Store, id: int)
    ensures !EmprestimoExiste(s.emprestimos, id) ==> Exclusao(s, id) == s
    ensures EmprestimoExiste(s.emprestimos, id) ==>
      var s' := Exclusao(s, id);
      !EmprestimoExiste(s'.emprestimos, id) &&
      (forall i :: 0 <= i < |s'.parcelas| ==> s'.parcelas[i].emprestimoId != id) &&
      (forall i :: 0 <= i < |s.emprestimos| && s.emprestimos[i].id != id ==> s.emprestimos[i] in s'.emprestimos) &&
      (forall eid :: eid != id ==> ParcelasDe(s', eid) == ParcelasDe(s, eid)) &&
      s'.clientes == s.clientes && s'.taxas == s.taxas
  {
    if EmprestimoExiste(s.emprestimos, id) {
      var s' := Exclusao(s, id);
      SemParcelasDoEmprestimo(s.parcelas, id);
      forall i | 0 <= i < |s.emprestimos| && s.emprestimos[i].id != id ensures s.emprestimos[i] in s'.emprestimos {
        assert s.emprestimos[i] in s.emprestimos;
      }
      forall eid | eid != id ensures ParcelasDe(s', eid) == ParcelasDe(s, eid) {
        FilterFilter(s.parcelas, ForaDoEmprestimo(id), DoEmprestimo(eid));
      }
    }
  }

  lemma ExclusaoPreservaReferencias(s: Store, id: int)
    requires ReferenciasValidas(s)
    ensures ReferenciasValidas(Exclusao(s, id))
  {
    if EmprestimoExiste(s.emprestimos, id) {
      var s' := Exclusao(s, id);
      forall i | 0 <= i < |s'.emprestimos| ensures ClienteExiste(s'.clientes, s'.emprestimos[i].clienteId) {
        assert s'.emprestimos[i] in s.emprestimos;
      }
      forall i | 0 <= i < |s'.parcelas| ensures EmprestimoExiste(s'.emprestimos, s'.parcelas[i].emprestimoId) {
        var p := s'.parcelas[i];
        assert p in s.parcelas && p.emprestimoId != id;
        var m :| 0 <= m < |s.parcelas| && s.parcelas[m] == p;
        assert EmprestimoExiste(s.emprestimos, p.emprestimoId);
        var j :| 0 <= j < |s.emprestimos| && s.emprestimos[j].id == p.emprestimoId;
        assert s.emprestimos[j] in s'.emprestimos;
      }
    }
  }

  lemma ExclusaoPreservaPagamentos(s: Store, id: int)
    requires PagamentosCoerentes(s.parcelas)
    ensures PagamentosCoerentes(Exclusao(s, id).parcelas)
  {
    var s' := Exclusao(s, id);
    forall i | 0 <= i < |s'.parcelas| ensures s'.parcelas[i].pago <==> s'.parcelas[i].dataPagamento.Some? {
      assert s'.parcelas[i] in s.parcelas;
    }
  }

  lemma ExclusaoPreservaCronogramas(s: Store, id: int)
    requires CronogramasCompletos(s)
    ensures CronogramasCompletos(Exclusao(s, id))
  {
    if EmprestimoExiste(s.emprestimos, id) {
      var s' := Exclusao(s, id);
      forall i | 0 <= i < |s'.emprestimos|
        ensures s'.emprestimos[i].numeroParcelas >= 1 &&
                NumerosDe(s'.parcelas, s'.emprestimos[i].id) == Faixa(s'.emprestimos[i].numeroParcelas)
      {
        var f := s'.emprestimos[i];
        assert f in s.emprestimos && f.id != id;
        NumerosDeFiltro(s.parcelas, id, f.id);
      }
    }
  }

  lemma ExclusaoPreservaValido(s: Store, id: int)
    requires Valido(s)
    ensures Valido(Exclusao(s, id))
  {
    if EmprestimoExiste(s.emprestimos, id) {
      FiltroMantemChaves(s.parcelas, IdParcela, s.proximoParcelaId, ForaDoEmprestimo(id));
      FiltroMantemChaves(s.emprestimos, IdEmprestimo, s.proximoEmprestimoId, OutroEmprestimo(id));
      ExclusaoPreservaReferencias(s, id);
      ExclusaoPreservaPagamentos(s, id);
      ExclusaoPreservaCronogramas(s, id);
    }
  }

  /** Removing a loan's installments from rows followed by its new schedule leaves the rows. */
  lemma SemCronogramaAcrescentado(ps: seq<Parcela>, c: seq<Parcela>, eid: int)
    requires forall i :: 0 <= i < |ps| ==> ps[i].emprestimoId != eid
    requires forall k :: 0 <= k < |c| ==> c[k].emprestimoId == eid
    ensures Filter(ps + c, ForaDoEmprestimo(eid)) == ps
  {
    FilterAppend(ps, c, ForaDoEmprestimo(eid));
    FilterAll(ps, ForaDoEmprestimo(eid));
    FilterNone(c, ForaDoEmprestimo(eid));
    assert ps + [] == ps;
  }

  /** Removing a loan from the table it was just appended to, under a fresh id, leaves the table. */
  lemma SemEmprestimoAcrescentado(es: seq<Emprestimo>, e: Emprestimo)
    requires forall i :: 0 <= i < |es| ==> es[i].id != e.id
    ensures Filter(es + [e], OutroEmprestimo(e.id)) == es
  {
    FilterAppend(es, [e], OutroEmprestimo(e.id));
    FilterAll(es, OutroEmprestimo(e.id));
    FilterNone([e], OutroEmprestimo(e.id));
    assert es + [] == es;
  }

  /** Creating a loan and then deleting it gives back every table as it was. */
  lemma CriacaoExclusao(s: Store, d: DadosNovoEmprestimo)
    requires Valido(s) && PodeCriar(s, d) && Criacao(s, d).Success?
    ensures var s' := Exclusao(Criacao(s, d).value, s.proximoEmprestimoId);
            s'.clientes == s.clientes && s'.emprestimos == s.emprestimos &&
            s'.parcelas == s.parcelas && s'.taxas == s.taxas
  {
    var s1 := Criacao(s, d).value;
    var e := NovoEmprestimo(s.proximoEmprestimoId, d, s.taxas[0]);
    var c := Cronograma(e, s.proximoParcelaId);
    assert s1.emprestimos == s.emprestimos + [e] && s1.parcelas == s.parcelas + c;
    assert s1.emprestimos[|s.emprestimos|] == e;
    assert EmprestimoExiste(s1.emprestimos, e.id);
    CronogramaForma(e, s.proximoParcelaId);
    SemParcelasFuturas(s, e.id);
    SemCronogramaAcrescentado(s.parcelas, c, e.id);
    assert forall i :: 0 <= i < |s.emprestimos| ==> s.emprestimos[i].id < e.id;
    SemEmprestimoAcrescentado(s.emprestimos, e);
  }

  // ---------------------------------------------------------------------
  // Payment and value override.

  /**
   * Registering a payment: an unknown installment or one already paid gives
   * back nothing and changes nothing; otherwise exactly that row becomes paid
   * on `hoje`, keeping its value, and is what the call returns.
   */
  lemma PagamentoCorreto(s: Store, pid: int, hoje: int)
    requires Valido(s)
    ensures var (r, s') := (ParcelaPaga(s, pid, hoje), Pagamento(s, pid, hoje));
      (r.None? <==> forall i :: 0 <= i < |s.parcelas| && s.parcelas[i].id == pid ==> s.parcelas[i].pago) &&
      (r.None? ==> s' == s) &&
      (r.Some? ==>
         s'.clientes == s.clientes && s'.emprestimos == s.emprestimos && s'.taxas == s.taxas &&
         |s'.parcelas| == |s.parcelas| &&
         r.value.id == pid && r.value.pago && r.value.dataPagamento == Some(hoje) &&
         forall i :: 0 <= i < |s.parcelas| ==>
           s'.parcelas[i] == (if s.parcelas[i].id == pid then r.value else s.parcelas[i]) &&
           (s.parcelas[i].id == pid ==> r.value == s.parcelas[i].(pago := true, dataPagamento := Some(hoje))))
  {
    forall i | 0 <= i < |s.parcelas| && s.parcelas[i].id == pid
      ensures Localizar(s.parcelas, IdParcela, pid) == Some(i)
    {
      LocalizarUnico(s.parcelas, IdParcela, s.proximoParcelaId, pid, i);
    }
  }

  lemma PagamentoPreservaValido(s: Store, pid: int, hoje: int)
    requires Valido(s)
    ensures Valido(Pagamento(s, pid, hoje))
  {
    match Localizar(s.parcelas, IdParcela, pid)
    case None =>
    case Some(k) =>
      if !s.parcelas[k].pago {
        LinhaSubstituidaValida(s, k, Paga(s.parcelas[k], hoje));
      }
  }

  /** Paying twice is paying once: the second call finds the row paid and changes nothing. */
  lemma PagamentoIdempotente(s: Store, pid: int, hoje: int, depois: int)
    requires Valido(s)
    ensures Pagamento(Pagamento(s, pid, hoje), pid, depois) == Pagamento(s, pid, hoje)
    ensures ParcelaPaga(Pagamento(s, pid, hoje), pid, depois).None?
  {
    var s' := Pagamento(s, pid, hoje);
    PagamentoCorreto(s, pid, hoje);
    PagamentoPreservaValido(s, pid, hoje);
    PagamentoCorreto(s', pid, depois);
    forall i | 0 <= i < |s'.parcelas| && s'.parcelas[i].id == pid ensures s'.parcelas[i].pago {
      if !s.parcelas[i].pago {
        assert ParcelaPaga(s, pid, hoje).Some?;
      }
    }
  }

  /**
   * Overriding an installment's value: an unknown id changes nothing;
   * otherwise exactly that row gets the new value and keeps everything else,
   * whether or not it was already paid.
   */
  lemma NovoValorCorreto(s: Store, pid: int, valor: real)
    requires Valido(s)
    ensures var s' := NovoValor(s, pid, valor);
      s'.clientes == s.clientes && s'.emprestimos == s.emprestimos && s'.taxas == s.taxas &&
      |s'.parcelas| == |s.parcelas| &&
      forall i :: 0 <= i < |s.parcelas| ==>
        s'.parcelas[i] == (if s.parcelas[i].id == pid then s.parcelas[i].(valor := valor) else s.parcelas[i])
  {
    forall i | 0 <= i < |s.parcelas| && s.parcelas[i].id == pid
      ensures Localizar(s.parcelas, IdParcela, pid) == Some(i)
    {
      LocalizarUnico(s.parcelas, IdParcela, s.proximoParcelaId, pid, i);
    }
  }

  lemma NovoValorPreservaValido(s: Store, pid: int, valor: real)
    requires Valido(s)
    ensures Valido(NovoValor(s, pid, valor))
  {
    match Localizar(s.parcelas, IdParcela, pid)
    case None =>
    case Some(k) =>
      LinhaSubstituidaValida(s, k, s.parcelas[k].(valor := valor));
  }

  // ---------------------------------------------------------------------
  // The service itself, working on a database session.

  class EmprestimoService {
    const db: Db

    constructor (db: Db)
      ensures this.db == db
    {
      this.db := db;
    }

    /**
     * `_calcular_e_criar_parcelas`: computes the installment value once and
     * adds installments 1..n, due every 30 days after the start.
     */
    method CalcularECriarParcelas(e: Emprestimo)
      requires Calculavel(e.numeroParcelas, e.tipoJuros, e.taxaJurosComposto)
      modifies db`parcelas, db`proximoParcelaId
      ensures db.parcelas == old(db.parcelas) + Cronograma(e, old(db.proximoParcelaId))
      ensures db.proximoParcelaId == old(db.proximoParcelaId) + e.numeroParcelas
    {
      var v := ValorParcela(e.valor, e.numeroParcelas, e.tipoJuros, e.taxaJurosSimples, e.taxaJurosComposto);
      ghost var c := Cronograma(e, db.proximoParcelaId);
      var i := 1;
      while i <= e.numeroParcelas
        invariant 1 <= i <= e.numeroParcelas + 1
        invariant db.parcelas == old(db.parcelas) + c[..i - 1]
        invariant db.proximoParcelaId == old(db.proximoParcelaId) + i - 1
      {
        var p := Parcela(db.proximoParcelaId, e.id, i, v, e.dataInicio + 30 * i, false, None);
        assert c[..i] == c[..i - 1] + [p];
        db.parcelas := db.parcelas + [p];
        db.proximoParcelaId := db.proximoParcelaId + 1;
        i := i + 1;
      }
      assert c[..e.numeroParcelas] == c;
    }

    /** `create_emprestimo_com_parcelas`. */
    method CreateEmprestimoComParcelas(d: DadosNovoEmprestimo) returns (r: Outcome<Erro>)
      requires db.Valid() && PodeCriar(db.State(), d)
      modifies db
      ensures var c := Criacao(old(db.State()), d);
        (c.Failure? ==> r == Fail(c.error) && db.State() == old(db.State())) &&
        (c.Success? ==> r == Pass && db.State() == c.value)
      ensures db.Valid()
    {
      if db.taxas == [] {
        return Fail(TaxasNaoConfiguradas);
      }
      if !ClienteExiste(db.clientes, d.clienteId) {
        return Fail(ClienteInexistente);
      }
      ghost var s := db.State();
      var e := NovoEmprestimo(db.proximoEmprestimoId, d, db.taxas[0]);
      db.emprestimos := db.emprestimos + [e];
      db.proximoEmprestimoId := db.proximoEmprestimoId + 1;
      CalcularECriarParcelas(e);
      CriacaoPreservaValido(s, d);
      r := Pass;
    }

    /** `update_emprestimo_com_parcelas`. */
    method UpdateEmprestimoComParcelas(id: int, d: DadosEdicao) returns (r: Outcome<Erro>)
      requires db.Valid() && PodeEditar(db.State(), id, d)
      modifies db
      ensures var c := Edicao(old(db.State()), id, d);
        (c.Failure? ==> r == Fail(c.error) && db.State() == old(db.State())) &&
        (c.Success? ==> r == Pass && db.State() == c.value)
      ensures db.Valid()
    {
      var k := Localizar(db.emprestimos, IdEmprestimo, id);
      if k.None? {
        return Fail(EmprestimoNaoEncontrado);
      }
      ghost var s := db.State();
      db.parcelas := Filter(db.parcelas, ForaDoEmprestimo(id));
      var e := Editado(db.emprestimos[k.value], d);
      assert Calculavel(e.numeroParcelas, e.tipoJuros, e.taxaJurosComposto) by {
        assert s.emprestimos[k.value].id == id;
      }
      db.emprestimos := db.emprestimos[k.value := e];
      CalcularECriarParcelas(e);
      assert db.State() == Edicao(s, id, d).value;
      EdicaoPreservaValido(s, id, d);
      r := Pass;
    }

    /** `delete_emprestimo`: the installments go first, then the loan. */
    method DeleteEmprestimo(id: int)
      requires db.Valid()
      modifies db
      ensures db.State() == Exclusao(old(db.State()), id)
      ensures db.Valid()
    {
      ghost var s := db.State();
      if EmprestimoExiste(db.emprestimos, id) {
        db.parcelas := Filter(db.parcelas, ForaDoEmprestimo(id));
        db.emprestimos := Filter(db.emprestimos, OutroEmprestimo(id));
      }
      ExclusaoPreservaValido(s, id);
    }

    /** `registrar_pagamento_parcela`, with today's date as `hoje`. */
    method RegistrarPagamentoParcela(pid: int, hoje: int) returns (r: Option<Parcela>)
      requires db.Valid()
      modifies db
      ensures r == ParcelaPaga(old(db.State()), pid, hoje)
      ensures db.State() == Pagamento(old(db.State()), pid, hoje)
      ensures db.Valid()
    {
      ghost var s := db.State();
      var k := Localizar(db.parcelas, IdParcela, pid);
      r := None;
      if k.Some? && !db.parcelas[k.value].pago {
        var p := Paga(db.parcelas[k.value], hoje);
        db.parcelas := db.parcelas[k.value := p];
        r := Some(p);
      }
      PagamentoPreservaValido(s, pid, hoje);
    }

    /** `update_valor_parcela`. */
    method UpdateValorParcela(pid: int, valor: real)
      requires db.Valid()
      modifies db
      ensures db.State() == NovoValor(old(db.State()), pid, valor)
      ensures db.Valid()
    {
      ghost var s := db.State();
      var k := Localizar(db.parcelas, IdParcela, pid);
      if k.Some? {
        db.parcelas := db.parcelas[k.value := db.parcelas[k.value].(valor := valor)];
      }
      NovoValorPreservaValido(s, pid, valor);
    }
  }
}
