/**
 * `TaxaJurosService`: the global rate configuration is a single row of the
 * `taxa_juros` table, created with every rate at zero the first time it is
 * asked for, and whose three rates can then be replaced.
 */
module TaxaJurosService {
  import opened Wrappers
  import opened Models
  import opened Database
  import opened EmprestimoService

  /** The store after `get_taxas`: a default row is inserted when the table is empty. */
  function ComTaxas(s: Store): Store {
    if s.taxas != [] then s
    else s.(taxas := [TaxaJurosPadrao(s.proximoTaxaId)], proximoTaxaId := s.proximoTaxaId + 1)
  }

  /** The row `get_taxas` returns: the first one, after the table has been filled. */
  function Taxas(s: Store): TaxaJuros {
    ComTaxas(s).taxas[0]
  }

  /** The store after `atualizar_taxas`: the three rates of that row replaced. */
  function Atualizacao(s: Store, simples: real, composto: real, mora: real): Store {
    var s1 := ComTaxas(s);
    s1.(taxas := s1.taxas[0 := s1.taxas[0].(taxaJurosSimples := simples,
                                             taxaJurosComposto := composto,
                                             taxaJurosMora := mora)])
  }

  /**
   * With a row present, `get_taxas` returns the first row and changes
   * nothing. With none, it adds exactly one row, every rate zero, and
   * touches no other table.
   */
  lemma GetTaxasCorreto(s: Store)
    ensures s.taxas != [] ==> ComTaxas(s) == s && Taxas(s) == s.taxas[0]
    ensures s.taxas == [] ==>
      |ComTaxas(s).taxas| == 1 &&
      Taxas(s).taxaJurosSimples == 0.0 && Taxas(s).taxaJurosComposto == 0.0 && Taxas(s).taxaJurosMora == 0.0 &&
      ComTaxas(s).clientes == s.clientes && ComTaxas(s).emprestimos == s.emprestimos &&
      ComTaxas(s).parcelas == s.parcelas
  {
  }

  /** Asking again changes nothing, and the table never grows past one row from at most one. */
  lemma GetTaxasIdempotente(s: Store)
    ensures ComTaxas(ComTaxas(s)) == ComTaxas(s)
    ensures Taxas(ComTaxas(s)) == Taxas(s)
    ensures |s.taxas| <= 1 ==> |ComTaxas(s).taxas| == 1
    ensures |ComTaxas(s).taxas| == if s.taxas == [] then 1 else |s.taxas|
  {
  }

  /**
   * `atualizar_taxas` leaves exactly the three given rates in the returned
   * row, keeps its key, keeps every other row and table, and the loan service
   * then reads that row as its configuration.
   */
  lemma AtualizacaoCorreta(s: Store, simples: real, composto: real, mora: real)
    ensures var s' := Atualizacao(s, simples, composto, mora);
      |s'.taxas| == |ComTaxas(s).taxas| &&
      s'.taxas[0] == TaxaJuros(Taxas(s).id, simples, composto, mora) &&
      s'.taxas[1..] == ComTaxas(s).taxas[1..] &&
      s'.clientes == s.clientes && s'.emprestimos == s.emprestimos && s'.parcelas == s.parcelas &&
      GetTaxasConfig(s') == Some(TaxaJuros(Taxas(s).id, simples, composto, mora))
  {
  }

  lemma AtualizacaoPreservaValido(s: Store, simples: real, composto: real, mora: real)
    requires Valido(s)
    ensures Valido(ComTaxas(s))
    ensures Valido(Atualizacao(s, simples, composto, mora))
  {
    var s1 := ComTaxas(s);
    TaxasSubstituidasValidas(s, s1.taxas, s1.proximoTaxaId);
    assert s1 == s.(taxas := s1.taxas, proximoTaxaId := s1.proximoTaxaId);
    var ts := Atualizacao(s, simples, composto, mora).taxas;
    assert forall i :: 0 <= i < |ts| ==> ts[i].id == s1.taxas[i].id;
    TaxasSubstituidasValidas(s, ts, s1.proximoTaxaId);
    assert Atualizacao(s, simples, composto, mora) == s.(taxas := ts, proximoTaxaId := s1.proximoTaxaId);
  }

  /**
   * A loan created after `atualizar_taxas` snapshots exactly the rates just
   * set; the configuration is read by `get_taxas_config`, which finds the row
   * `atualizar_taxas` wrote.
   */
  lemma {:induction false} CriacaoUsaTaxasAtualizadas(s: Store, simples: real, composto: real, mora: real,
                                                       d: DadosNovoEmprestimo)
    requires Valido(s)
    requires PodeCriar(Atualizacao(s, simples, composto, mora), d)
    requires ClienteExiste(s.clientes, d.clienteId)
    ensures var s' := Atualizacao(s, simples, composto, mora);
      Criacao(s', d).Success? &&
      var e := Criacao(s', d).value.emprestimos[|s.emprestimos|];
      e.clienteId == d.clienteId && e.valor == d.valor &&
      e.taxaJurosSimples == simples && e.taxaJurosComposto == composto && e.taxaJurosMora == mora
  {
    var s' := Atualizacao(s, simples, composto, mora);
    AtualizacaoPreservaValido(s, simples, composto, mora);
    CriacaoCorreta(s', d);
  }

  class TaxaJurosService {
    const db: Db

    constructor (db: Db)
      ensures this.db == db
    {
      this.db := db;
    }

    /** `get_taxas`: get-or-create of the configuration row. */
    method GetTaxas() returns (t: TaxaJuros)
      requires db.Valid()
      modifies db`taxas, db`proximoTaxaId
      ensures db.State() == ComTaxas(old(db.State()))
      ensures t == Taxas(old(db.State())) && db.taxas != [] && t == db.taxas[0]
      ensures db.Valid()
    {
      AtualizacaoPreservaValido(db.State(), 0.0, 0.0, 0.0);
      if db.taxas == [] {
        t := TaxaJurosPadrao(db.proximoTaxaId);
        db.taxas := [t];
        db.proximoTaxaId := db.proximoTaxaId + 1;
      } else {
        t := db.taxas[0];
      }
    }

    /** `atualizar_taxas`: assigns the three rates of the row `get_taxas` returns. */
    method AtualizarTaxas(simples: real, composto: real, mora: real) returns (t: TaxaJuros)
      requires db.Valid()
      modifies db`taxas, db`proximoTaxaId
      ensures db.State() == Atualizacao(old(db.State()), simples, composto, mora)
      ensures t == db.taxas[0] && t.taxaJurosSimples == simples && t.taxaJurosComposto == composto &&
              t.taxaJurosMora == mora
      ensures db.Valid()
    {
      ghost var s := db.State();
      t := GetTaxas();
      t := t.(taxaJurosSimples := simples, taxaJurosComposto := composto, taxaJurosMora := mora);
      db.taxas := db.taxas[0 := t];
      AtualizacaoPreservaValido(s, simples, composto, mora);
    }
  }
}
