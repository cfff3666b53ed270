/**
 * The relational store the services talk to: one table per model, each a
 * sequence in primary-key order, plus the next value of each auto-increment
 * key. Foreign keys and the unique CPF are enforced, as PostgreSQL and
 * MySQL enforce them; SQLite without `PRAGMA foreign_keys=ON` checks no
 * foreign key (see `EmprestimoService.CriacaoSemChaveEstrangeira`).
 */
module Database {
  import opened Wrappers
  import opened Models
  import opened Seqs

  datatype Store = Store(
    clientes: seq<Cliente>,
    emprestimos: seq<Emprestimo>,
    parcelas: seq<Parcela>,
    taxas: seq<TaxaJuros>,
    proximoClienteId: int,
    proximoEmprestimoId: int,
    proximoParcelaId: int,
    proximoTaxaId: int)

  /** Keys strictly increase along the table and stay below the next key to hand out. */
  predicate ChavesCrescentes<T>(s: seq<T>, key: T -> int, proxima: int) {
    (forall i, j :: 0 <= i < j < |s| ==> key(s[i]) < key(s[j])) &&
    (forall i :: 0 <= i < |s| ==> key(s[i]) < proxima)
  }

  function IdCliente(c: Cliente): int { c.id }
  function IdEmprestimo(e: Emprestimo): int { e.id }
  function IdParcela(p: Parcela): int { p.id }
  function IdTaxa(t: TaxaJuros): int { t.id }

  /** The position of the row whose key is `k`, if any (a primary-key lookup). */
  function Localizar<T>(s: seq<T>, key: T -> int, k: int): (r: Option<nat>)
    ensures r.Some? ==> r.value < |s| && key(s[r.value]) == k
    ensures r.None? <==> forall i :: 0 <= i < |s| ==> key(s[i]) != k
  {
    if s == [] then None
    else if key(s[0]) == k then Some(0)
    else match Localizar(s[1..], key, k)
         case None => None
         case Some(i) => Some(i + 1)
  }

  /** With unique keys, the lookup finds the one row carrying the key. */
  lemma LocalizarUnico<T>(s: seq<T>, key: T -> int, proxima: int, k: int, i: nat)
    requires ChavesCrescentes(s, key, proxima) && i < |s| && key(s[i]) == k
    ensures Localizar(s, key, k) == Some(i)
  {
    var r := Localizar(s, key, k);
    assert r.Some? && key(s[r.value]) == key(s[i]);
  }

  predicate ClienteExiste(clientes: seq<Cliente>, id: int) {
    exists i :: 0 <= i < |clientes| && clientes[i].id == id
  }

  predicate EmprestimoExiste(emprestimos: seq<Emprestimo>, id: int) {
    exists i :: 0 <= i < |emprestimos| && emprestimos[i].id == id
  }

  /** The installment numbers of loan `eid`, in table order. */
  function NumerosDe(parcelas: seq<Parcela>, eid: int): seq<int> {
    if parcelas == [] then []
    else (if parcelas[0].emprestimoId == eid then [parcelas[0].numero] else []) + NumerosDe(parcelas[1..], eid)
  }

  /** The numbers 1..n. */
  function Faixa(n: nat): (r: seq<int>)
    ensures |r| == n && forall k :: 0 <= k < n ==> r[k] == k + 1
  {
    seq(n, k => k + 1)
  }

  /** Primary keys unique and below the counters. */
  predicate ChavesValidas(s: Store) {
    ChavesCrescentes(s.clientes, IdCliente, s.proximoClienteId) &&
    ChavesCrescentes(s.emprestimos, IdEmprestimo, s.proximoEmprestimoId) &&
    ChavesCrescentes(s.parcelas, IdParcela, s.proximoParcelaId) &&
    ChavesCrescentes(s.taxas, IdTaxa, s.proximoTaxaId)
  }

  /** `clientes.cpf` is unique. */
  predicate CpfUnico(clientes: seq<Cliente>) {
    forall i, j :: 0 <= i < j < |clientes| ==> clientes[i].cpf != clientes[j].cpf
  }

  /** Every foreign key names an existing row. */
  predicate ReferenciasValidas(s: Store) {
    (forall i :: 0 <= i < |s.emprestimos| ==> ClienteExiste(s.clientes, s.emprestimos[i].clienteId)) &&
    (forall i :: 0 <= i < |s.parcelas| ==> EmprestimoExiste(s.emprestimos, s.parcelas[i].emprestimoId))
  }

  /** A payment date is present exactly when the installment is paid. */
  predicate PagamentosCoerentes(parcelas: seq<Parcela>) {
    forall i :: 0 <= i < |parcelas| ==> (parcelas[i].pago <==> parcelas[i].dataPagamento.Some?)
  }

  /** Every loan has exactly its term of installments, numbered 1..n in table order. */
  predicate CronogramasCompletos(s: Store) {
    forall i :: 0 <= i < |s.emprestimos| ==>
      s.emprestimos[i].numeroParcelas >= 1 &&
      NumerosDe(s.parcelas, s.emprestimos[i].id) == Faixa(s.emprestimos[i].numeroParcelas)
  }

  /** The invariant every service operation preserves. */
  predicate Valido(s: Store) {
    ChavesValidas(s) && CpfUnico(s.clientes) && ReferenciasValidas(s) &&
    PagamentosCoerentes(s.parcelas) && CronogramasCompletos(s)
  }

  lemma {:induction false} NumerosDeConcat(a: seq<Parcela>, b: seq<Parcela>, eid: int)
    ensures NumerosDe(a + b, eid) == NumerosDe(a, eid) + NumerosDe(b, eid)
  {
    if a == [] {
      assert a + b == b;
    } else {
      var h := if a[0].emprestimoId == eid then [a[0].numero] else [];
      assert (a + b)[0] == a[0] && (a + b)[1..] == a[1..] + b;
      NumerosDeConcat(a[1..], b, eid);
      assert NumerosDe(a + b, eid) == h + NumerosDe(a[1..] + b, eid);
      assert NumerosDe(a, eid) == h + NumerosDe(a[1..], eid);
    }
  }

  lemma {:induction false} NumerosDeAusente(ps: seq<Parcela>, eid: int)
    requires forall i :: 0 <= i < |ps| ==> ps[i].emprestimoId != eid
    ensures NumerosDe(ps, eid) == []
  {
    if ps != [] {
      NumerosDeAusente(ps[1..], eid);
    }
  }

  /** Rewriting one row without touching its loan or number keeps every loan's numbers. */
  lemma {:induction false} NumerosDeAtualizar(ps: seq<Parcela>, k: nat, p: Parcela, eid: int)
    requires k < |ps| && p.emprestimoId == ps[k].emprestimoId && p.numero == ps[k].numero
    ensures NumerosDe(ps[k := p], eid) == NumerosDe(ps, eid)
  {
    if k > 0 {
      assert ps[k := p][1..] == ps[1..][k - 1 := p];
      NumerosDeAtualizar(ps[1..], k - 1, p, eid);
    }
  }

  /** Rewriting one installment row in place, keeping its keys and its number, keeps the invariant. */
  lemma LinhaSubstituidaValida(s: Store, k: nat, p: Parcela)
    requires Valido(s) && k < |s.parcelas|
    requires p.id == s.parcelas[k].id && p.emprestimoId == s.parcelas[k].emprestimoId && p.numero == s.parcelas[k].numero
    requires p.pago <==> p.dataPagamento.Some?
    ensures Valido(s.(parcelas := s.parcelas[k := p]))
  {
    var s' := s.(parcelas := s.parcelas[k := p]);
    assert ChavesValidas(s') by {
      assert forall i :: 0 <= i < |s.parcelas| ==> s'.parcelas[i].id == s.parcelas[i].id;
    }
    assert ReferenciasValidas(s') by {
      assert forall i :: 0 <= i < |s.parcelas| ==> s'.parcelas[i].emprestimoId == s.parcelas[i].emprestimoId;
    }
    assert CronogramasCompletos(s') by {
      forall i | 0 <= i < |s'.emprestimos|
        ensures NumerosDe(s'.parcelas, s'.emprestimos[i].id) == NumerosDe(s.parcelas, s.emprestimos[i].id)
      {
        NumerosDeAtualizar(s.parcelas, k, p, s.emprestimos[i].id);
      }
    }
  }

  /** The rate table does not take part in the other tables' constraints: any rate rows with increasing keys keep the invariant. */
  lemma TaxasSubstituidasValidas(s: Store, ts: seq<TaxaJuros>, proxima: int)
    requires Valido(s) && ChavesCrescentes(ts, IdTaxa, proxima)
    ensures Valido(s.(taxas := ts, proximoTaxaId := proxima))
  {
    var s' := s.(taxas := ts, proximoTaxaId := proxima);
    assert s'.clientes == s.clientes && s'.emprestimos == s.emprestimos && s'.parcelas == s.parcelas;
  }

  /** Any client rows with increasing keys, unique cpfs and every loan's client among them keep the invariant. */
  lemma ClientesSubstituidosValidos(s: Store, cs: seq<Cliente>, proxima: int)
    requires Valido(s) && ChavesCrescentes(cs, IdCliente, proxima) && CpfUnico(cs)
    requires forall i :: 0 <= i < |s.emprestimos| ==> ClienteExiste(cs, s.emprestimos[i].clienteId)
    ensures Valido(s.(clientes := cs, proximoClienteId := proxima))
  {
    var s' := s.(clientes := cs, proximoClienteId := proxima);
    assert s'.emprestimos == s.emprestimos && s'.parcelas == s.parcelas && s'.taxas == s.taxas;
  }

  /** With strictly increasing keys, a smaller key sits at a smaller index. */
  lemma IndiceCrescente<T>(s: seq<T>, key: T -> int, proxima: int, a: int, b: int)
    requires ChavesCrescentes(s, key, proxima) && 0 <= a < |s| && 0 <= b < |s| && key(s[a]) < key(s[b])
    ensures a < b
  {
  }

  /** Keys still increase after removing rows. */
  lemma {:induction false} FiltroMantemChaves<T>(s: seq<T>, key: T -> int, proxima: int, p: T -> bool)
    requires ChavesCrescentes(s, key, proxima)
    ensures ChavesCrescentes(Filter(s, p), key, proxima)
  {
    if s != [] {
      FiltroMantemChaves(s[1..], key, proxima, p);
      var r := Filter(s[1..], p);
      forall j | 0 <= j < |r| ensures key(s[0]) < key(r[j]) {
        assert r[j] in r;
        var m :| 0 <= m < |s[1..]| && s[1..][m] == r[j];
        assert s[m + 1] == r[j];
      }
      assert Filter(s, p) == (if p(s[0]) then [s[0]] else []) + r;
    }
  }

  /** Appending a row with the next key (and advancing the counter) keeps keys increasing. */
  lemma AcrescentarMantemChaves<T>(s: seq<T>, key: T -> int, proxima: int, x: T, nova: int)
    requires ChavesCrescentes(s, key, proxima) && key(x) >= proxima && key(x) < nova
    ensures ChavesCrescentes(s + [x], key, nova)
  {
  }

  /** An empty database is valid. */
  lemma VazioValido()
    ensures Valido(Store([], [], [], [], 1, 1, 1, 1))
  {
  }

  /** A session on the database: the tables the services read and write. */
  class Db {
    var clientes: seq<Cliente>
    var emprestimos: seq<Emprestimo>
    var parcelas: seq<Parcela>
    var taxas: seq<TaxaJuros>
    var proximoClienteId: int
    var proximoEmprestimoId: int
    var proximoParcelaId: int
    var proximoTaxaId: int

    /** An empty database whose auto-increment keys start at 1. */
    constructor ()
      ensures State() == Store([], [], [], [], 1, 1, 1, 1) && Valid()
    {
      clientes, emprestimos, parcelas, taxas := [], [], [], [];
      proximoClienteId, proximoEmprestimoId, proximoParcelaId, proximoTaxaId := 1, 1, 1, 1;
      VazioValido();
    }

    function State(): Store
      reads this
    {
      Store(clientes, emprestimos, parcelas, taxas,
            proximoClienteId, proximoEmprestimoId, proximoParcelaId, proximoTaxaId)
    }

    predicate Valid()
      reads this
    {
      Valido(State())
    }
  }
}
