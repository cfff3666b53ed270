/**
 * `ClienteService`: paged listing and search of clients, lookup by key, and
 * creating, updating and deleting clients. The `clientes.cpf` column is
 * unique and `nome`/`cpf` may not be NULL, so a write breaking either is
 * refused by the database and leaves it unchanged; deleting a client that
 * still has loans is refused too, since the loan's `cliente_id` may not be
 * NULL.
 */
module ClienteService {
  import opened Wrappers
  import opened Seqs
  import opened Models
  import opened Database

  // ---------------------------------------------------------------------
  // Case-insensitive LIKE, as `ilike` runs it: `%` matches any run of
  // characters, `_` any one character, and ASCII letters match either case.

  function Minuscula(c: char): char {
    if 'A' <= c <= 'Z' then (c as int + 32) as char else c
  }

  function Like(padrao: string, s: string): bool
    decreases |padrao| + |s|
  {
    if padrao == [] then s == []
    else if padrao[0] == '%' then Like(padrao[1..], s) || (s != [] && Like(padrao, s[1..]))
    else s != [] && (padrao[0] == '_' || Minuscula(padrao[0]) == Minuscula(s[0])) && Like(padrao[1..], s[1..])
  }

  predicate SemCuringa(t: string) {
    forall i :: 0 <= i < |t| ==> t[i] != '%' && t[i] != '_'
  }

  /** `t` starts `s`, ignoring ASCII case. */
  predicate PrefixoSemCaixa(t: string, s: string) {
    |t| <= |s| && forall k :: 0 <= k < |t| ==> Minuscula(t[k]) == Minuscula(s[k])
  }

  /** `t` occurs somewhere in `s`, ignoring ASCII case. */
  predicate ContemSemCaixa(s: string, t: string) {
    exists i :: 0 <= i <= |s| - |t| && PrefixoSemCaixa(t, s[i..])
  }

  lemma {:induction false} LikeTudo(s: string)
    ensures Like("%", s)
  {
    if s != [] {
      LikeTudo(s[1..]);
    }
  }

  lemma {:induction false} LikePrefixo(t: string, s: string)
    requires SemCuringa(t)
    ensures Like(t + "%", s) <==> PrefixoSemCaixa(t, s)
  {
    if t == [] {
      assert t + "%" == "%";
      LikeTudo(s);
    } else {
      assert (t + "%")[0] == t[0] && (t + "%")[1..] == t[1..] + "%";
      assert SemCuringa(t[1..]);
      if s != [] {
        LikePrefixo(t[1..], s[1..]);
        if PrefixoSemCaixa(t, s) {
          assert PrefixoSemCaixa(t[1..], s[1..]);
        }
        if PrefixoSemCaixa(t[1..], s[1..]) && Minuscula(t[0]) == Minuscula(s[0]) {
          assert forall k :: 1 <= k < |t| ==> t[k] == t[1..][k - 1] && s[k] == s[1..][k - 1];
        }
      }
    }
  }

  lemma {:induction false} LikeQualquerInicio(q: string, s: string)
    ensures Like("%" + q, s) <==> exists i :: 0 <= i <= |s| && Like(q, s[i..])
  {
    assert ("%" + q)[0] == '%' && ("%" + q)[1..] == q;
    if s == [] {
      assert s[0..] == s;
    } else {
      LikeQualquerInicio(q, s[1..]);
      assert s[0..] == s;
      assert forall i :: 0 <= i <= |s[1..]| ==> s[1..][i..] == s[i + 1..];
      if exists i :: 0 <= i <= |s| && Like(q, s[i..]) {
        var i :| 0 <= i <= |s| && Like(q, s[i..]);
        if i > 0 {
          assert s[1..][i - 1..] == s[i..];
        }
      }
    }
  }

  /**
   * The search pattern `%term%` with a term holding no wildcard matches
   * exactly the strings containing the term, ignoring ASCII case.
   */
  lemma LikeContem(t: string, s: string)
    requires SemCuringa(t)
    ensures Like("%" + t + "%", s) <==> ContemSemCaixa(s, t)
  {
    assert "%" + t + "%" == "%" + (t + "%");
    LikeQualquerInicio(t + "%", s);
    forall i | 0 <= i <= |s| ensures Like(t + "%", s[i..]) <==> PrefixoSemCaixa(t, s[i..]) {
      LikePrefixo(t, s[i..]);
    }
  }

  /** A term holding `_` is a wildcard: "_" is found in a name that has no underscore. */
  lemma SublinhadoCuringa()
    ensures Like("%_%", "Ana") && !ContemSemCaixa("Ana", "_")
  {
    assert Like("%", "na") by { LikeTudo("na"); }
    assert Like("_%", "Ana");
    assert Like("%_%", "Ana");
    forall i | 0 <= i <= 2 ensures !PrefixoSemCaixa("_", "Ana"[i..]) {
      assert "Ana"[i..][0] == "Ana"[i];
    }
  }

  // ---------------------------------------------------------------------
  // Ordering by (nome, id): strings compare by code point, lexicographically.

  predicate StrLt(a: string, b: string) {
    if a == [] then b != []
    else b != [] && (a[0] < b[0] || (a[0] == b[0] && StrLt(a[1..], b[1..])))
  }

  lemma {:induction false} StrLtTransitivo(a: string, b: string, c: string)
    requires StrLt(a, b) && StrLt(b, c)
    ensures StrLt(a, c)
  {
    if a != [] && a[0] == b[0] && b[0] == c[0] {
      StrLtTransitivo(a[1..], b[1..], c[1..]);
    }
  }

  lemma {:induction false} StrLtTotal(a: string, b: string)
    ensures a == b || StrLt(a, b) || StrLt(b, a)
  {
    if a != [] && b != [] && a[0] == b[0] {
      StrLtTotal(a[1..], b[1..]);
      if a[1..] == b[1..] {
        assert a == [a[0]] + a[1..] && b == [b[0]] + b[1..];
      }
    }
  }

  function PorNomeId(a: Cliente, b: Cliente): bool {
    StrLt(a.nome, b.nome) || (a.nome == b.nome && a.id <= b.id)
  }

  function PorId(a: Cliente, b: Cliente): bool { a.id <= b.id }

  lemma PorNomeIdTotal()
    ensures TotalPreorder(PorNomeId)
  {
    forall a: Cliente, b: Cliente ensures PorNomeId(a, b) || PorNomeId(b, a) {
      StrLtTotal(a.nome, b.nome);
    }
    forall a: Cliente, b: Cliente, c: Cliente | PorNomeId(a, b) && PorNomeId(b, c) ensures PorNomeId(a, c) {
      if StrLt(a.nome, b.nome) && StrLt(b.nome, c.nome) {
        StrLtTransitivo(a.nome, b.nome, c.nome);
      }
    }
  }

  // ---------------------------------------------------------------------
  // Queries.

  /** `get_all_clientes`: ordered by id, then offset, then limit. */
  function GetAllClientes(s: Store, limit: Option<nat>, offset: Option<nat>): seq<Cliente> {
    Page(SortBy(s.clientes, PorId), offset, limit)
  }

  /** In key order already, the sort of `get_all_clientes` changes nothing. */
  lemma GetAllClientesSemOrdenar(s: Store, limit: Option<nat>, offset: Option<nat>)
    requires ChavesCrescentes(s.clientes, IdCliente, s.proximoClienteId)
    ensures GetAllClientes(s, limit, offset) == Page(s.clientes, offset, limit)
  {
    assert forall i, j :: 0 <= i < j < |s.clientes| ==> IdCliente(s.clientes[i]) < IdCliente(s.clientes[j]);
    assert SortedBy(s.clientes, PorId);
    SortByIdentidade(s.clientes, PorId);
  }

  /** A page of rows with increasing keys has increasing keys. */
  lemma PaginaCrescente(cs: seq<Cliente>, proxima: int, limit: Option<nat>, offset: Option<nat>)
    requires ChavesCrescentes(cs, IdCliente, proxima)
    ensures var r := Page(cs, offset, limit);
      forall i, j :: 0 <= i < j < |r| ==> r[i].id < r[j].id
  {
    var r := Page(cs, offset, limit);
    forall i, j | 0 <= i < j < |r| ensures r[i].id < r[j].id {
      PageIndex(cs, offset, limit, i);
      PageIndex(cs, offset, limit, j);
      assert IdCliente(cs[PageStart(cs, offset) + i]) < IdCliente(cs[PageStart(cs, offset) + j]);
    }
  }

  /**
   * In a valid store the table is already in key order, so the listing is
   * the slice of the table starting at `offset`, at most `limit` long, with
   * ids strictly increasing.
   */
  lemma GetAllClientesCorreto(s: Store, limit: Option<nat>, offset: Option<nat>)
    requires ChavesValidas(s)
    ensures var r := GetAllClientes(s, limit, offset);
      var o := if offset.Some? then (if offset.value < |s.clientes| then offset.value else |s.clientes|) else 0;
      (limit.Some? ==> |r| <= limit.value) &&
      |r| == (if limit.Some? && limit.value < |s.clientes| - o then limit.value else |s.clientes| - o) &&
      (forall i :: 0 <= i < |r| ==> r[i] == s.clientes[o + i]) &&
      (forall i, j :: 0 <= i < j < |r| ==> r[i].id < r[j].id)
  {
    GetAllClientesSemOrdenar(s, limit, offset);
    PaginaCrescente(s.clientes, s.proximoClienteId, limit, offset);
  }

  function GetClienteById(s: Store, id: int): (r: Option<Cliente>)
    ensures r.Some? ==> r.value in s.clientes && r.value.id == id
    ensures r.None? <==> !ClienteExiste(s.clientes, id)
  {
    match Localizar(s.clientes, IdCliente, id)
    case None => None
    case Some(k) => Some(s.clientes[k])
  }

  /** The search filter: nome or cpf matches `%termo%`. */
  function Casa(termo: string): Cliente -> bool {
    (c: Cliente) => Like("%" + termo + "%", c.nome) || Like("%" + termo + "%", c.cpf)
  }

  function Ordenados(s: Store): seq<Cliente> {
    SortBy(s.clientes, PorNomeId)
  }

  /** `search_clientes`: ordered by (nome, id), filtered when the term is not empty, then paged. */
  function SearchClientes(s: Store, termo: string, limit: Option<nat>, offset: Option<nat>): seq<Cliente> {
    Page(Encontrados(s, termo), offset, limit)
  }

  /** The rows a search can return before paging. */
  function Encontrados(s: Store, termo: string): seq<Cliente> {
    if termo != "" then Filter(Ordenados(s), Casa(termo)) else Ordenados(s)
  }

  /** Before paging, the search rows are ordered by (nome, id), are clients of the store and, with a term, match it. */
  lemma EncontradosCorreto(s: Store, termo: string)
    ensures SortedBy(Encontrados(s, termo), PorNomeId)
    ensures forall x :: x in Encontrados(s, termo) ==> x in s.clientes && (termo != "" ==> Casa(termo)(x))
  {
    var o := Ordenados(s);
    PorNomeIdTotal();
    SortBySorted(s.clientes, PorNomeId);
    FilterSorted(o, Casa(termo), PorNomeId);
    forall x | x in Encontrados(s, termo) ensures x in s.clientes {
      assert x in o;
      assert x in multiset(o);
    }
  }

  /**
   * A search returns at most `limit` clients, ordered by (nome, id), each a
   * client of the store; with a non-empty term each one's nome or cpf
   * matches the pattern, which for a term without wildcards means it
   * contains the term ignoring ASCII case.
   */
  lemma SearchClientesCorreto(s: Store, termo: string, limit: Option<nat>, offset: Option<nat>)
    ensures var r := SearchClientes(s, termo, limit, offset);
      (limit.Some? ==> |r| <= limit.value) &&
      SortedBy(r, PorNomeId) &&
      (forall i :: 0 <= i < |r| ==> r[i] in s.clientes) &&
      (termo != "" ==> forall i :: 0 <= i < |r| ==> Casa(termo)(r[i])) &&
      (termo != "" && SemCuringa(termo) ==>
         forall i :: 0 <= i < |r| ==> ContemSemCaixa(r[i].nome, termo) || ContemSemCaixa(r[i].cpf, termo))
  {
    var r := SearchClientes(s, termo, limit, offset);
    EncontradosCorreto(s, termo);
    PageSorted(Encontrados(s, termo), offset, limit, PorNomeId);
    forall i | 0 <= i < |r| ensures r[i] in s.clientes && (termo != "" ==> Casa(termo)(r[i])) {
      assert r[i] in r;
    }
    forall i | 0 <= i < |r| && termo != "" && SemCuringa(termo)
      ensures ContemSemCaixa(r[i].nome, termo) || ContemSemCaixa(r[i].cpf, termo)
    {
      LikeContem(termo, r[i].nome);
      LikeContem(termo, r[i].cpf);
    }
  }

  /**
   * Without paging, a search misses no client: every client whose nome or
   * cpf matches (every client, for an empty term) is returned.
   */
  lemma SearchClientesCompleto(s: Store, termo: string, c: Cliente)
    requires c in s.clientes
    requires termo == "" || Casa(termo)(c)
    ensures c in SearchClientes(s, termo, None, None)
  {
    var o := Ordenados(s);
    assert c in multiset(s.clientes);
    assert c in o;
    var m :| 0 <= m < |o| && o[m] == c;
    var base := Encontrados(s, termo);
    assert c in base;
    var k :| 0 <= k < |base| && base[k] == c;
    assert SearchClientes(s, termo, None, None)[k] == c;
  }

  // ---------------------------------------------------------------------
  // Writes.

  datatype Erro = ViolacaoIntegridade

  datatype DadosCliente = DadosCliente(
    nome: string, cpf: string, telefone: Option<string>, email: Option<string>, endereco: Option<string>)

  predicate CpfEmUso(clientes: seq<Cliente>, cpf: string) {
    exists i :: 0 <= i < |clientes| && clientes[i].cpf == cpf
  }

  /** `create_cliente`: the new row, or the unique-CPF violation. */
  function Cadastro(s: Store, d: DadosCliente): Result<(Store, Cliente), Erro> {
    if CpfEmUso(s.clientes, d.cpf) then Failure(ViolacaoIntegridade)
    else
      var c := Cliente(s.proximoClienteId, d.nome, d.cpf, d.telefone, d.email, d.endereco);
      Success((s.(clientes := s.clientes + [c], proximoClienteId := s.proximoClienteId + 1), c))
  }

  /** The columns `update_cliente` can assign, and one `setattr` of the loop. */
  datatype Campo = Nome | Cpf | Telefone | Email | Endereco
  datatype Atribuicao = Atribuicao(campo: Campo, valor: Option<string>)

  function ValorDe(c: Cliente, f: Campo): Option<string> {
    match f
    case Nome => Some(c.nome)
    case Cpf => Some(c.cpf)
    case Telefone => c.telefone
    case Email => c.email
    case Endereco => c.endereco
  }

  /** One `setattr`; a NULL for nome or cpf is refused at commit (see `Obrigatorios`). */
  function Atribuir(c: Cliente, a: Atribuicao): Cliente {
    match a.campo
    case Nome => if a.valor.Some? then c.(nome := a.valor.value) else c
    case Cpf => if a.valor.Some? then c.(cpf := a.valor.value) else c
    case Telefone => c.(telefone := a.valor)
    case Email => c.(email := a.valor)
    case Endereco => c.(endereco := a.valor)
  }

  /** The `setattr` loop applied in order. */
  function AplicarTodas(c: Cliente, data: seq<Atribuicao>): Cliente {
    if data == [] then c else Atribuir(AplicarTodas(c, data[..|data| - 1]), data[|data| - 1])
  }

  /** No assignment sets nome or cpf to NULL. */
  predicate Obrigatorios(data: seq<Atribuicao>) {
    forall i :: 0 <= i < |data| && (data[i].campo == Nome || data[i].campo == Cpf) ==> data[i].valor.Some?
  }

  /**
   * Applying the assignments keeps the key; a column no assignment names
   * keeps its value, and a named one ends with the value of the last
   * assignment naming it.
   */
  lemma {:induction false} AplicarTodasCorreto(c: Cliente, data: seq<Atribuicao>)
    requires Obrigatorios(data)
    ensures var r := AplicarTodas(c, data);
      r.id == c.id &&
      (forall f :: (forall i :: 0 <= i < |data| ==> data[i].campo != f) ==> ValorDe(r, f) == ValorDe(c, f)) &&
      (forall i :: 0 <= i < |data| && (forall j :: i < j < |data| ==> data[j].campo != data[i].campo) ==>
         ValorDe(r, data[i].campo) == data[i].valor)
  {
    if data != [] {
      var n := |data| - 1;
      var pre := data[..n];
      assert Obrigatorios(pre);
      AplicarTodasCorreto(c, pre);
      var r0 := AplicarTodas(c, pre);
      var r := Atribuir(r0, data[n]);
      assert forall f :: f != data[n].campo ==> ValorDe(r, f) == ValorDe(r0, f);
      assert ValorDe(r, data[n].campo) == data[n].valor;
      forall i | 0 <= i < |data| && (forall j :: i < j < |data| ==> data[j].campo != data[i].campo)
        ensures ValorDe(r, data[i].campo) == data[i].valor
      {
        if i < n {
          assert data[n].campo != data[i].campo;
          assert pre[i] == data[i];
          assert forall j :: i < j < |pre| ==> pre[j] == data[j];
        }
      }
      forall f | forall i :: 0 <= i < |data| ==> data[i].campo != f
        ensures ValorDe(r, f) == ValorDe(c, f)
      {
        assert data[n].campo != f;
        assert forall i :: 0 <= i < |pre| ==> pre[i] == data[i];
      }
    }
  }

  /** Another client than the one at `k` already has this cpf. */
  predicate CpfDeOutro(clientes: seq<Cliente>, k: nat, cpf: string) {
    exists i :: 0 <= i < |clientes| && i != k && clientes[i].cpf == cpf
  }

  /**
   * `update_cliente`: an unknown id returns None and changes nothing; a
   * NULL nome or cpf, or a cpf another client has, is refused; otherwise
   * the row is replaced by the updated record, which is returned.
   */
  function Alteracao(s: Store, id: int, data: seq<Atribuicao>): (Store, Result<Option<Cliente>, Erro>) {
    match Localizar(s.clientes, IdCliente, id)
    case None => (s, Success(None))
    case Some(k) =>
      var c := AplicarTodas(s.clientes[k], data);
      if !Obrigatorios(data) || CpfDeOutro(s.clientes, k, c.cpf) then (s, Failure(ViolacaoIntegridade))
      else (s.(clientes := s.clientes[k := c]), Success(Some(c)))
  }

  predicate TemEmprestimos(s: Store, id: int) {
    exists i :: 0 <= i < |s.emprestimos| && s.emprestimos[i].clienteId == id
  }

  function OutroCliente(id: int): Cliente -> bool {
    (c: Cliente) => c.id != id
  }

  /** `delete_cliente`: unknown id is a no-op; a client with loans cannot go. */
  function Remocao(s: Store, id: int): (Store, Outcome<Erro>) {
    if !ClienteExiste(s.clientes, id) then (s, Pass)
    else if TemEmprestimos(s, id) then (s, Fail(ViolacaoIntegridade))
    else (s.(clientes := Filter(s.clientes, OutroCliente(id))), Pass)
  }

  // The invariant across the three writes: keys, unique cpf and the loans' references.

  lemma CpfUnicoAcrescentar(cs: seq<Cliente>, c: Cliente)
    requires CpfUnico(cs) && !CpfEmUso(cs, c.cpf)
    ensures CpfUnico(cs + [c])
  {
  }

  lemma ExistemAposAcrescentar(s: Store, c: Cliente)
    requires ReferenciasValidas(s)
    ensures forall i :: 0 <= i < |s.emprestimos| ==> ClienteExiste(s.clientes + [c], s.emprestimos[i].clienteId)
  {
    forall i | 0 <= i < |s.emprestimos| ensures ClienteExiste(s.clientes + [c], s.emprestimos[i].clienteId) {
      assert ClienteExiste(s.clientes, s.emprestimos[i].clienteId);
      var j :| 0 <= j < |s.clientes| && s.clientes[j].id == s.emprestimos[i].clienteId;
      assert (s.clientes + [c])[j] == s.clientes[j];
    }
  }

  lemma ChavesAposAlterar(cs: seq<Cliente>, k: nat, c: Cliente, proxima: int)
    requires ChavesCrescentes(cs, IdCliente, proxima) && k < |cs| && c.id == cs[k].id
    ensures ChavesCrescentes(cs[k := c], IdCliente, proxima)
  {
    assert forall i :: 0 <= i < |cs| ==> cs[k := c][i].id == cs[i].id;
  }

  lemma CpfUnicoAposAlterar(cs: seq<Cliente>, k: nat, c: Cliente)
    requires CpfUnico(cs) && k < |cs| && !CpfDeOutro(cs, k, c.cpf)
    ensures CpfUnico(cs[k := c])
  {
    var t := cs[k := c];
    forall i, j | 0 <= i < j < |t| ensures t[i].cpf != t[j].cpf {
      if i == k {
        assert cs[j].cpf != c.cpf;
      } else if j == k {
        assert cs[i].cpf != c.cpf;
      }
    }
  }

  lemma ExistemAposAlterar(s: Store, k: nat, c: Cliente)
    requires ReferenciasValidas(s) && k < |s.clientes| && c.id == s.clientes[k].id
    ensures forall i :: 0 <= i < |s.emprestimos| ==> ClienteExiste(s.clientes[k := c], s.emprestimos[i].clienteId)
  {
    forall i | 0 <= i < |s.emprestimos| ensures ClienteExiste(s.clientes[k := c], s.emprestimos[i].clienteId) {
      assert ClienteExiste(s.clientes, s.emprestimos[i].clienteId);
      var j :| 0 <= j < |s.clientes| && s.clientes[j].id == s.emprestimos[i].clienteId;
      assert s.clientes[k := c][j].id == s.clientes[j].id;
    }
  }

  lemma CpfUnicoAposFiltrar(cs: seq<Cliente>, proxima: int, p: Cliente -> bool)
    requires ChavesCrescentes(cs, IdCliente, proxima) && CpfUnico(cs)
    ensures CpfUnico(Filter(cs, p))
  {
    var t := Filter(cs, p);
    FiltroMantemChaves(cs, IdCliente, proxima, p);
    forall i, j | 0 <= i < j < |t| ensures t[i].cpf != t[j].cpf {
      var a :| 0 <= a < |cs| && cs[a] == t[i];
      var b :| 0 <= b < |cs| && cs[b] == t[j];
      assert IdCliente(t[i]) < IdCliente(t[j]);
      IndiceCrescente(cs, IdCliente, proxima, a, b);
    }
  }

  lemma ExistemAposRemover(s: Store, id: int)
    requires ReferenciasValidas(s) && !TemEmprestimos(s, id)
    ensures forall i :: 0 <= i < |s.emprestimos| ==>
              ClienteExiste(Filter(s.clientes, OutroCliente(id)), s.emprestimos[i].clienteId)
  {
    var t := Filter(s.clientes, OutroCliente(id));
    forall i | 0 <= i < |s.emprestimos| ensures ClienteExiste(t, s.emprestimos[i].clienteId) {
      assert ClienteExiste(s.clientes, s.emprestimos[i].clienteId);
      var j :| 0 <= j < |s.clientes| && s.clientes[j].id == s.emprestimos[i].clienteId;
      assert s.emprestimos[i].clienteId != id;
      assert s.clientes[j] in s.clientes;
      assert s.clientes[j] in t;
      var m :| 0 <= m < |t| && t[m] == s.clientes[j];
    }
  }

  /**
   * Creating a client: refused, with nothing changed, exactly when the cpf
   * is taken; otherwise the new client is the last row, carries the given
   * data and a fresh key, and is found by that key.
   */
  lemma CadastroCorreto(s: Store, d: DadosCliente)
    requires Valido(s)
    ensures Cadastro(s, d).Failure? <==> CpfEmUso(s.clientes, d.cpf)
    ensures Cadastro(s, d).Success? ==>
      var (s', c) := Cadastro(s, d).value;
      !ClienteExiste(s.clientes, c.id) &&
      c.nome == d.nome && c.cpf == d.cpf && c.telefone == d.telefone && c.email == d.email &&
      c.endereco == d.endereco &&
      s'.clientes == s.clientes + [c] && GetClienteById(s', c.id) == Some(c) &&
      s'.emprestimos == s.emprestimos && s'.parcelas == s.parcelas && s'.taxas == s.taxas &&
      Valido(s')
  {
    if Cadastro(s, d).Success? {
      var (s', c) := Cadastro(s, d).value;
      var cs := s.clientes + [c];
      AcrescentarMantemChaves(s.clientes, IdCliente, s.proximoClienteId, c, s.proximoClienteId + 1);
      LocalizarUnico(cs, IdCliente, s.proximoClienteId + 1, c.id, |s.clientes|);
      CpfUnicoAcrescentar(s.clientes, c);
      ExistemAposAcrescentar(s, c);
      ClientesSubstituidosValidos(s, cs, s.proximoClienteId + 1);
    }
  }

  /**
   * Updating a client: an unknown id changes nothing and returns None;
   * otherwise the call is refused, with nothing changed, exactly when a
   * nome or cpf would become NULL or the cpf would clash with another
   * client's; else only that row changes, to the record returned, which
   * keeps its key. The store stays valid in every case.
   */
  lemma AlteracaoCorreta(s: Store, id: int, data: seq<Atribuicao>)
    requires Valido(s)
    ensures var (s', r) := Alteracao(s, id, data);
      (!ClienteExiste(s.clientes, id) ==> s' == s && r == Success(None)) &&
      (r.Failure? ==> s' == s) &&
      (forall k :: 0 <= k < |s.clientes| && s.clientes[k].id == id ==>
         (r.Failure? <==> !Obrigatorios(data) || CpfDeOutro(s.clientes, k, AplicarTodas(s.clientes[k], data).cpf)) &&
         (r.Success? ==>
            r.value == Some(AplicarTodas(s.clientes[k], data)) && r.value.value.id == id &&
            s'.clientes == s.clientes[k := r.value.value])) &&
      s'.emprestimos == s.emprestimos && s'.parcelas == s.parcelas && s'.taxas == s.taxas &&
      Valido(s')
  {
    forall k | 0 <= k < |s.clientes| && s.clientes[k].id == id
      ensures Localizar(s.clientes, IdCliente, id) == Some(k)
    {
      LocalizarUnico(s.clientes, IdCliente, s.proximoClienteId, id, k);
    }
    match Localizar(s.clientes, IdCliente, id)
    case None =>
    case Some(k) =>
      var c := AplicarTodas(s.clientes[k], data);
      if Obrigatorios(data) && !CpfDeOutro(s.clientes, k, c.cpf) {
        AplicarTodasCorreto(s.clientes[k], data);
        ChavesAposAlterar(s.clientes, k, c, s.proximoClienteId);
        CpfUnicoAposAlterar(s.clientes, k, c);
        ExistemAposAlterar(s, k, c);
        ClientesSubstituidosValidos(s, s.clientes[k := c], s.proximoClienteId);
        assert Alteracao(s, id, data).0 == s.(clientes := s.clientes[k := c], proximoClienteId := s.proximoClienteId);
      }
  }

  /**
   * Deleting a client: an unknown id is a no-op; a client with loans is
   * refused and nothing changes; otherwise exactly that client is gone and
   * every other one stays.
   */
  lemma RemocaoCorreta(s: Store, id: int)
    requires Valido(s)
    ensures var (s', r) := Remocao(s, id);
      (r.Fail? <==> ClienteExiste(s.clientes, id) && TemEmprestimos(s, id)) &&
      (r.Fail? || !ClienteExiste(s.clientes, id) ==> s' == s) &&
      !(ClienteExiste(s'.clientes, id) && r.Pass? && ClienteExiste(s.clientes, id)) &&
      (forall i :: 0 <= i < |s.clientes| && s.clientes[i].id != id ==> s.clientes[i] in s'.clientes) &&
      s'.emprestimos == s.emprestimos && s'.parcelas == s.parcelas && s'.taxas == s.taxas &&
      Valido(s')
  {
    if ClienteExiste(s.clientes, id) && !TemEmprestimos(s, id) {
      var t := Filter(s.clientes, OutroCliente(id));
      FiltroMantemChaves(s.clientes, IdCliente, s.proximoClienteId, OutroCliente(id));
      CpfUnicoAposFiltrar(s.clientes, s.proximoClienteId, OutroCliente(id));
      ExistemAposRemover(s, id);
      ClientesSubstituidosValidos(s, t, s.proximoClienteId);
      assert Remocao(s, id).0 == s.(clientes := t, proximoClienteId := s.proximoClienteId);
      forall i | 0 <= i < |t| ensures t[i].id != id {
        assert t[i] in t;
      }
      forall i | 0 <= i < |s.clientes| && s.clientes[i].id != id ensures s.clientes[i] in t {
        assert s.clientes[i] in s.clientes;
      }
    }
  }

  class ClienteService {
    const db: Db

    constructor (db: Db)
      ensures this.db == db
    {
      this.db := db;
    }

    /** `create_cliente`. */
    method CreateCliente(d: DadosCliente) returns (r: Result<Cliente, Erro>)
      requires db.Valid()
      modifies db`clientes, db`proximoClienteId
      ensures var c := Cadastro(old(db.State()), d);
        (c.Failure? ==> r == Failure(c.error) && db.State() == old(db.State())) &&
        (c.Success? ==> r == Success(c.value.1) && db.State() == c.value.0)
      ensures db.Valid()
    {
      ghost var s := db.State();
      CadastroCorreto(s, d);
      if CpfEmUso(db.clientes, d.cpf) {
        return Failure(ViolacaoIntegridade);
      }
      var c := Cliente(db.proximoClienteId, d.nome, d.cpf, d.telefone, d.email, d.endereco);
      db.clientes := db.clientes + [c];
      db.proximoClienteId := db.proximoClienteId + 1;
      r := Success(c);
    }

    /** `update_cliente`: the `setattr` loop over the submitted fields, then the commit. */
    method UpdateCliente(id: int, data: seq<Atribuicao>) returns (r: Result<Option<Cliente>, Erro>)
      requires db.Valid()
      modifies db`clientes
      ensures (db.State(), r) == Alteracao(old(db.State()), id, data)
      ensures db.Valid()
    {
      ghost var s := db.State();
      AlteracaoCorreta(s, id, data);
      var k := Localizar(db.clientes, IdCliente, id);
      if k.None? {
        return Success(None);
      }
      var c := db.clientes[k.value];
      var i := 0;
      while i < |data|
        invariant 0 <= i <= |data|
        invariant c == AplicarTodas(db.clientes[k.value], data[..i])
      {
        assert data[..i + 1][..i] == data[..i];
        c := Atribuir(c, data[i]);
        i := i + 1;
      }
      assert data[..|data|] == data;
      if !Obrigatorios(data) || CpfDeOutro(db.clientes, k.value, c.cpf) {
        return Failure(ViolacaoIntegridade);
      }
      db.clientes := db.clientes[k.value := c];
      r := Success(Some(c));
    }

    /** `delete_cliente`. */
    method DeleteCliente(id: int) returns (r: Outcome<Erro>)
      requires db.Valid()
      modifies db`clientes
      ensures (db.State(), r) == Remocao(old(db.State()), id)
      ensures db.Valid()
    {
      RemocaoCorreta(db.State(), id);
      if !ClienteExiste(db.clientes, id) {
        return Pass;
      }
      if TemEmprestimos(db.State(), id) {
        return Fail(ViolacaoIntegridade);
      }
      db.clientes := Filter(db.clientes, OutroCliente(id));
      r := Pass;
    }
  }
}
