/**
 * The new-loan dialog (`ui/emprestimo_dialog.py`): the live preview of the
 * installment value, the client selection kept in step with the search
 * completer, and the form data handed to the loan service.
 */
module UiEmprestimo {
  import opened Wrappers
  import opened Money
  import opened Models
  import opened Database
  import opened Amortization
  import opened EmprestimoService
  import ClienteService

  // ---------------------------------------------------------------------
  // The preview, as written and as documented.

  /**
   * `_calcular_valor_parcela` as written: 0.00 without rates or for a
   * non-positive term, and the service's formulas otherwise; but a compound
   * rate of 0 returns P/n without rounding. None is the division by zero
   * the caller reports as an invalid calculation.
   */
  function PreviaComoEscrita(taxas: Option<TaxaJuros>, valor: real, n: int, simples: bool): (r: Option<real>)
    ensures taxas.None? || n <= 0 ==> r == Some(0.0)
  {
    if taxas.None? then Some(0.0)
    else if n <= 0 then Some(0.0)
    else if simples then
      Some(Round2(ValorParcelaExato(valor, n, Simples, taxas.value.taxaJurosSimples, taxas.value.taxaJurosComposto)))
    else
      var taxa := taxas.value.taxaJurosComposto / 100.0;
      if taxa == 0.0 then Some(valor / n as real)
      else
        var fator := Pow(1.0 + taxa, n);
        if fator == 1.0 then None
        else Some(Round2(Anuidade(valor, taxa, fator)))
  }

  /** The preview as its own documentation states it: every branch rounded to cents. */
  function Previa(taxas: Option<TaxaJuros>, valor: real, n: int, simples: bool): (r: Option<real>)
    ensures taxas.None? || n <= 0 ==> r == Some(0.0)
    ensures r.Some? ==> OnCentGrid(r.value)
  {
    if taxas.None? || n <= 0 then
      assert OnCentGrid(0.0) by { assert (0.0 * 100.0).Floor == 0; }
      Some(0.0)
    else if simples then
      Some(Round2(ValorParcelaExato(valor, n, Simples, taxas.value.taxaJurosSimples, taxas.value.taxaJurosComposto)))
    else
      var taxa := taxas.value.taxaJurosComposto / 100.0;
      if taxa == 0.0 then Some(Round2(valor / n as real))
      else
        var fator := Pow(1.0 + taxa, n);
        if fator == 1.0 then None
        else Some(Round2(Anuidade(valor, taxa, fator)))
  }

  /** What the preview label shows for a computed value: `f"R$ {v:,.2f}"` rounds it to cents, half to even. */
  function Exibida(v: Option<real>): (r: Option<real>)
    ensures r.None? <==> v.None?
    ensures r.Some? ==> OnCentGrid(r.value)
  {
    match v
    case None => None
    case Some(x) => Some(Round2(x))
  }

  /**
   * The label hides the unrounded branch: formatting the as-written value
   * shows exactly the documented, fully rounded preview, for every input.
   */
  lemma PreviaExibida(taxas: Option<TaxaJuros>, valor: real, n: int, simples: bool)
    ensures Exibida(PreviaComoEscrita(taxas, valor, n, simples)) == Previa(taxas, valor, n, simples)
  {
    var w := PreviaComoEscrita(taxas, valor, n, simples);
    var p := Previa(taxas, valor, n, simples);
    if w.Some? && p.Some? {
      if taxas.None? || n <= 0 || simples || taxas.value.taxaJurosComposto / 100.0 != 0.0 {
        // every branch but the compound 0% one already rounded: rounding again keeps it
        assert OnCentGrid(w.value);
      } else {
        assert w.value == valor / n as real;
      }
    }
  }

  /**
   * The helper as written returns P/n unrounded: 100 over 3 at 0% gives
   * 33.333…, against its documented two places. The label rounds it to
   * 33.33, the value the service stores.
   */
  lemma PreviaComoEscritaNaoArredonda()
    ensures var t := Some(TaxaJuros(1, 0.0, 0.0, 0.0));
      PreviaComoEscrita(t, 100.0, 3, false) == Some(100.0 / 3.0) &&
      !OnCentGrid(100.0 / 3.0) &&
      ValorParcela(100.0, 3, Composto, 0.0, 0.0) == Cents(3333) &&
      Previa(t, 100.0, 3, false) == Some(ValorParcela(100.0, 3, Composto, 0.0, 0.0)) &&
      Exibida(PreviaComoEscrita(t, 100.0, 3, false)) == Some(Cents(3333))
  {
    var x := 100.0 / 3.0;
    assert (x * 100.0).Floor == 3333;
    assert ValorParcelaExato(100.0, 3, Composto, 0.0, 0.0) == x;
  }

  /** Simple regime: the rounded preview is the value the service stores. */
  lemma PreviaSimples(t: TaxaJuros, valor: real, n: int)
    requires n >= 1
    ensures Previa(Some(t), valor, n, true) ==
            Some(ValorParcela(valor, n, Simples, t.taxaJurosSimples, t.taxaJurosComposto))
  {
  }

  /** Compound regime at 0%: the as-written preview is the unrounded P/n, the rounded one the stored value. */
  lemma PreviaCompostoTaxaZero(t: TaxaJuros, valor: real, n: int)
    requires n >= 1 && t.taxaJurosComposto / 100.0 == 0.0
    ensures PreviaComoEscrita(Some(t), valor, n, false) == Some(valor / n as real)
    ensures Previa(Some(t), valor, n, false) ==
            Some(ValorParcela(valor, n, Composto, t.taxaJurosSimples, t.taxaJurosComposto))
  {
  }

  /**
   * Compound regime with a non-zero rate: the preview is the rounded annuity
   * the service stores, and is unavailable exactly when the divisor vanishes.
   */
  lemma PreviaCompostoAnuidade(t: TaxaJuros, valor: real, n: int)
    requires n >= 1 && t.taxaJurosComposto / 100.0 != 0.0
    ensures Previa(Some(t), valor, n, false).None? <==> !Calculavel(n, Composto, t.taxaJurosComposto)
    ensures Calculavel(n, Composto, t.taxaJurosComposto) ==>
              PreviaComoEscrita(Some(t), valor, n, false) ==
              Some(ValorParcela(valor, n, Composto, t.taxaJurosSimples, t.taxaJurosComposto))
  {
    var taxa := t.taxaJurosComposto / 100.0;
    var fator := Pow(1.0 + taxa, n);
    if fator != 1.0 {
      assert ValorParcelaExato(valor, n, Composto, t.taxaJurosSimples, t.taxaJurosComposto)
             == Anuidade(valor, taxa, fator);
    }
  }

  // ---------------------------------------------------------------------
  // Client completer.

  /** The completer entry for a client: "nome (cpf)". */
  function Rotulo(c: Cliente): string {
    c.nome + " (" + c.cpf + ")"
  }

  /** `{f"{c.nome} ({c.cpf})": c.id for c in clientes}`: a later client with the same label wins. */
  function MapaDe(cs: seq<Cliente>): map<string, int> {
    if cs == [] then map[] else MapaDe(cs[..|cs| - 1])[Rotulo(cs[|cs| - 1]) := cs[|cs| - 1].id]
  }

  /** The map's keys in insertion order, as `list(new_map.keys())` gives them. */
  function Rotulos(cs: seq<Cliente>): seq<string> {
    if cs == [] then []
    else
      var anteriores := Rotulos(cs[..|cs| - 1]);
      if Rotulo(cs[|cs| - 1]) in anteriores then anteriores else anteriores + [Rotulo(cs[|cs| - 1])]
  }

  /** The map's keys are exactly the listed clients' labels. */
  lemma {:induction false} MapaDeChaves(cs: seq<Cliente>)
    ensures forall k :: k in MapaDe(cs) <==> exists i :: 0 <= i < |cs| && Rotulo(cs[i]) == k
  {
    if cs != [] {
      var n := |cs| - 1;
      var pre := cs[..n];
      MapaDeChaves(pre);
      forall k ensures k in MapaDe(cs) <==> exists i :: 0 <= i < |cs| && Rotulo(cs[i]) == k {
        if k in MapaDe(pre) {
          var i :| 0 <= i < |pre| && Rotulo(pre[i]) == k;
          assert cs[i] == pre[i];
        }
        if k !in MapaDe(pre) && k != Rotulo(cs[n]) {
          forall i | 0 <= i < |cs| ensures Rotulo(cs[i]) != k {
            if i < n {
              assert cs[i] == pre[i];
            }
          }
        }
      }
    }
  }

  /** A client whose label no later client repeats maps to its own key. */
  lemma {:induction false} MapaDeValor(cs: seq<Cliente>)
    ensures forall i :: 0 <= i < |cs| && (forall j :: i < j < |cs| ==> Rotulo(cs[j]) != Rotulo(cs[i])) ==>
              Rotulo(cs[i]) in MapaDe(cs) && MapaDe(cs)[Rotulo(cs[i])] == cs[i].id
  {
    if cs != [] {
      var n := |cs| - 1;
      var pre := cs[..n];
      MapaDeValor(pre);
      forall i | 0 <= i < n && (forall j :: i < j < |cs| ==> Rotulo(cs[j]) != Rotulo(cs[i]))
        ensures Rotulo(cs[i]) in MapaDe(cs) && MapaDe(cs)[Rotulo(cs[i])] == cs[i].id
      {
        assert cs[i] == pre[i];
        forall j | i < j < |pre| ensures Rotulo(pre[j]) != Rotulo(pre[i]) {
          assert pre[j] == cs[j];
        }
        assert Rotulo(cs[n]) != Rotulo(cs[i]);
      }
    }
  }

  /** The suggestion list holds exactly the map's keys. */
  lemma {:induction false} RotulosChaves(cs: seq<Cliente>)
    ensures forall k :: k in Rotulos(cs) <==> k in MapaDe(cs)
  {
    if cs != [] {
      RotulosChaves(cs[..|cs| - 1]);
    }
  }

  /** The suggestion list holds each label once. */
  lemma {:induction false} RotulosDistintos(cs: seq<Cliente>)
    ensures forall i, j :: 0 <= i < j < |Rotulos(cs)| ==> Rotulos(cs)[i] != Rotulos(cs)[j]
  {
    if cs != [] {
      RotulosDistintos(cs[..|cs| - 1]);
    }
  }

  /**
   * Every label in the map belongs to a listed client and maps to the key
   * of the last such client; the suggestion list holds each key once, and
   * exactly the map's keys.
   */
  lemma MapaDeCorreto(cs: seq<Cliente>)
    ensures forall k :: k in MapaDe(cs) <==> exists i :: 0 <= i < |cs| && Rotulo(cs[i]) == k
    ensures forall i :: 0 <= i < |cs| && (forall j :: i < j < |cs| ==> Rotulo(cs[j]) != Rotulo(cs[i])) ==>
              MapaDe(cs)[Rotulo(cs[i])] == cs[i].id
    ensures forall k :: k in Rotulos(cs) <==> k in MapaDe(cs)
    ensures forall i, j :: 0 <= i < j < |Rotulos(cs)| ==> Rotulos(cs)[i] != Rotulos(cs)[j]
  {
    MapaDeChaves(cs);
    MapaDeValor(cs);
    RotulosChaves(cs);
    RotulosDistintos(cs);
  }

  // ---------------------------------------------------------------------
  // The dialog.

  /** What the amount spin box holds after `setValue(x)`: two decimals, within 0.01..1 000 000. */
  function CampoValor(x: real): (r: real)
    ensures 0.01 <= r <= 1000000.0 && OnCentGrid(r)
    ensures OnCentGrid(x) && 0.01 <= x <= 1000000.0 ==> r == x
  {
    var c := Clamp(Round2(x), 0.01, 1000000.0);
    assert OnCentGrid(Cents(1)) && OnCentGrid(Cents(100000000));
    assert Cents(1) == 0.01 && Cents(100000000) == 1000000.0;
    c
  }

  /** How `accept` ends. */
  datatype Resposta =
    | SemCliente  // no client selected: a warning, the dialog stays open
    | Salvo       // the service created the loan and its installments
    | Falhou      // the service raised; the error is shown

  class EmprestimoDialog {
    const clienteService: ClienteService.ClienteService
    const service: EmprestimoService
    var taxas: Option<TaxaJuros>
    var selectedClienteId: Option<int>
    var completerClienteMap: map<string, int>
    var sugestoes: seq<string>
    var texto: string
    var valor: real
    var numeroParcelas: int
    var dataInicio: int
    var simples: bool
    var previa: Option<real>

    /** The spin boxes' ranges, and the preview in step with the form. */
    predicate Valid()
      reads this
    {
      0.01 <= valor <= 1000000.0 && 1 <= numeroParcelas <= 120 &&
      previa == Previa(taxas, valor, numeroParcelas, simples)
    }

    /**
     * A fresh dialog: the current rates loaded once, no client,
     * R$ 1000.00 over 12 simple-interest installments from today.
     */
    constructor (clienteService: ClienteService.ClienteService, service: EmprestimoService, hoje: int)
      ensures this.clienteService == clienteService && this.service == service
      ensures taxas == GetTaxasConfig(service.db.State()) && selectedClienteId.None? && completerClienteMap == map[]
      ensures texto == "" && sugestoes == []
      ensures valor == 1000.0 && numeroParcelas == 12 && dataInicio == hoje && simples
      ensures Valid()
    {
      this.clienteService := clienteService;
      this.service := service;
      taxas := GetTaxasConfig(service.db.State());
      selectedClienteId := None;
      completerClienteMap := map[];
      sugestoes := [];
      texto := "";
      valor := 1000.0;
      numeroParcelas := 12;
      dataInicio := hoje;
      simples := true;
      new;
      UpdateParcelaPreview();
    }

    /** `_update_parcela_preview`: the helper's value, formatted to two places (None: "Cálculo inválido"). */
    method UpdateParcelaPreview()
      modifies this`previa
      ensures previa == Previa(taxas, valor, numeroParcelas, simples)
    {
      var v := PreviaComoEscrita(taxas, valor, numeroParcelas, simples);
      previa := Exibida(v);
      PreviaExibida(taxas, valor, numeroParcelas, simples);
    }

    /** Editing the amount: the spin box clamps and rounds it, and the preview follows. */
    method SetValor(v: real)
      requires Valid()
      modifies this`valor, this`previa
      ensures valor == CampoValor(v) && Valid()
    {
      valor := CampoValor(v);
      UpdateParcelaPreview();
    }

    method SetNumeroParcelas(n: int)
      requires Valid()
      modifies this`numeroParcelas, this`previa
      ensures numeroParcelas == ClampInt(n, 1, 120) && Valid()
    {
      numeroParcelas := ClampInt(n, 1, 120);
      UpdateParcelaPreview();
    }

    method SetSimples(b: bool)
      requires Valid()
      modifies this`simples, this`previa
      ensures simples == b && Valid()
    {
      simples := b;
      UpdateParcelaPreview();
    }

    method SetDataInicio(d: int)
      modifies this`dataInicio
      ensures dataInicio == d
    {
      dataInicio := d;
    }

    /**
     * `_update_cliente_completer(text)`: text that is not a completer key
     * clears the selection; a text shorter than 2 empties the completer; a
     * text that is already a key keeps everything; otherwise the completer
     * is rebuilt from the first 10 search results.
     */
    method UpdateClienteCompleter(text: string)
      modifies this`selectedClienteId, this`completerClienteMap, this`sugestoes, this`texto
      ensures texto == text
      ensures selectedClienteId == if text in old(completerClienteMap) then old(selectedClienteId) else None
      ensures |text| < 2 ==> completerClienteMap == map[] && sugestoes == []
      ensures |text| >= 2 && text in old(completerClienteMap) ==>
                completerClienteMap == old(completerClienteMap) && sugestoes == old(sugestoes)
      ensures |text| >= 2 && text !in old(completerClienteMap) ==>
                var cs := ClienteService.SearchClientes(clienteService.db.State(), text, Some(10), None);
                completerClienteMap == MapaDe(cs) && sugestoes == Rotulos(cs)
    {
      texto := text;
      if text !in completerClienteMap {
        selectedClienteId := None;
      }
      if |text| < 2 {
        sugestoes := [];
        completerClienteMap := map[];
        return;
      }
      if text in completerClienteMap {
        return;
      }
      var cs := ClienteService.SearchClientes(clienteService.db.State(), text, Some(10), None);
      completerClienteMap := MapaDe(cs);
      sugestoes := Rotulos(cs);
    }

    /** `_set_selected_cliente`: the key of the chosen entry, or nothing. */
    method SetSelectedCliente(completionText: string)
      modifies this`selectedClienteId
      ensures selectedClienteId ==
        if completionText in completerClienteMap then Some(completerClienteMap[completionText]) else None
    {
      if completionText in completerClienteMap {
        selectedClienteId := Some(completerClienteMap[completionText]);
      } else {
        selectedClienteId := None;
      }
    }

    /**
     * `set_initial_client`: a missing or zero id does nothing; a known
     * client becomes the selection, its label enters the map and the search
     * text, and the completer's reaction to that text keeps the selection.
     */
    method SetInitialClient(clientId: Option<int>)
      modifies this`selectedClienteId, this`completerClienteMap, this`sugestoes, this`texto
      ensures var s := clienteService.db.State();
        clientId.None? || clientId.value == 0 || ClienteService.GetClienteById(s, clientId.value).None? ==>
        selectedClienteId == old(selectedClienteId) && completerClienteMap == old(completerClienteMap) &&
        texto == old(texto) && sugestoes == old(sugestoes)
      ensures var s := clienteService.db.State();
        clientId.Some? && clientId.value != 0 && ClienteService.GetClienteById(s, clientId.value).Some? ==>
        var c := ClienteService.GetClienteById(s, clientId.value).value;
        selectedClienteId == Some(c.id) && c.id == clientId.value && texto == Rotulo(c) &&
        completerClienteMap == old(completerClienteMap)[Rotulo(c) := c.id] && sugestoes == old(sugestoes)
    {
      if clientId.None? || clientId.value == 0 {
        return;
      }
      var cliente := ClienteService.GetClienteById(clienteService.db.State(), clientId.value);
      if cliente.Some? {
        var c := cliente.value;
        var rotulo := Rotulo(c);
        selectedClienteId := Some(c.id);
        completerClienteMap := completerClienteMap[rotulo := c.id];
        UpdateClienteCompleter(rotulo);
      }
    }

    /** `get_data`: nothing without a selected client (0 counts as none), else the form's fields. */
    function GetData(): (r: Option<DadosNovoEmprestimo>)
      reads this
      ensures r.None? <==> selectedClienteId.None? || selectedClienteId.value == 0
      ensures r.Some? ==> r.value.clienteId == selectedClienteId.value && r.value.valor == valor &&
                          r.value.numeroParcelas == numeroParcelas && r.value.dataInicio == dataInicio &&
                          r.value.tipoJuros == (if simples then Simples else Composto)
    {
      if selectedClienteId.None? || selectedClienteId.value == 0 then None
      else Some(DadosNovoEmprestimo(selectedClienteId.value, valor, numeroParcelas, dataInicio,
                                    if simples then Simples else Composto))
    }

    /**
     * `accept`: without a client nothing is sent; otherwise the service is
     * asked to create the loan from `get_data`, and its outcome is reported.
     */
    method Accept() returns (r: Resposta)
      requires service.db.Valid()
      modifies service.db
      ensures service.db.Valid()
      ensures GetData().None? ==> r == SemCliente && service.db.State() == old(service.db.State())
      ensures GetData().Some? ==>
                if PodeCriar(old(service.db.State()), GetData().value) then
                  var c := Criacao(old(service.db.State()), GetData().value);
                  (c.Success? ==> r == Salvo && service.db.State() == c.value) &&
                  (c.Failure? ==> r == Falhou && service.db.State() == old(service.db.State()))
                else r == Falhou && service.db.State() == old(service.db.State())
    {
      var data := GetData();
      if data.None? {
        return SemCliente;
      }
      if !PodeCriar(service.db.State(), data.value) {
        return Falhou;
      }
      var o := service.CreateEmprestimoComParcelas(data.value);
      r := if o.Pass? then Salvo else Falhou;
    }
  }

  /**
   * What the dialog submits is always something the service can compute:
   * the term is 1..120 and the amount positive, so with non-negative rates
   * the create call's assumptions hold.
   */
  lemma GetDataAceitavel(d: DadosNovoEmprestimo, s: Store)
    requires 0.01 <= d.valor <= 1000000.0 && 1 <= d.numeroParcelas <= 120
    requires forall i :: 0 <= i < |s.taxas| ==> s.taxas[i].taxaJurosComposto >= 0.0
    ensures PodeCriar(s, d) && d.valor > 0.0
  {
    if s.taxas != [] {
      TaxaNaoNegativaCalculavel(d.numeroParcelas, d.tipoJuros, s.taxas[0].taxaJurosComposto);
    }
  }
}
