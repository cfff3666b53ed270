# CrediGestor loan core in Dafny

A model of CrediGestor's loan core, with proofs about it. CrediGestor is a desktop application for managing personal loans. A lender uses it to register clients and lend them money over 1..120 monthly installments, under a simple or a compound interest regime. It also registers payments, adds late interest to an installment, and reads totals off a dashboard.

The model covers:

- **The loan service** (`EmprestimoService`):
  - the installment value and the schedule that is generated for a loan;
  - creating, editing and deleting a loan;
  - registering a payment and overriding an installment's value;
  - the lookups and the four read-side aggregates.
- **The rate configuration** (`TaxaJurosService`): a single row that is created on demand.
- **The client service** (`ClienteService`): paged listing, search, and the create, update and delete operations.
- **The three dialogs that hold business rules:**
  - new loan: the live preview value, the client completer and selection, the submitted data and `accept`;
  - edit loan: the principal lock after a payment, the confirmation and the submitted data;
  - edit installment: the late-interest value and its "not below the original" guard.
- **Two small utilities:**
  - the CPF check-digit generator of the seeding script;
  - the requirement-file parsing and missing-package selection done by the installer.

How the model is built:

- **Amounts and rates** are Dafny `real`s. They are exact rationals, standing in for Python `Decimal`.
- **Rounding.** `round(x, 2)` is half-even rounding to whole cents.
- **Dates** are day ordinals. "Today" is a parameter.
- **The database** is a `Store` value: one sequence per table in primary-key order, plus the next key of each table. A `Db` class holds it as fields.
- **Each service operation** has two parts:
  - a function from the store before to the store (and result) after;
  - a method on the service class. The method changes the `Db` step by step and is proved to reach exactly that store, keeping the invariant `Valido`.
- **Invariant `Valido`**, which every operation preserves:
  - unique increasing keys;
  - unique CPFs;
  - foreign keys that resolve;
  - a payment date exactly on paid installments;
  - every loan with installments 1..n.
- **The dialogs** are classes whose fields are the widgets' values. A spin box's `setValue` is modelled as clamp-and-round. The user's answer to a confirmation box is a boolean input.

Files:

- `wrappers.dfy`, `money.dfy`, `seqs.dfy`: Option and Result, cent rounding, and filtering, sorting and paging.
- `models.dfy`: the records.
- `database.dfy`: the store and its invariant.
- `amortization.dfy`: the installment formulas and the schedule.
- `emprestimo_service.dfy`, `reports.dfy`, `taxas_service.dfy`, `cliente_service.dfy`: the services.
- `emprestimo_dialog.dfy`, `edit_emprestimo_dialog.dfy`, `edit_parcela_dialog.dfy`: the dialogs.
- `seed_clientes.dfy`, `setup.dfy`: the utilities.

Where the code differs from its own documentation, the model follows the code:

- `_calcular_valor_parcela` documents a value rounded to two places, but returns the compound 0% case unrounded (see Findings). Its only caller formats the value with two places, so the label shows the rounded value all the same (`UiEmprestimo.PreviaExibida`).

Behaviour of the code worth knowing, which the model states:

- The financial summary counts the principal share once per unpaid installment row of the join.
- Editing a loan discards recorded payments: the service regenerates every installment as unpaid, as the edit dialog's confirmation warns. `UiEditEmprestimo.EdicaoDescartaPagamentos` states this.
- The service itself never checks a paid installment before an edit or a value override. Only the dialogs guard against it.

## Model

| member | source | states |
|---|---|---|
| Money.Round2 | services/emprestimo_service.py:63 | `round(d, 2)`: the result is a whole number of cents, within half a cent of the input, and equal to the input when that is already whole cents |
| Money.Round2Nearest | services/emprestimo_service.py:63 | no whole-cent amount is nearer to the input than the rounded one |
| Money.Round2TiesToEven | services/emprestimo_service.py:63 | a value exactly half-way between two cents rounds to the even cent (ROUND_HALF_EVEN) |
| Money.Round2Monotone | services/emprestimo_service.py:63 | rounding preserves the order of two amounts |
| Money.Clamp | ui/emprestimo_dialog.py:87-90 | a spin box's value lies within its range: unchanged inside the range, the nearer bound outside it |
| Money.ClampInt | ui/emprestimo_dialog.py:94-97 | the same for an integer spin box |
| Models.TaxaJurosPadrao | models/taxas_emprestimo.py:9-11 | a rate row created without arguments has all three rates at zero |
| Seqs.Filter | services/emprestimo_service.py:187 | a `WHERE` keeps exactly the rows satisfying the condition, never more rows than the table |
| Seqs.Page | services/cliente_service.py:42-45 | `OFFSET`/`LIMIT`: the result is the slice starting at the offset (empty past the end), of length min(limit, rest) |
| Seqs.SortBySorted | services/emprestimo_service.py:190 | `ORDER BY` under a total preorder returns a sorted permutation of the rows |
| Seqs.SortByIdentidade | services/cliente_service.py:41 | ordering rows that are already ordered leaves them as they are |
| Seqs.FilterSorted | services/cliente_service.py:121-124 | filtering an ordered result keeps it ordered |
| Database.Localizar | services/emprestimo_service.py:193 | a primary-key lookup finds a row with that key, and finds none exactly when no row has it |
| Database.LocalizarUnico | services/emprestimo_service.py:195 | with unique keys the lookup returns the one row carrying the key |
| Amortization.TaxaNaoNegativaCalculavel | services/emprestimo_service.py:56-61 | with n >= 1 and a non-negative rate the compound divisor `(1+r)^n - 1` is never zero |
| Amortization.ValorParcela | services/emprestimo_service.py:51-63 | the stored installment value is whole cents and within half a cent of the exact simple or annuity value |
| Amortization.SimplesSomaTotal | services/emprestimo_service.py:52-54 | simple interest: the n unrounded installments add up to P + P·(s/100)·n |
| Amortization.SimplesSomaArredondada | services/emprestimo_service.py:52-54 | simple interest: the n rounded installments differ from principal plus interest by at most n half-cents |
| Amortization.CompostoTaxaZeroIgualSimples | services/emprestimo_service.py:57-58 | a compound loan at 0% pays P/n, which is what a simple loan at 0% pays |
| Amortization.SaldoFormaFechada | services/emprestimo_service.py:60-61 | closed form of the outstanding balance after k monthly payments at compound rate r |
| Amortization.CompostoAmortiza | services/emprestimo_service.py:56-61 | the compound installment pays the loan off exactly: after n unrounded payments the balance is zero, for every rate the service accepts |
| Amortization.SaldoTaxaZero | services/emprestimo_service.py:57-58 | at 0% the balance after k payments is the principal minus k payments |
| Amortization.ValorParcelaNaoNegativo | services/emprestimo_service.py:51-63 | non-negative principal and rates give a non-negative installment value |
| Amortization.ExemploSimples | services/emprestimo_service.py:51-54 | 1200.00 over 12 months at 2% simple gives 124.00 a month |
| Amortization.CronogramaForma | services/emprestimo_service.py:65-69 | the schedule has exactly n installments numbered 1..n. Each carries fresh consecutive keys, the loan's key and the same rounded value; installment i is due start + 30·i days, unpaid, with no payment date |
| EmprestimoService.GetTaxasConfig | services/emprestimo_service.py:34-41 | the first rate row, or None exactly when the table is empty; it never creates a row |
| EmprestimoService.GetEmprestimoById | services/emprestimo_service.py:192-193 | the loan with that key, or None exactly when no loan has it |
| EmprestimoService.GetParcelaById | services/emprestimo_service.py:195-196 | the installment with that key, or None exactly when none has it |
| EmprestimoService.GetEmprestimosByClienteId | services/emprestimo_service.py:186-187 | exactly the client's loans, each a row of the table |
| EmprestimoService.GetParcelasByEmprestimoId | services/emprestimo_service.py:189-190 | exactly the loan's installments (as a multiset), ordered by number |
| EmprestimoService.CriacaoCorreta | services/emprestimo_service.py:71-93 | creating fails exactly when there is no rate row (TaxasNaoConfiguradas) or no such client. Otherwise it does three things: it appends one loan with a fresh key, the form's data and the rate row's three rates; that loan's installments are exactly its fresh schedule; every other loan keeps its installments |
| EmprestimoService.CriacaoSemChaveEstrangeiraCorreta | services/emprestimo_service.py:71-93 | on an engine that checks no foreign key, creating fails exactly when there is no rate row. With a known client it is `Criacao`; with an unknown one the loan is still inserted, references no client, and the table constraints no longer hold |
| EmprestimoService.CriacaoPreservaValido | services/emprestimo_service.py:71-93 | a successful creation keeps every table constraint |
| EmprestimoService.EdicaoCorreta | services/emprestimo_service.py:270-288 | an unknown id fails (EmprestimoNaoEncontrado). Otherwise only that loan's valor, term, start and regime change, and its rates are kept. Its installments become exactly a fresh unpaid schedule, with no paid check. Other loans keep theirs |
| EmprestimoService.EdicaoPreservaValido | services/emprestimo_service.py:270-288 | a successful edit keeps every table constraint |
| EmprestimoService.ExclusaoCorreta | services/emprestimo_service.py:213-218 | an unknown id is a no-op. Otherwise the loan and all its installments are gone, and every other loan and its installments stay |
| EmprestimoService.ExclusaoPreservaValido | services/emprestimo_service.py:213-218 | deleting keeps every table constraint |
| EmprestimoService.CriacaoExclusao | services/emprestimo_service.py:71-93 | creating a loan and then deleting it gives back every table as it was |
| EmprestimoService.PagamentoCorreto | services/emprestimo_service.py:198-205 | a missing or already paid installment returns None, and that happens exactly then, with nothing changed. Otherwise exactly that row becomes paid on today's date, keeping its value, and is returned |
| EmprestimoService.PagamentoPreservaValido | services/emprestimo_service.py:198-205 | registering a payment keeps every table constraint |
| EmprestimoService.PagamentoIdempotente | services/emprestimo_service.py:200 | paying twice is paying once; the second call returns None |
| EmprestimoService.NovoValorCorreto | services/emprestimo_service.py:207-211 | only that installment's valor changes, paid or not; an unknown id is a no-op |
| EmprestimoService.NovoValorPreservaValido | services/emprestimo_service.py:207-211 | overriding a value keeps every table constraint |
| EmprestimoService.EmprestimoService.CalcularECriarParcelas | services/emprestimo_service.py:43-69 | the loop appends exactly the loan's schedule to the installment table and advances the key counter by n |
| EmprestimoService.EmprestimoService.CreateEmprestimoComParcelas | services/emprestimo_service.py:71-93 | the session ends in the store `Criacao` describes, or unchanged with the error, and stays valid |
| EmprestimoService.EmprestimoService.UpdateEmprestimoComParcelas | services/emprestimo_service.py:270-288 | the session ends in the store `Edicao` describes, or unchanged with the error, and stays valid |
| EmprestimoService.EmprestimoService.DeleteEmprestimo | services/emprestimo_service.py:213-218 | the session ends in the store `Exclusao` describes, and stays valid |
| EmprestimoService.EmprestimoService.RegistrarPagamentoParcela | services/emprestimo_service.py:198-205 | returns and stores what `ParcelaPaga` / `Pagamento` describe, and the session stays valid |
| EmprestimoService.EmprestimoService.UpdateValorParcela | services/emprestimo_service.py:207-211 | the session ends in the store `NovoValor` describes, and stays valid |
| EmprestimoReports.SomaSeParticao | services/emprestimo_service.py:154-155 | received plus outstanding is the total of all installments |
| EmprestimoReports.ContaSeZero | services/emprestimo_service.py:135-139 | a count is zero exactly when no row satisfies the condition |
| EmprestimoReports.DashboardCorreto | services/emprestimo_service.py:122-149 | active loans are at most all loans, and none exactly when every installment is paid. Late installments are among the unpaid ones, and none exactly when every unpaid one is due today or later. The amount to receive is the total minus what has been paid |
| EmprestimoReports.Max | services/emprestimo_service.py:165 | `max` returns one of its arguments and is at least both |
| EmprestimoReports.ResumoFinanceiroCorreto | services/emprestimo_service.py:151-166 | received plus outstanding equals the total of installments. Future interest is never negative; it equals outstanding minus the outstanding principal share when that difference is non-negative, and 0 otherwise |
| EmprestimoReports.TudoPagoSemJuros | services/emprestimo_service.py:155-165 | with every installment paid, nothing remains to receive and future interest is 0 |
| EmprestimoReports.PagamentoNoResumoMensal | services/emprestimo_service.py:168-183 | paying an installment today adds its value to this month's paid total, and removes it from this month's pending total when it was due this month. It also moves the value from outstanding to received |
| EmprestimoReports.Juntar | services/emprestimo_service.py:108-109 | the inner join yields at most one row per installment |
| EmprestimoReports.JuntarOrigem | services/emprestimo_service.py:101-109 | every joined row comes from an installment, with its loan, number and due date |
| EmprestimoReports.JuntarCompleto | services/emprestimo_service.py:108-109 | with valid references, every installment yields a row carrying its client's name |
| EmprestimoReports.ProximosOrdenados | services/emprestimo_service.py:112-113 | the upcoming-due list holds at most `limit` rows, in ascending due order |
| EmprestimoReports.ProximosElegiveis | services/emprestimo_service.py:110-111 | every listed row comes from an unpaid installment due today or later |
| EmprestimoReports.ProximosPrimeiros | services/emprestimo_service.py:112-113 | no eligible installment left out of the list is due earlier than a listed one |
| EmprestimoReports.ProximosTodos | services/emprestimo_service.py:110-114 | when the limit does not bite, the list holds every eligible row |
| EmprestimoReports.CandidatosCompletos | services/emprestimo_service.py:108-111 | every unpaid installment due today or later is a candidate |
| TaxaJurosService.GetTaxasCorreto | services/taxas_emprestimo_service.py:7-13 | with a row present, `get_taxas` returns the first row and changes nothing. With none, it adds exactly one row with every rate 0 and touches no other table |
| TaxaJurosService.GetTaxasIdempotente | services/taxas_emprestimo_service.py:7-13 | a second `get_taxas` changes nothing and returns the same row; the table then holds one row if it held at most one |
| TaxaJurosService.AtualizacaoCorreta | services/taxas_emprestimo_service.py:15-21 | after `atualizar_taxas` (creating the row if absent), the first row holds exactly the three given rates and keeps its key. Everything else is unchanged, and `get_taxas_config` returns that row |
| TaxaJurosService.AtualizacaoPreservaValido | services/taxas_emprestimo_service.py:7-21 | both operations keep every table constraint |
| TaxaJurosService.CriacaoUsaTaxasAtualizadas | services/emprestimo_service.py:73-86 | a loan created after `atualizar_taxas` snapshots exactly the rates just set |
| TaxaJurosService.TaxaJurosService.GetTaxas | services/taxas_emprestimo_service.py:7-13 | the session ends in `ComTaxas` of the old store and the method returns its first row |
| TaxaJurosService.TaxaJurosService.AtualizarTaxas | services/taxas_emprestimo_service.py:15-21 | the session ends in `Atualizacao` of the old store, and the returned row carries the three given rates |
| ClienteService.LikePrefixo | services/cliente_service.py:123-124 | the pattern `t%` with a wildcard-free `t` matches exactly the strings that start with `t`, ignoring case |
| ClienteService.LikeQualquerInicio | services/cliente_service.py:123-124 | a leading `%` matches the rest of the pattern at any position |
| ClienteService.LikeContem | services/cliente_service.py:123-124 | the pattern `%t%` with a wildcard-free `t` matches exactly the strings that contain `t`, ignoring case |
| ClienteService.SublinhadoCuringa | services/cliente_service.py:123-124 | a term holding `_` matches as a wildcard: "_" is found in "Ana" |
| ClienteService.PorNomeIdTotal | services/cliente_service.py:121 | ordering by (nome, id) is a total preorder |
| ClienteService.GetAllClientesCorreto | services/cliente_service.py:30-46 | the listing is the table slice starting at the offset, at most `limit` long, with ids strictly increasing |
| ClienteService.GetClienteById | services/cliente_service.py:48-58 | the client with that key, or None exactly when no client has it |
| ClienteService.SearchClientesCorreto | services/cliente_service.py:108-131 | at most `limit` clients, ordered by (nome, id), each a client of the store. With a non-empty term each one's nome or cpf matches `%term%`; for a wildcard-free term, that means it contains the term, ignoring case |
| ClienteService.SearchClientesCompleto | services/cliente_service.py:121-124 | without paging, a search misses no matching client, and an empty term returns every client |
| ClienteService.AplicarTodasCorreto | services/cliente_service.py:90-91 | the `setattr` loop keeps the key. A field nobody names keeps its value; a named field ends with the value of the last assignment naming it |
| ClienteService.CadastroCorreto | services/cliente_service.py:60-75 | creating is refused exactly when the cpf is taken, with nothing changed. Otherwise the new client is the last row, with the given data and a fresh key, and is found by that key |
| ClienteService.AlteracaoCorreta | services/cliente_service.py:77-94 | an unknown id returns None and changes nothing. The update is refused, with nothing changed, exactly when nome or cpf would become NULL or the cpf would clash with another client's. Otherwise only that row changes, to the returned record |
| ClienteService.RemocaoCorreta | services/cliente_service.py:96-106 | an unknown id is a no-op. A client with loans is refused, and that happens exactly then. Otherwise exactly that client is gone and everyone else stays |
| ClienteService.ClienteService.CreateCliente | services/cliente_service.py:60-75 | the session ends as `Cadastro` describes, and stays valid |
| ClienteService.ClienteService.UpdateCliente | services/cliente_service.py:77-94 | the session and the result are as `Alteracao` describes, and the session stays valid |
| ClienteService.ClienteService.DeleteCliente | services/cliente_service.py:96-106 | the session and the result are as `Remocao` describes, and the session stays valid |
| UiEmprestimo.PreviaComoEscrita | ui/emprestimo_dialog.py:229-250 | the preview as written is 0.00 without rates or for n <= 0 |
| UiEmprestimo.Previa | ui/emprestimo_dialog.py:229-250 | the preview as documented, with every branch rounded: 0.00 without rates or for n <= 0, and always whole cents |
| UiEmprestimo.PreviaComoEscritaNaoArredonda | ui/emprestimo_dialog.py:246-247 | 100.00 over 3 at 0% compound: the helper returns 100/3, not whole cents, against its docstring. The label rounds it to 33.33, which is what the service stores |
| UiEmprestimo.PreviaExibida | ui/emprestimo_dialog.py:252-260 | for every input, formatting the helper's value with two places (`:,.2f`, half to even) gives exactly the fully rounded preview |
| UiEmprestimo.PreviaSimples | ui/emprestimo_dialog.py:241-244 | simple regime: the preview is always available and equals the value the service stores |
| UiEmprestimo.PreviaCompostoTaxaZero | ui/emprestimo_dialog.py:246-247 | compound at 0%: the as-written preview is the unrounded P/n, and the rounded preview equals the stored value |
| UiEmprestimo.PreviaCompostoAnuidade | ui/emprestimo_dialog.py:246-250 | compound with a non-zero rate: the preview is unavailable exactly when the divisor vanishes, and otherwise equals the stored annuity value |
| UiEmprestimo.MapaDeCorreto | ui/emprestimo_dialog.py:185-187 | every label in the completer map belongs to a listed client and maps to the last such client's key. The suggestion list holds exactly the map's keys, each once |
| UiEmprestimo.CampoValor | ui/emprestimo_dialog.py:85-90 | the amount box holds whole cents within 0.01..1 000 000, and any such value unchanged |
| UiEmprestimo.EmprestimoDialog.constructor | ui/emprestimo_dialog.py:40-135 | rates are loaded once, there is no client, and the form holds 1000.00 over 12 simple installments from today, with the preview in step; the search text and the suggestion list start empty |
| UiEmprestimo.EmprestimoDialog.UpdateParcelaPreview | ui/emprestimo_dialog.py:252-260 | the label shows the helper's value for the form's current values, formatted to two places, which is the fully rounded preview |
| UiEmprestimo.EmprestimoDialog.SetValor | ui/emprestimo_dialog.py:85-90 | the box holds its clamped, rounded value and the preview follows it |
| UiEmprestimo.EmprestimoDialog.SetNumeroParcelas | ui/emprestimo_dialog.py:94-97 | the term is clamped to 1..120 and the preview follows it |
| UiEmprestimo.EmprestimoDialog.SetSimples | ui/emprestimo_dialog.py:131-133 | the regime changes and the preview follows it |
| UiEmprestimo.EmprestimoDialog.UpdateClienteCompleter | ui/emprestimo_dialog.py:159-191 | text that is not a map key clears the selection. Text shorter than 2 empties the completer; a key keeps everything. Otherwise the map and the list are rebuilt from the first 10 search results |
| UiEmprestimo.EmprestimoDialog.SetSelectedCliente | ui/emprestimo_dialog.py:193-203 | the selection is the chosen entry's key, or none |
| UiEmprestimo.EmprestimoDialog.SetInitialClient | ui/emprestimo_dialog.py:137-157 | a missing, zero or unknown id changes nothing, search text and suggestions included. A known client becomes the selection, and its label enters the map and the search text; the completer's reaction keeps the selection and leaves the suggestion list as it was |
| UiEmprestimo.EmprestimoDialog.GetData | ui/emprestimo_dialog.py:262-283 | None exactly when no client is selected (0 counts as none); otherwise the client and the form's four fields |
| UiEmprestimo.EmprestimoDialog.Accept | ui/emprestimo_dialog.py:285-299 | without a client nothing is sent and the store is unchanged. Otherwise the store becomes the one the service's create gives and the dialog reports Salvo, or reports Falhou with nothing changed |
| UiEmprestimo.GetDataAceitavel | ui/emprestimo_dialog.py:88-96 | with non-negative rates, whatever the form submits satisfies what the service's create assumes (n >= 1, a computable value, P > 0) |
| UiEditEmprestimo.AlgumaPaga | ui/edit_emprestimo_dialog.py:82-84 | `any(p.pago ...)` is true exactly when some listed installment is paid |
| UiEditEmprestimo.HasPaidInstallmentsCorreto | ui/edit_emprestimo_dialog.py:82-84 | the flag computed from the ordered listing is true exactly when some installment of this loan is paid |
| UiEditEmprestimo.GuardaSoComValorForaDoCampo | ui/edit_emprestimo_dialog.py:45-47 | when the amount field kept its loaded value, refusal fires exactly when some installment is paid and the stored principal lies outside the box's range or grid |
| UiEditEmprestimo.EdicaoDescartaPagamentos | services/emprestimo_service.py:277-288 | after an edit the service accepts, no installment of the loan is paid. The client and the three rates are kept, and valor is the submitted one |
| UiEditEmprestimo.GetDataEditavel | ui/edit_emprestimo_dialog.py:50-52 | with non-negative compound rates, any submitted term 1..120 is an edit the service can compute |
| UiEditEmprestimo.EditEmprestimoDialog.constructor | ui/edit_emprestimo_dialog.py:43-89 | the form starts from the loan's valor (as the box holds it), term, start and regime. The flag is true exactly when an installment of the loan is paid |
| UiEditEmprestimo.EditEmprestimoDialog.SetValor | ui/edit_emprestimo_dialog.py:86-89 | with a paid installment the disabled field keeps its value; otherwise it holds the clamped, rounded input |
| UiEditEmprestimo.EditEmprestimoDialog.SetNumeroParcelas | ui/edit_emprestimo_dialog.py:50-52 | the term is clamped to 1..120 |
| UiEditEmprestimo.EditEmprestimoDialog.GetData | ui/edit_emprestimo_dialog.py:98-104 | the form's valor, term, start and regime are the only fields sent; no rate is part of them |
| UiEditEmprestimo.EditEmprestimoDialog.Accept | ui/edit_emprestimo_dialog.py:115-132 | a changed principal under paid installments is refused before asking, with the store unchanged. A No changes nothing. A Yes stores the service's edit of `get_data` and reports Salvo, or reports Falhou with nothing changed |
| UiEditParcela.ValorComMora | ui/edit_parcela_dialog.py:52-56 | the new value is whole cents within half a cent of v + v·(m/100) |
| UiEditParcela.CampoMora | ui/edit_parcela_dialog.py:29-33 | the rate box holds whole hundredths within 0..100, and any such value unchanged |
| UiEditParcela.ValorComMoraNaoDiminui | ui/edit_parcela_dialog.py:63-67 | for a stored installment value and a rate the box allows, the new value is at least the original, at most twice it, and equal to it at 0%; so the guard never refuses |
| UiEditParcela.MoraNegativaDiminui | ui/edit_parcela_dialog.py:54-56 | a negative rate, which the box excludes, would lower the value: 100 at -10% gives 90 |
| UiEditParcela.EditParcelaDialog.constructor | ui/edit_parcela_dialog.py:29-50 | the rate starts from the loan's late rate (0 when it has none, ui/emprestimos_tab_widget.py:259), and the value is computed from it |
| UiEditParcela.EditParcelaDialog.CalcularNovoValor | ui/edit_parcela_dialog.py:52-57 | the stored new value is the late-interest value of the installment at the current rate |
| UiEditParcela.EditParcelaDialog.SetJurosMora | ui/edit_parcela_dialog.py:31-34 | the box clamps and rounds the rate, and the value is recomputed |
| UiEditParcela.EditParcelaDialog.GetNovoValor | ui/edit_parcela_dialog.py:59-61 | the value returned is the late-interest value at the current rate |
| UiEditParcela.EditParcelaDialog.Accept | ui/edit_parcela_dialog.py:63-68 | the dialog closes exactly when the new value is not below the original, which always holds for a non-negative whole-cent installment |
| SeedClientes.SomaPonderadaNaoNegativa | seed_clientes.py:14 | the weighted sum of digits is non-negative |
| SeedClientes.DigitoVerificador | seed_clientes.py:15 | a check digit lies in 0..9 |
| SeedClientes.DigitoVerificadorRegra | seed_clientes.py:14-18 | the digit is the modulo-11 CPF rule: 0 when the weighted sum mod 11 is below 2, else 11 minus it |
| SeedClientes.DigitosCpfValido | seed_clientes.py:13-19 | the eleven digits start with the nine given, and each check digit is the one computed over the digits before it |
| SeedClientes.Algarismos | seed_clientes.py:20 | one character per digit, in order |
| SeedClientes.Formatar | seed_clientes.py:20 | the printed CPF is 14 characters |
| SeedClientes.FormatarForma | seed_clientes.py:20 | it is shaped ddd.ddd.ddd-dd, with the digits in order |
| SeedClientes.FormatarIda | seed_clientes.py:20 | removing "." and "-" gives back the eleven digit characters in order, and reading them gives the digits |
| SeedClientes.GerarCpf | seed_clientes.py:11-20 | building the list with two appends gives the printed form of a valid CPF whose first nine digits are the given ones |
| Setup.TirarInicio | setup.py:45 | stripping the start leaves a suffix that does not begin with whitespace |
| Setup.TirarFim | setup.py:45 | stripping the end leaves a prefix that does not end with whitespace |
| Setup.Strip | setup.py:45 | `strip()` leaves no whitespace at either end |
| Setup.AntesDe | setup.py:47 | `split(sep)[0]` is a prefix of the text |
| Setup.AntesDeCorreto | setup.py:47 | the kept part holds no separator, and the cut falls where the separator begins |
| Setup.RequirementsConcat | setup.py:44-49 | the names of two runs of lines are the names of each, in order |
| Setup.RequirementsLinha | setup.py:45-49 | a blank or comment line adds nothing; any other line adds its name when that is not empty |
| Setup.NomePacoteCorreto | setup.py:45-49 | an extracted name is non-empty, holds no "#", "==" or ">=", and is a prefix of the stripped line |
| Setup.RequirementsValidos | setup.py:44-49 | every listed name satisfies that |
| Setup.RequirementsPasso | setup.py:44-49 | one more line read appends its name, if any, at the end |
| Setup.ReadRequirements | setup.py:30-53 | the loop returns the names of the lines in file order, each valid |
| Setup.Normalizar | setup.py:77 | `lower().replace('_', '-')` character by character |
| Setup.InstalledPackages | setup.py:55-62 | exactly the lower-cased names of the installed distributions |
| Setup.MissingPackagesCorreto | setup.py:75-78 | a name is missing exactly when it is required and its normalised form is not installed; none is missing exactly when all are installed |
| Setup.MissingPackagesOrdem | setup.py:75-78 | the missing list follows the file's order |
| Setup.CheckAndInstall | setup.py:64-96 | True exactly when every normalised name is installed. Otherwise the missing list is non-empty and is what pip is asked to install, and the outcome is "installed" exactly when pip succeeds |

## Left out

- Desktop GUI: widgets, layouts, signals, message boxes and printing. A dialog's fields are its widget values, and a confirmation box is a boolean parameter.
- Exceptions raised inside the dialogs' `try` blocks (the completer's search, `set_initial_client`'s lookup, constructor rate loading) are not modelled.
- `criar_novo_cliente` (ui/emprestimo_dialog.py:205-227) is not modelled. It opens a nested dialog and then calls `create_cliente`, which `ClienteService.CadastroCorreto` covers.
- `gerar_relatorio_html_emprestimo` (services/emprestimo_service.py:220-268) is not modelled: HTML templating for display.
- The `seed_clientes` insert loop and Faker/random data are not modelled. The nine random digits are the input of `SeedClientes.GerarCpf`.
- Setup I/O is not modelled:
  - the file reading and `FileNotFoundError` → `sys.exit(1)`;
  - the `importlib.metadata` query;
  - the pip subprocess and `sys.exit(0)` after a successful install.
  The file's lines, the distributions' names and pip's success are inputs. A successful install is the `Instaladas` outcome.
- Decimal's 28-digit context: reals are exact. The `Numeric(10,2)`/`Numeric(5,2)` quantisation on store is not applied to computed values.
- Float-to-Decimal conversion of spin-box values (`Decimal(str(float))`) is modelled as the box holding a two-decimal value.
- Qt's own rounding tie rule for spin boxes is modelled as half-even (`Money.Round2`).
- `date.today()` and `QDate.currentDate()` are a `hoje` parameter. Month extraction (`strftime('%Y-%m')`) is an abstract month-of-date function.
- Transactions: a failing service call is modelled as leaving the store unchanged, because the database undoes the failed flush or never sees the uncommitted rows. The loan service and the loan dialogs never call `rollback()`, so the session is left pending a rollback afterwards; that session state is not modelled.
- `EmprestimoService.CriacaoCorreta`: the `ClienteInexistente` refusal holds only where foreign keys are enforced (PostgreSQL, MySQL/InnoDB). The engine is created without `PRAGMA foreign_keys=ON` (db/database.py:50-58), so on SQLite, the default engine, the loan and its installments are inserted with an unknown client. `EmprestimoService.CriacaoSemChaveEstrangeira` models that branch and `EmprestimoService.CriacaoSemChaveEstrangeiraCorreta` states it; the services, methods and dialogs otherwise use the enforcing store.
- `EmprestimoService.EmprestimoService.CreateEmprestimoComParcelas`: follows `Criacao`, the foreign-key-enforcing store; the SQLite orphan insert is the separate `CriacaoSemChaveEstrangeira`.
- `ClienteService.RemocaoCorreta`: the refusal of a client with loans holds on every engine. The ORM nulls the loans' `cliente_id`, and that column is NOT NULL.
- Which SQL dialect each rule follows:
  - foreign keys: PostgreSQL and MySQL, as above;
  - ordering by `nome`: code-point order, as SQLite's BINARY collation and PostgreSQL's C collation give;
  - month extraction (`strftime`): SQLite only; it is an abstract month-of-date function here;
  - keys: a counter that never hands out a key twice, as PostgreSQL sequences and MySQL AUTO_INCREMENT do. SQLite without AUTOINCREMENT hands out max+1, which reuses the key of a deleted last row; that reuse is not modelled.
- `EmprestimoService.EmprestimoService.CreateEmprestimoComParcelas`: requires a computable installment value. The source's ZeroDivision (n = 0, or a compound rate whose divisor vanishes) raises after the loan row was flushed; that partial state is not modelled. The dialogs only submit computable inputs (`UiEmprestimo.GetDataAceitavel`, `UiEditEmprestimo.GetDataEditavel`).
- `EmprestimoService.EmprestimoService.UpdateEmprestimoComParcelas`: requires a computable installment value, for the same reason. The source would have deleted the old installments before raising.
- `UiEditEmprestimo.EditEmprestimoDialog.Accept` and `UiEmprestimo.EmprestimoDialog.Accept`: for inputs the service cannot compute, they report Falhou with the store unchanged (the source shows the error).
- SQL details:
  - each database's case folding and `LIKE` escape rules: `ilike` folds ASCII letters only, and there is no escape character;
  - the order of rows with equal sort keys in the upcoming-due list;
  - a negative `limit` is no limit, and a negative offset is not modelled (`Option<nat>`);
  - string column lengths.
- On a dialect that divides integers, `Emprestimo.valor / numero_parcelas` in the financial summary would truncate. The model divides exactly.
- `ClienteService.ClienteService.UpdateCliente`: a `setattr` with a key that is no column is not modelled; the assignable fields are a closed enumeration.
- Python's `str.lower` is modelled on ASCII letters only (`Setup.Normalizar`, `Setup.InstalledPackages`).
- `Seqs.Filter`, `Seqs.SortBySorted`: SQL row order for an unordered `WHERE` is taken to be table (primary-key) order.

## Findings

| source | as written | input that shows it | evidently intended | confidence | as-written member | corrected member |
|---|---|---|---|---|---|---|
| ui/emprestimo_dialog.py:246-247 | in the compound regime with a 0% rate `_calcular_valor_parcela` returns `P/n` straight away, skipping `round(…, 2)` | compound, 0%, R$ 100.00 over 3: the helper returns 33.333…; the label, formatted with `:,.2f`, still shows R$ 33.33, so no displayed value differs | the return value rounded to 2 places, as the docstring (line 234) promises and as the service stores it (services/emprestimo_service.py:57-63) | not executed | UiEmprestimo.PreviaComoEscritaNaoArredonda | UiEmprestimo.Previa |
