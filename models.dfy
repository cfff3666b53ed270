/**
 * The records the store keeps (the ORM models), one datatype per table.
 * Amounts are reals; dates are day ordinals.
 */
module Models {
  import opened Wrappers
  import opened Money

  /** The interest regime of a loan: exactly two values. */
  datatype TipoJuros = Simples | Composto

  /** A client; `cpf` is unique and `nome`, `cpf` are required. */
  datatype Cliente = Cliente(
    id: int,
    nome: string,
    cpf: string,
    telefone: Option<string>,
    email: Option<string>,
    endereco: Option<string>)

  /**
   * A loan with the snapshot of the three rates (percentages) taken when it
   * was created. `numeroParcelas` carries no positivity constraint here.
   */
  datatype Emprestimo = Emprestimo(
    id: int,
    clienteId: int,
    valor: real,
    numeroParcelas: int,
    dataInicio: int,
    tipoJuros: TipoJuros,
    taxaJurosSimples: real,
    taxaJurosComposto: real,
    taxaJurosMora: real)

  /** One installment; it belongs to exactly one loan. */
  datatype Parcela = Parcela(
    id: int,
    emprestimoId: int,
    numero: int,
    valor: real,
    dataVencimento: int,
    pago: bool,
    dataPagamento: Option<int>)

  /** The global rate configuration (percentages). */
  datatype TaxaJuros = TaxaJuros(
    id: int,
    taxaJurosSimples: real,
    taxaJurosComposto: real,
    taxaJurosMora: real)

  /** A `TaxaJuros` row created with no arguments: every rate defaults to zero. */
  function TaxaJurosPadrao(id: int): (t: TaxaJuros)
    ensures t.id == id
    ensures t.taxaJurosSimples == 0.0 && t.taxaJurosComposto == 0.0 && t.taxaJurosMora == 0.0
  {
    TaxaJuros(id, 0.0, 0.0, 0.0)
  }
}
