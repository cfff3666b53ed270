/**
 * The CPF generator of the seeding script (`seed_clientes.py`, `gerar_cpf`):
 * nine digits, two modulo-11 check digits, and the printed form
 * ddd.ddd.ddd-dd. The nine digits, drawn at random by the script, are an
 * input here.
 */
module SeedClientes {
  import opened Seqs

  /** A decimal digit, as `random.randint(0, 9)` draws it. */
  type Digito = x: int | 0 <= x <= 9

  predicate Digitos(c: seq<int>) {
    forall i :: 0 <= i < |c| ==> 0 <= c[i] <= 9
  }

  /** `sum((w - i) * c[i] for i in range(len(c)))`: weights w, w-1, … down the digits. */
  function SomaPonderada(c: seq<int>, w: int): int {
    if c == [] then 0 else w * c[0] + SomaPonderada(c[1..], w - 1)
  }

  lemma {:induction false} SomaPonderadaNaoNegativa(c: seq<int>, w: int)
    requires Digitos(c) && w >= |c|
    ensures SomaPonderada(c, w) >= 0
  {
    if c != [] {
      assert Digitos(c[1..]);
      SomaPonderadaNaoNegativa(c[1..], w - 1);
      assert w * c[0] >= 0;
    }
  }

  /** The check digit over `c` with first weight `w`: `(soma * 10 % 11) % 10`. */
  function DigitoVerificador(c: seq<int>, w: int): (d: int)
    ensures 0 <= d <= 9
  {
    (SomaPonderada(c, w) * 10 % 11) % 10
  }

  /**
   * The rule as it is usually stated: with r the weighted sum modulo 11,
   * the check digit is 0 when r < 2 and 11 − r otherwise.
   */
  lemma DigitoVerificadorRegra(c: seq<int>, w: int)
    ensures var r := SomaPonderada(c, w) % 11;
      DigitoVerificador(c, w) == if r < 2 then 0 else 11 - r
  {
    var s := SomaPonderada(c, w);
    var q := s / 11;
    var r := s % 11;
    assert s * 10 == 11 * (10 * q) + 10 * r;
    MultiploDeOnze(10 * q, 10 * r);
    assert s * 10 % 11 == 10 * r % 11;
    assert 0 <= r < 11;
    if r == 0 { } else if r == 1 { } else if r == 2 { } else if r == 3 { } else if r == 4 { }
    else if r == 5 { } else if r == 6 { } else if r == 7 { } else if r == 8 { } else if r == 9 { }
    else { assert r == 10; }
  }

  lemma MultiploDeOnze(k: int, x: int)
    ensures (11 * k + x) % 11 == x % 11
  {
  }

  /** The eleven digits: the nine given, d1 over them, d2 over the nine and d1. */
  function DigitosCpf(c: seq<Digito>): seq<Digito> {
    var d1 := DigitoVerificador(c, 10);
    var d2 := DigitoVerificador(c + [d1], 11);
    c + [d1, d2]
  }

  /** A digit sequence whose last two digits are its check digits. */
  predicate CpfValido(d: seq<int>) {
    |d| == 11 && Digitos(d) &&
    d[9] == DigitoVerificador(d[..9], 10) && d[10] == DigitoVerificador(d[..10], 11)
  }

  /** The generated digits are a valid CPF that starts with the given nine. */
  lemma DigitosCpfValido(c: seq<Digito>)
    requires |c| == 9
    ensures CpfValido(DigitosCpf(c)) && DigitosCpf(c)[..9] == c
  {
    var d := DigitosCpf(c);
    assert d[..9] == c;
    assert d[..10] == c + [d[9]];
  }

  /** `"{}".format(d)` for one digit. */
  function Algarismo(d: Digito): char {
    (48 + d) as char
  }

  function Algarismos(c: seq<Digito>): (s: string)
    ensures |s| == |c| && forall i :: 0 <= i < |c| ==> s[i] == Algarismo(c[i])
  {
    if c == [] then [] else [Algarismo(c[0])] + Algarismos(c[1..])
  }

  /** `"{}{}{}.{}{}{}.{}{}{}-{}{}".format(*cpf)`. */
  function Formatar(d: seq<Digito>): (s: string)
    requires |d| == 11
    ensures |s| == 14
  {
    Algarismos(d[..3]) + (['.'] + (Algarismos(d[3..6]) + (['.'] +
    (Algarismos(d[6..9]) + (['-'] + Algarismos(d[9..]))))))
  }

  /** The printed form is ddd.ddd.ddd-dd, the digits in order. */
  lemma FormatarForma(d: seq<Digito>)
    requires |d| == 11
    ensures var s := Formatar(d);
      s[3] == '.' && s[7] == '.' && s[11] == '-' &&
      (forall i :: 0 <= i < 3 ==> s[i] == Algarismo(d[i])) &&
      (forall i :: 3 <= i < 6 ==> s[i + 1] == Algarismo(d[i])) &&
      (forall i :: 6 <= i < 9 ==> s[i + 2] == Algarismo(d[i])) &&
      (forall i :: 9 <= i < 11 ==> s[i + 3] == Algarismo(d[i]))
  {
    var a, b, c, e := Algarismos(d[..3]), Algarismos(d[3..6]), Algarismos(d[6..9]), Algarismos(d[9..]);
    var s := Formatar(d);
    assert s == a + (['.'] + (b + (['.'] + (c + (['-'] + e)))));
    assert s[3..] == ['.'] + (b + (['.'] + (c + (['-'] + e))));
    assert s[4..] == b + (['.'] + (c + (['-'] + e)));
    assert s[7..] == ['.'] + (c + (['-'] + e));
    assert s[8..] == c + (['-'] + e);
    assert s[11..] == ['-'] + e;
    assert s[12..] == e;
  }

  function NaoPontuacao(): char -> bool {
    (ch: char) => ch != '.' && ch != '-'
  }

  /** The digit a character `'0'..'9'` stands for. */
  function Valor(ch: char): int {
    ch as int - 48
  }

  function Valores(s: string): (c: seq<int>)
    ensures |c| == |s| && forall i :: 0 <= i < |s| ==> c[i] == Valor(s[i])
  {
    if s == [] then [] else [Valor(s[0])] + Valores(s[1..])
  }

  /** The characters of two digit sequences, one after the other. */
  lemma {:induction false} AlgarismosConcat(x: seq<Digito>, y: seq<Digito>)
    ensures Algarismos(x + y) == Algarismos(x) + Algarismos(y)
  {
    if x == [] {
      assert x + y == y;
    } else {
      assert (x + y)[1..] == x[1..] + y;
      AlgarismosConcat(x[1..], y);
    }
  }

  /** Digit characters pass the filter unchanged. */
  lemma {:induction false} AlgarismosFixos(x: seq<Digito>)
    ensures Filter(Algarismos(x), NaoPontuacao()) == Algarismos(x)
  {
    if x != [] {
      var u := Algarismos(x);
      assert u[0] == Algarismo(x[0]) && u[1..] == Algarismos(x[1..]);
      AlgarismosFixos(x[1..]);
    }
  }

  /** Digit characters pass the filter unchanged, whatever follows them. */
  lemma FiltroAlgarismos(x: seq<Digito>, t: string)
    ensures Filter(Algarismos(x) + t, NaoPontuacao()) == Algarismos(x) + Filter(t, NaoPontuacao())
  {
    FilterAppend(Algarismos(x), t, NaoPontuacao());
    AlgarismosFixos(x);
  }

  /** Filtering a separator followed by `t` drops the separator. */
  lemma {:induction false} SeparadorRemovido(sep: char, t: string)
    requires sep == '.' || sep == '-'
    ensures Filter([sep] + t, NaoPontuacao()) == Filter(t, NaoPontuacao())
  {
    assert ([sep] + t)[1..] == t;
  }

  /** A digit group followed by a separator: the group stays, the separator goes. */
  lemma FiltroGrupo(x: seq<Digito>, sep: char, t: string)
    requires sep == '.' || sep == '-'
    ensures Filter(Algarismos(x) + ([sep] + t), NaoPontuacao()) == Algarismos(x) + Filter(t, NaoPontuacao())
  {
    FiltroAlgarismos(x, [sep] + t);
    SeparadorRemovido(sep, t);
  }

  /** Filtering the printed CPF leaves its four digit groups, concatenated. */
  lemma FiltrarFormatado(d: seq<Digito>)
    requires |d| == 11
    ensures Filter(Formatar(d), NaoPontuacao()) ==
            Algarismos(d[..3]) + (Algarismos(d[3..6]) + (Algarismos(d[6..9]) + Algarismos(d[9..])))
  {
    var t3 := Algarismos(d[9..]);
    var t2 := Algarismos(d[6..9]) + (['-'] + t3);
    var t1 := Algarismos(d[3..6]) + (['.'] + t2);
    FiltroGrupo(d[..3], '.', t1);
    FiltroGrupo(d[3..6], '.', t2);
    FiltroGrupo(d[6..9], '-', t3);
    FiltroAlgarismos(d[9..], []);
    assert t3 + [] == t3;
  }

  /** The four groups' characters, concatenated, are the characters of the whole sequence. */
  lemma GruposAlgarismos(d: seq<Digito>)
    requires |d| == 11
    ensures Algarismos(d[..3]) + (Algarismos(d[3..6]) + (Algarismos(d[6..9]) + Algarismos(d[9..]))) == Algarismos(d)
  {
    AlgarismosConcat(d[6..9], d[9..]);
    assert d[6..9] + d[9..] == d[6..];
    AlgarismosConcat(d[3..6], d[6..]);
    assert d[3..6] + d[6..] == d[3..];
    AlgarismosConcat(d[..3], d[3..]);
    assert d[..3] + d[3..] == d;
  }

  /** Reading back the characters of a digit sequence gives the sequence. */
  lemma ValoresAlgarismos(d: seq<Digito>)
    ensures Valores(Algarismos(d)) == d
  {
    var v := Valores(Algarismos(d));
    assert forall i :: 0 <= i < |d| ==> v[i] == d[i];
  }

  /**
   * Removing "." and "-" from the printed CPF gives back its eleven digits in
   * order, and reading them back gives the digit sequence.
   */
  lemma FormatarIda(d: seq<Digito>)
    requires |d| == 11
    ensures Filter(Formatar(d), NaoPontuacao()) == Algarismos(d)
    ensures Valores(Filter(Formatar(d), NaoPontuacao())) == d
  {
    FiltrarFormatado(d);
    GruposAlgarismos(d);
    ValoresAlgarismos(d);
  }

  /**
   * `gerar_cpf` with the nine random digits `c`: the list grows by d1
   * then d2, and is printed.
   */
  method GerarCpf(c: seq<Digito>) returns (s: string)
    requires |c| == 9
    ensures CpfValido(Valores(Filter(s, NaoPontuacao())))
    ensures Valores(Filter(s, NaoPontuacao()))[..9] == c
    ensures s == Formatar(DigitosCpf(c))
  {
    var cpf := c;
    var d1 := DigitoVerificador(cpf, 10);
    cpf := cpf + [d1];
    var d2 := DigitoVerificador(cpf, 11);
    cpf := cpf + [d2];
    assert cpf == DigitosCpf(c);
    DigitosCpfValido(c);
    s := Formatar(cpf);
    FormatarIda(cpf);
  }
}
