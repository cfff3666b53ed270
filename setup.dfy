/**
 * The dependency check run before the application starts (`setup.py`):
 * package names read from the lines of `requirements.txt`, and the packages
 * among them that are not installed. The file's lines, the installed
 * distributions and the outcome of `pip install` are inputs here.
 */
module Setup {
  import opened Seqs

  // ---------------------------------------------------------------------
  // Text primitives: `str.strip` and `str.split(sep)[0]`.

  /** `str.isspace` for one character. */
  predicate EspacoBranco(ch: char) {
    ch == ' ' || ('\t' <= ch <= '\r') || ('\U{1C}' <= ch <= '\U{1F}') || ch == '\U{85}' || ch == '\U{A0}' ||
    ch == '\U{1680}' || ('\U{2000}' <= ch <= '\U{200A}') || ch == '\U{2028}' || ch == '\U{2029}' ||
    ch == '\U{202F}' || ch == '\U{205F}' || ch == '\U{3000}'
  }

  /** `s` with its leading whitespace removed: a suffix of `s`. */
  function TirarInicio(s: string): (r: string)
    ensures |r| <= |s| && r == s[|s| - |r|..]
    ensures r == [] || !EspacoBranco(r[0])
  {
    if s != [] && EspacoBranco(s[0]) then TirarInicio(s[1..]) else s
  }

  /** `s` with its trailing whitespace removed: a prefix of `s`. */
  function TirarFim(s: string): (r: string)
    ensures |r| <= |s| && r == s[..|r|]
    ensures r == [] || !EspacoBranco(r[|r| - 1])
  {
    if s != [] && EspacoBranco(s[|s| - 1]) then TirarFim(s[..|s| - 1]) else s
  }

  /** `str.strip()`: neither end of the result is whitespace. */
  function Strip(s: string): (r: string)
    ensures r == [] || (!EspacoBranco(r[0]) && !EspacoBranco(r[|r| - 1]))
  {
    var t := TirarInicio(s);
    var r := TirarFim(t);
    assert r != [] ==> r[0] == t[0];
    r
  }

  /** `sep` occurs in `s` at position `i`. */
  predicate OcorreEm(s: string, sep: string, i: int) {
    0 <= i && i + |sep| <= |s| && s[i..i + |sep|] == sep
  }

  /** `sep` occurs somewhere in `s`. */
  ghost predicate Contem(s: string, sep: string) {
    exists i :: OcorreEm(s, sep, i)
  }

  /** `s.split(sep)[0]`: the text before the first `sep`, or all of `s`. */
  function AntesDe(s: string, sep: string): (r: string)
    requires sep != []
    ensures |r| <= |s| && r == s[..|r|]
    decreases |s|
  {
    if |s| < |sep| then s
    else if s[..|sep|] == sep then []
    else [s[0]] + AntesDe(s[1..], sep)
  }

  /** What is kept before the cut contains no `sep`. */
  lemma {:induction false} AntesDeSemSeparador(s: string, sep: string)
    requires sep != []
    ensures forall i :: !OcorreEm(AntesDe(s, sep), sep, i)
    decreases |s|
  {
    if |s| >= |sep| && s[..|sep|] != sep {
      var t := AntesDe(s[1..], sep);
      AntesDeSemSeparador(s[1..], sep);
      var r := [s[0]] + t;
      assert r == AntesDe(s, sep);
      forall i | 0 <= i && i + |sep| <= |r| ensures !OcorreEm(r, sep, i) {
        if i == 0 {
          assert r[..|sep|] == s[..|sep|];
        } else {
          assert r[i..i + |sep|] == t[i - 1..i - 1 + |sep|];
          assert !OcorreEm(t, sep, i - 1);
        }
      }
    }
  }

  /** When the text is cut short, `sep` begins exactly at the cut. */
  lemma {:induction false} AntesDeCorte(s: string, sep: string)
    requires sep != []
    ensures |AntesDe(s, sep)| < |s| ==> OcorreEm(s, sep, |AntesDe(s, sep)|)
    decreases |s|
  {
    if |s| >= |sep| && s[..|sep|] != sep {
      var t := AntesDe(s[1..], sep);
      AntesDeCorte(s[1..], sep);
      assert |AntesDe(s, sep)| == |t| + 1;
      if |t| < |s| - 1 {
        assert s[1..][|t|..|t| + |sep|] == s[|t| + 1..|t| + 1 + |sep|];
      }
    }
  }

  /** The cut falls at the first occurrence: what is kept contains no `sep`, and what follows starts with it. */
  lemma AntesDeCorreto(s: string, sep: string)
    requires sep != []
    ensures !Contem(AntesDe(s, sep), sep)
    ensures |AntesDe(s, sep)| < |s| ==> OcorreEm(s, sep, |AntesDe(s, sep)|)
  {
    AntesDeSemSeparador(s, sep);
    AntesDeCorte(s, sep);
  }

  /** A prefix of a text without `sep` has no `sep` either. */
  lemma PrefixoSemSeparador(r: string, t: string, sep: string)
    requires |t| <= |r| && t == r[..|t|] && !Contem(r, sep)
    ensures !Contem(t, sep)
  {
    forall i | 0 <= i && i + |sep| <= |t| ensures !OcorreEm(t, sep, i) {
      assert t[i..i + |sep|] == r[i..i + |sep|];
      assert !OcorreEm(r, sep, i);
    }
  }

  lemma PrefixoTransitivo(a: string, b: string, c: string)
    requires |a| <= |b| && a == b[..|a|] && |b| <= |c| && b == c[..|b|]
    ensures |a| <= |c| && a == c[..|a|]
  {
  }

  // ---------------------------------------------------------------------
  // `_read_requirements`.

  /** The package name of one line: `line.split('#')[0].strip().split('==')[0].split('>=')[0]` on the stripped line. */
  function NomePacote(linha: string): string {
    AntesDe(AntesDe(Strip(AntesDe(Strip(linha), "#")), "=="), ">=")
  }

  /** The line yields a package: not blank, not a comment, and with a non-empty name. */
  predicate Contribui(linha: string) {
    var l := Strip(linha);
    l != [] && l[0] != '#' && NomePacote(linha) != []
  }

  /** The package names of the lines, in file order. */
  function Requirements(linhas: seq<string>): seq<string> {
    if linhas == [] then []
    else
      var ultima := linhas[|linhas| - 1];
      Requirements(linhas[..|linhas| - 1]) + (if Contribui(ultima) then [NomePacote(ultima)] else [])
  }

  /** Reading two files' worth of lines one after the other gives both lists, in order. */
  lemma {:induction false} RequirementsConcat(a: seq<string>, b: seq<string>)
    ensures Requirements(a + b) == Requirements(a) + Requirements(b)
    decreases |b|
  {
    if b != [] {
      var n := |b| - 1;
      assert (a + b)[..|a + b| - 1] == a + b[..n];
      assert (a + b)[|a + b| - 1] == b[n];
      RequirementsConcat(a, b[..n]);
    } else {
      assert a + b == a;
    }
  }

  /** A blank or comment line adds nothing; any other line adds its name when that name is not empty. */
  lemma RequirementsLinha(linha: string)
    ensures Strip(linha) == [] || Strip(linha)[0] == '#' ==> Requirements([linha]) == []
    ensures Requirements([linha]) == if Contribui(linha) then [NomePacote(linha)] else []
  {
    assert [linha][..0] == [];
  }

  /**
   * The name of a contributing line is non-empty, holds no "#", "==" or
   * ">=", and is a prefix of the stripped line.
   */
  lemma NomePacoteCorreto(linha: string)
    requires Contribui(linha)
    ensures var p := NomePacote(linha);
      p != [] && !Contem(p, "#") && !Contem(p, "==") && !Contem(p, ">=") &&
      |p| <= |Strip(linha)| && p == Strip(linha)[..|p|]
  {
    var l := Strip(linha);
    var h := AntesDe(l, "#");
    assert l[..1] != "#";
    assert h == [l[0]] + AntesDe(l[1..], "#");
    assert TirarInicio(h) == h;
    var k := Strip(h);
    var e := AntesDe(k, "==");
    var p := AntesDe(e, ">=");
    AntesDeCorreto(l, "#");
    PrefixoSemSeparador(h, k, "#");
    AntesDeCorreto(k, "==");
    PrefixoSemSeparador(e, p, "==");
    PrefixoSemSeparador(k, e, "#");
    PrefixoSemSeparador(e, p, "#");
    AntesDeCorreto(e, ">=");
    PrefixoTransitivo(k, h, l);
    PrefixoTransitivo(e, k, l);
    PrefixoTransitivo(p, e, l);
  }

  /** What every extracted name satisfies. */
  ghost predicate NomeValido(p: string) {
    p != [] && !Contem(p, "#") && !Contem(p, "==") && !Contem(p, ">=")
  }

  /** Every listed name is a valid package name. */
  lemma {:induction false} RequirementsValidos(linhas: seq<string>)
    ensures forall j :: 0 <= j < |Requirements(linhas)| ==> NomeValido(Requirements(linhas)[j])
  {
    if linhas != [] {
      var n := |linhas| - 1;
      var pre := Requirements(linhas[..n]);
      RequirementsValidos(linhas[..n]);
      if Contribui(linhas[n]) {
        NomePacoteCorreto(linhas[n]);
        assert Requirements(linhas) == pre + [NomePacote(linhas[n])];
      } else {
        assert Requirements(linhas) == pre;
      }
    } else {
      assert Requirements(linhas) == [];
    }
  }

  /** One more line read: its name, if it contributes one, goes at the end. */
  lemma RequirementsPasso(linhas: seq<string>, i: int)
    requires 0 <= i < |linhas|
    ensures Requirements(linhas[..i + 1]) ==
            Requirements(linhas[..i]) + (if Contribui(linhas[i]) then [NomePacote(linhas[i])] else [])
  {
    assert linhas[..i + 1][..i] == linhas[..i];
  }

  /** `_read_requirements` over the lines of the file. */
  method ReadRequirements(linhas: seq<string>) returns (packages: seq<string>)
    ensures packages == Requirements(linhas)
    ensures forall j :: 0 <= j < |packages| ==> NomeValido(packages[j])
  {
    packages := [];
    var i := 0;
    while i < |linhas|
      invariant 0 <= i <= |linhas|
      invariant packages == Requirements(linhas[..i])
    {
      RequirementsPasso(linhas, i);
      var line := Strip(linhas[i]);
      if line != [] && line[0] != '#' {
        var packageName := AntesDe(AntesDe(Strip(AntesDe(line, "#")), "=="), ">=");
        assert packageName == NomePacote(linhas[i]);
        if packageName != [] {
          packages := packages + [packageName];
        }
      }
      i := i + 1;
    }
    assert linhas[..i] == linhas;
    RequirementsValidos(linhas);
  }

  // ---------------------------------------------------------------------
  // `check_and_install`.

  /** `str.lower` on ASCII letters. */
  function Minuscula(c: char): char {
    if 'A' <= c <= 'Z' then (c as int + 32) as char else c
  }

  function Minusculas(s: string): (r: string)
    ensures |r| == |s| && forall i :: 0 <= i < |s| ==> r[i] == Minuscula(s[i])
  {
    if s == [] then [] else [Minuscula(s[0])] + Minusculas(s[1..])
  }

  /** `pkg.lower().replace('_', '-')`. */
  function Normalizar(p: string): (r: string)
    ensures |r| == |p|
    ensures forall i :: 0 <= i < |p| ==> r[i] == if Minuscula(p[i]) == '_' then '-' else Minuscula(p[i])
  {
    if p == [] then []
    else [if Minuscula(p[0]) == '_' then '-' else Minuscula(p[0])] + Normalizar(p[1..])
  }

  /** `_get_installed_packages`: the lower-cased names of the installed distributions. */
  function InstalledPackages(distribuicoes: seq<string>): (r: set<string>)
    ensures forall n :: n in r <==> exists i :: 0 <= i < |distribuicoes| && n == Minusculas(distribuicoes[i])
  {
    set i | 0 <= i < |distribuicoes| :: Minusculas(distribuicoes[i])
  }

  function FaltaNo(instalados: set<string>): string -> bool {
    (p: string) => Normalizar(p) !in instalados
  }

  /** `missing_packages`: the required names, in order, whose normalised form is not installed. */
  function MissingPackages(required: seq<string>, instalados: set<string>): seq<string> {
    Filter(required, FaltaNo(instalados))
  }

  /**
   * A required name is missing exactly when its normalised form is not
   * installed; the list is empty exactly when every name is installed.
   */
  lemma {:induction false} MissingPackagesCorreto(required: seq<string>, instalados: set<string>)
    ensures forall p :: p in MissingPackages(required, instalados) <==> p in required && Normalizar(p) !in instalados
    ensures MissingPackages(required, instalados) == [] <==>
              forall i :: 0 <= i < |required| ==> Normalizar(required[i]) in instalados
  {
    var m := MissingPackages(required, instalados);
    forall p ensures p in m <==> p in required && Normalizar(p) !in instalados {
      if p in m {
        var j :| 0 <= j < |m| && m[j] == p;
      }
      if p in required && Normalizar(p) !in instalados {
        var i :| 0 <= i < |required| && required[i] == p;
      }
    }
    if forall i :: 0 <= i < |required| ==> Normalizar(required[i]) in instalados {
      FilterNone(required, FaltaNo(instalados));
    }
  }

  /** Installing keeps the file's order: the missing list is a subsequence of the required one. */
  lemma {:induction false} MissingPackagesOrdem(a: seq<string>, b: seq<string>, instalados: set<string>)
    ensures MissingPackages(a + b, instalados) == MissingPackages(a, instalados) + MissingPackages(b, instalados)
  {
    FilterAppend(a, b, FaltaNo(instalados));
  }

  /** How `check_and_install` ends. */
  datatype Verificacao =
    | Satisfeitas                      // returns True: nothing to install
    | Instaladas(pacotes: seq<string>) // pip succeeded: the process exits with status 0
    | Falhou(pacotes: seq<string>)     // pip failed: returns False

  /** `check_and_install`, with the outcome of `pip install` as `pipOk`. */
  function CheckAndInstall(required: seq<string>, distribuicoes: seq<string>, pipOk: bool): (r: Verificacao)
    ensures var instalados := InstalledPackages(distribuicoes);
      (r.Satisfeitas? <==> forall i :: 0 <= i < |required| ==> Normalizar(required[i]) in instalados) &&
      (!r.Satisfeitas? ==> r.pacotes == MissingPackages(required, instalados) && r.pacotes != [] &&
                           (r.Instaladas? <==> pipOk))
  {
    var instalados := InstalledPackages(distribuicoes);
    MissingPackagesCorreto(required, instalados);
    var missing := MissingPackages(required, instalados);
    if missing == [] then Satisfeitas
    else if pipOk then Instaladas(missing)
    else Falhou(missing)
  }
}
