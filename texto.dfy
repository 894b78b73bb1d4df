/**
 * The string operations the ledger relies on: `String.prototype.trim`,
 * `split` on one character, `startsWith`, number-to-decimal conversion
 * (`String(n)`) and `padStart(2, '0')`.
 */
module Texto {

  /** The characters `trim` strips: ECMAScript WhiteSpace (tab, vertical tab,
      form feed, space, no-break space, BOM and the Zs category) and
      LineTerminator (LF, CR, U+2028, U+2029). */
  predicate EhEspaco(c: char) {
    || c == ' ' || '\t' <= c <= '\r'
    || c == '\U{00A0}' || c == '\U{1680}' || '\U{2000}' <= c <= '\U{200A}'
    || c == '\U{2028}' || c == '\U{2029}' || c == '\U{202F}' || c == '\U{205F}'
    || c == '\U{3000}' || c == '\U{FEFF}'
  }

  /** Index of the first character that is not white space (|s| if none). */
  function PrimeiroNaoEspaco(s: string): (i: nat)
    ensures i <= |s|
    ensures forall k :: 0 <= k < i ==> EhEspaco(s[k])
    ensures i < |s| ==> !EhEspaco(s[i])
  {
    if |s| == 0 || !EhEspaco(s[0]) then 0 else 1 + PrimeiroNaoEspaco(s[1..])
  }

  /** One past the last character that is not white space (0 if none). */
  function FimSemEspaco(s: string): (j: nat)
    ensures j <= |s|
    ensures forall k :: j <= k < |s| ==> EhEspaco(s[k])
    ensures j > 0 ==> !EhEspaco(s[j - 1])
  {
    if |s| == 0 || !EhEspaco(s[|s| - 1]) then |s| else FimSemEspaco(s[..|s| - 1])
  }

  /** `s.trim()`: the slice of `s` left once leading and trailing white space is removed. */
  function Trim(s: string): (r: string)
    ensures PrimeiroNaoEspaco(s) + |r| <= |s|
    ensures r == s[PrimeiroNaoEspaco(s)..PrimeiroNaoEspaco(s) + |r|]
    ensures r == [] <==> forall k :: 0 <= k < |s| ==> EhEspaco(s[k])
    ensures r != [] ==> !EhEspaco(r[0]) && !EhEspaco(r[|r| - 1])
  {
    var i := PrimeiroNaoEspaco(s);
    var j := FimSemEspaco(s);
    if i < |s| then
      assert i < j;
      s[i..j]
    else
      []
  }

  /** Trimming is exact: white space around a text that neither starts nor ends
      with white space is removed, and nothing else. */
  lemma TrimDeContorno(a: string, m: string, b: string)
    requires forall k :: 0 <= k < |a| ==> EhEspaco(a[k])
    requires forall k :: 0 <= k < |b| ==> EhEspaco(b[k])
    requires m != [] ==> !EhEspaco(m[0]) && !EhEspaco(m[|m| - 1])
    ensures Trim(a + m + b) == m
  {
    var s := a + m + b;
    if m == [] {
      assert forall k :: 0 <= k < |s| ==> EhEspaco(s[k]) by {
        forall k | 0 <= k < |s| ensures EhEspaco(s[k]) {
          if k < |a| { assert s[k] == a[k]; } else { assert s[k] == b[k - |a|]; }
        }
      }
    } else {
      PrimeiroNaoEspacoApos(a, m + b);
      assert s == a + (m + b);
      FimSemEspacoAntes(a + m, b);
      assert s[|a|..|a| + |m|] == m;
    }
  }

  lemma PrimeiroNaoEspacoApos(a: string, t: string)
    requires forall k :: 0 <= k < |a| ==> EhEspaco(a[k])
    requires t != [] && !EhEspaco(t[0])
    ensures PrimeiroNaoEspaco(a + t) == |a|
  {
    assert (a + t)[|a|] == t[0];
    assert forall k :: 0 <= k < |a| ==> (a + t)[k] == a[k];
  }

  lemma FimSemEspacoAntes(t: string, b: string)
    requires forall k :: 0 <= k < |b| ==> EhEspaco(b[k])
    requires t != [] && !EhEspaco(t[|t| - 1])
    ensures FimSemEspaco(t + b) == |t|
  {
    assert (t + b)[|t| - 1] == t[|t| - 1];
    assert forall k :: |t| <= k < |t + b| ==> (t + b)[k] == b[k - |t|];
  }

  /** Trimming twice is trimming once. */
  lemma TrimIdempotente(s: string)
    ensures Trim(Trim(s)) == Trim(s)
  {
    var r := Trim(s);
    assert r == [] + r + [];
    TrimDeContorno([], r, []);
  }

  /** `s.split(sep)`: the maximal runs between occurrences of `sep`; an empty
      string gives one empty part. */
  function Dividir(s: string, sep: char): (partes: seq<string>)
    ensures |partes| >= 1
    ensures forall k :: 0 <= k < |partes| ==> sep !in partes[k]
  {
    if |s| == 0 then [""]
    else
      var resto := Dividir(s[1..], sep);
      if s[0] == sep then [""] + resto
      else [[s[0]] + resto[0]] + resto[1..]
  }

  /** The inverse of `Dividir`: the parts joined with `sep` between them. */
  function Juntar(partes: seq<string>, sep: char): string
    requires |partes| >= 1
  {
    if |partes| == 1 then partes[0] else partes[0] + [sep] + Juntar(partes[1..], sep)
  }

  lemma {:induction false} JuntarDividir(s: string, sep: char)
    ensures Juntar(Dividir(s, sep), sep) == s
  {
    if |s| > 0 {
      JuntarDividir(s[1..], sep);
      var resto := Dividir(s[1..], sep);
      if s[0] == sep {
        assert Dividir(s, sep)[1..] == resto;
      } else {
        var ps := Dividir(s, sep);
        assert ps[1..] == resto[1..];
        if |resto| == 1 {
          assert Juntar(ps, sep) == [s[0]] + resto[0];
        } else {
          assert Juntar(resto, sep) == resto[0] + [sep] + Juntar(resto[1..], sep);
        }
        assert s == [s[0]] + s[1..];
      }
    }
  }

  /** Splitting a prefix free of `sep` followed by `sep` peels that prefix off as the first part. */
  lemma {:induction false} DividirPrefixo(p: string, sep: char, resto: string)
    requires sep !in p
    ensures Dividir(p + [sep] + resto, sep) == [p] + Dividir(resto, sep)
  {
    if |p| == 0 {
      assert p + [sep] + resto == [sep] + resto;
    } else {
      DividirPrefixo(p[1..], sep, resto);
      assert (p + [sep] + resto)[1..] == p[1..] + [sep] + resto;
      assert [p[0]] + p[1..] == p;
    }
  }

  /** Splitting on `sep` undoes joining parts that do not contain `sep`. */
  lemma {:induction false} DividirJuntar(partes: seq<string>, sep: char)
    requires |partes| >= 1
    requires forall k :: 0 <= k < |partes| ==> sep !in partes[k]
    ensures Dividir(Juntar(partes, sep), sep) == partes
  {
    if |partes| == 1 {
      DividirSemSeparador(partes[0], sep);
    } else {
      DividirJuntar(partes[1..], sep);
      DividirPrefixo(partes[0], sep, Juntar(partes[1..], sep));
      assert [partes[0]] + partes[1..] == partes;
    }
  }

  /** A text without `sep` splits into itself alone. */
  lemma {:induction false} DividirSemSeparador(p: string, sep: char)
    ensures sep !in p ==> Dividir(p, sep) == [p]
  {
    if |p| > 0 && sep !in p {
      DividirSemSeparador(p[1..], sep);
      assert [p[0]] + p[1..] == p;
    }
  }

  /** `s.startsWith(prefixo)`. */
  predicate ComecaCom(s: string, prefixo: string) {
    |prefixo| <= |s| && s[..|prefixo|] == prefixo
  }

  function Digito(d: nat): (c: char)
    requires d < 10
    ensures '0' <= c <= '9'
  {
    (48 + d) as char
  }

  /** `String(n)` for a non-negative integer: its decimal digits, without leading zeros. */
  function NatParaTexto(n: nat): (r: string)
    ensures |r| >= 1 && '0' <= r[0] <= '9'
  {
    if n < 10 then [Digito(n)] else NatParaTexto(n / 10) + [Digito(n % 10)]
  }

  /** `String(n)` of a natural number is all decimal digits, with no leading zero. */
  lemma {:induction false} NatParaTextoDigitos(n: nat)
    ensures forall k :: 0 <= k < |NatParaTexto(n)| ==> '0' <= NatParaTexto(n)[k] <= '9'
    ensures |NatParaTexto(n)| > 1 ==> NatParaTexto(n)[0] != '0'
  {
    if n >= 10 {
      NatParaTextoDigitos(n / 10);
      var r, q := NatParaTexto(n), NatParaTexto(n / 10);
      assert r == q + [Digito(n % 10)];
      if |q| == 1 {
        assert q == [Digito(n / 10)] && n / 10 != 0;
      }
    }
  }

  /** `String(n)` for any integer: a minus sign before the digits of a negative number. */
  function IntParaTexto(n: int): (r: string)
    ensures |r| >= 1
    ensures r[0] == '-' <==> n < 0
  {
    if n < 0 then "-" + NatParaTexto(-n) else NatParaTexto(n)
  }

  /** The value of a string of decimal digits; the partner of `NatParaTexto`. */
  function ValorDigitos(s: string): nat
  {
    if |s| == 0 then 0
    else 10 * ValorDigitos(s[..|s| - 1]) + (if '0' <= s[|s| - 1] <= '9' then s[|s| - 1] as int - 48 else 0)
  }

  /** The value of `IntParaTexto`'s output read back, sign included. */
  function ValorInteiro(s: string): int
  {
    if |s| > 0 && s[0] == '-' then 0 - ValorDigitos(s[1..]) else ValorDigitos(s)
  }

  lemma {:induction false} NatParaTextoIda(n: nat)
    ensures ValorDigitos(NatParaTexto(n)) == n
  {
    if n >= 10 {
      NatParaTextoIda(n / 10);
      var r := NatParaTexto(n);
      assert r[..|r| - 1] == NatParaTexto(n / 10);
    }
  }

  /** Decimal conversion loses nothing: reading the digits back gives the number. */
  lemma IntParaTextoIda(n: int)
    ensures ValorInteiro(IntParaTexto(n)) == n
  {
    if n < 0 {
      NatParaTextoIda(-n);
      assert IntParaTexto(n)[1..] == NatParaTexto(-n);
    } else {
      NatParaTextoIda(n);
    }
  }

  /** Distinct integers are written differently. */
  lemma IntParaTextoInjetiva(a: int, b: int)
    requires IntParaTexto(a) == IntParaTexto(b)
    ensures a == b
  {
    IntParaTextoIda(a);
    IntParaTextoIda(b);
  }

  /** `s.padStart(2, '0')`. */
  function PadStart2(s: string): (r: string)
    ensures |r| == if |s| < 2 then 2 else |s|
    ensures r[|r| - |s|..] == s
    ensures forall k :: 0 <= k < |r| - |s| ==> r[k] == '0'
  {
    if |s| >= 2 then s else if |s| == 1 then ['0'] + s else ['0', '0']
  }
}
