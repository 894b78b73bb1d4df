/** Display of a stored `yyyy-mm-dd` date as `dd/mm/yyyy`. */
module Formatacao {
  import opened Texto

  /** Element `i` of a destructured array as a template literal prints it: `"undefined"` when missing. */
  function ParteOuUndefined(partes: seq<string>, i: nat): string
  {
    if i < |partes| then partes[i] else "undefined"
  }

  /** `formatarData`: `const [y, m, d] = str.split('-'); return d + '/' + m + '/' + y`.
      A text without `-` has no month or day part; both print as `undefined`. */
  function FormatarData(s: string): (r: string)
    ensures '-' !in s ==> r == "undefined/undefined/" + s
  {
    DividirSemSeparador(s, '-');
    var partes := Dividir(s, '-');
    ParteOuUndefined(partes, 2) + "/" + ParteOuUndefined(partes, 1) + "/" + ParteOuUndefined(partes, 0)
  }

  /** A date written `y-m-d` is shown `d/m/y`. */
  lemma FormatarDataIso(y: string, m: string, d: string)
    requires '-' !in y && '-' !in m && '-' !in d
    ensures FormatarData(y + "-" + m + "-" + d) == d + "/" + m + "/" + y
  {
    assert Juntar([y, m, d], '-') == y + "-" + m + "-" + d by {
      assert Juntar([m, d], '-') == m + "-" + d;
      assert [y, m, d][1..] == [m, d];
    }
    DividirJuntar([y, m, d], '-');
  }
}
