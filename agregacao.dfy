/**
 * Derived views of the ledger: the income/expense/balance totals, the list
 * filter, and the per-month series the bar chart is drawn from.
 */
module Agregacao {
  import opened Texto
  import opened Modelo

  /** `reduce((acc, t) => acc + t.valor, 0)`: the amounts added left to right. */
  function Soma(ts: seq<Transacao>): nat
  {
    if |ts| == 0 then 0 else Soma(ts[..|ts| - 1]) + ts[|ts| - 1].valor
  }

  lemma {:induction false} SomaConcat(a: seq<Transacao>, b: seq<Transacao>)
    ensures Soma(a + b) == Soma(a) + Soma(b)
  {
    if |b| == 0 {
      assert a + b == a;
    } else {
      var b' := b[..|b| - 1];
      assert (a + b)[..|a + b| - 1] == a + b';
      SomaConcat(a, b');
    }
  }

  /** `transacoes.filter(t => t.tipo === tipo)`. */
  function ComTipo(ts: seq<Transacao>, tipo: Tipo): (r: seq<Transacao>)
    ensures |r| <= |ts|
  {
    if |ts| == 0 then []
    else
      var ultimo := ts[|ts| - 1];
      ComTipo(ts[..|ts| - 1], tipo) + (if ultimo.tipo == tipo then [ultimo] else [])
  }

  /** The type view holds exactly the records of the requested type. */
  lemma {:induction false} ComTipoMembros(ts: seq<Transacao>, tipo: Tipo)
    ensures forall t :: t in ComTipo(ts, tipo) <==> t in ts && t.tipo == tipo
  {
    if |ts| > 0 {
      var inicio := ts[..|ts| - 1];
      ComTipoMembros(inicio, tipo);
      assert ts == inicio + [ts[|ts| - 1]];
    }
  }

  /** The type view of a non-empty store: the view of all but the last record, then the last if it matches. */
  lemma ComTipoUltimo(ts: seq<Transacao>, tipo: Tipo)
    requires |ts| > 0
    ensures ComTipo(ts, tipo) == ComTipo(ts[..|ts| - 1], tipo) + (if ts[|ts| - 1].tipo == tipo then [ts[|ts| - 1]] else [])
  {
  }

  /** The type view keeps the store's order: filtering a concatenation filters each part. */
  lemma {:induction false} ComTipoConcat(a: seq<Transacao>, b: seq<Transacao>, tipo: Tipo)
    ensures ComTipo(a + b, tipo) == ComTipo(a, tipo) + ComTipo(b, tipo)
  {
    if |b| == 0 {
      assert a + b == a;
    } else {
      var ab, b', x := a + b, b[..|b| - 1], b[|b| - 1];
      assert ab[..|ab| - 1] == a + b' && ab[|ab| - 1] == x;
      ComTipoUltimo(ab, tipo);
      ComTipoUltimo(b, tipo);
      ComTipoConcat(a, b', tipo);
      var ra, rb', fim := ComTipo(a, tipo), ComTipo(b', tipo), if x.tipo == tipo then [x] else [];
      assert (ra + rb') + fim == ra + (rb' + fim);
    }
  }

  /** Every record is either income or expense: the two type views split the amounts and the count. */
  lemma {:induction false} ParticaoPorTipo(ts: seq<Transacao>)
    ensures Soma(ComTipo(ts, Receita)) + Soma(ComTipo(ts, Despesa)) == Soma(ts)
    ensures |ComTipo(ts, Receita)| + |ComTipo(ts, Despesa)| == |ts|
  {
    if |ts| > 0 {
      var inicio, ultimo := ts[..|ts| - 1], ts[|ts| - 1];
      ParticaoPorTipo(inicio);
      SomaConcat(ComTipo(inicio, Receita), if ultimo.tipo == Receita then [ultimo] else []);
      SomaConcat(ComTipo(inicio, Despesa), if ultimo.tipo == Despesa then [ultimo] else []);
    }
  }

  datatype Totais = Totais(receitas: nat, despesas: nat, saldo: int)

  /** `calcularTotais`: income and expense sums over the whole store and the balance between them. */
  function CalcularTotais(ts: seq<Transacao>): (r: Totais)
    ensures r.saldo == r.receitas - r.despesas
    ensures r.receitas + r.despesas == Soma(ts)
    ensures r.receitas == Soma(ComTipo(ts, Receita))
    ensures r.despesas == Soma(ComTipo(ts, Despesa))
  {
    var receitas := Soma(ComTipo(ts, Receita));
    var despesas := Soma(ComTipo(ts, Despesa));
    ParticaoPorTipo(ts);
    Totais(receitas, despesas, receitas - despesas)
  }

  /** Appending a record moves exactly one total, by its amount, and the balance with it. */
  lemma TotaisAposAdicionar(ts: seq<Transacao>, t: Transacao)
    ensures var antes, depois := CalcularTotais(ts), CalcularTotais(ts + [t]);
      if t.tipo == Receita then
        depois == Totais(antes.receitas + t.valor, antes.despesas, antes.saldo + t.valor)
      else
        depois == Totais(antes.receitas, antes.despesas + t.valor, antes.saldo - t.valor)
  {
    var ts' := ts + [t];
    assert ts'[..|ts'| - 1] == ts && ts'[|ts'| - 1] == t;
    assert Soma([t]) == t.valor by {
      assert [t][..0] == [];
    }
    var antes, depois := CalcularTotais(ts), CalcularTotais(ts');
    ComTipoUltimo(ts', Receita);
    ComTipoUltimo(ts', Despesa);
    if t.tipo == Receita {
      SomaConcat(ComTipo(ts, Receita), [t]);
      assert ComTipo(ts', Despesa) == ComTipo(ts, Despesa) + [];
      assert depois.receitas == antes.receitas + t.valor;
      assert depois.despesas == antes.despesas;
    } else {
      SomaConcat(ComTipo(ts, Despesa), [t]);
      assert ComTipo(ts', Receita) == ComTipo(ts, Receita) + [];
      assert depois.receitas == antes.receitas;
      assert depois.despesas == antes.despesas + t.valor;
    }
  }

  /** The list filter: `'todos'` or one type. */
  datatype Filtro = Todos | Somente(tipo: Tipo)

  /** `filtrarTransacoes`: the whole store for `'todos'`, otherwise the records of that type in store order. */
  function FiltrarTransacoes(ts: seq<Transacao>, filtro: Filtro): (r: seq<Transacao>)
    ensures filtro == Todos ==> r == ts
    ensures filtro.Somente? ==> forall t :: t in r <==> t in ts && t.tipo == filtro.tipo
  {
    match filtro
    case Todos => ts
    case Somente(tipo) =>
      ComTipoMembros(ts, tipo);
      ComTipo(ts, tipo)
  }

  /** The three filter views: `'todos'` lists as many records as `'receita'` and `'despesa'` together. */
  lemma FiltrosParticionam(ts: seq<Transacao>)
    ensures |FiltrarTransacoes(ts, Todos)|
         == |FiltrarTransacoes(ts, Somente(Receita))| + |FiltrarTransacoes(ts, Somente(Despesa))|
  {
    ParticaoPorTipo(ts);
  }

  // ---------------------------------------------------------------------------
  // Monthly series

  const MESES_NOMES: seq<string> := ["Jan", "Fev", "Mar", "Abr", "Mai", "Jun", "Jul", "Ago", "Set", "Out", "Nov", "Dez"]

  /** A calendar month as a JavaScript `Date` reports it: full year and 0-based month. */
  datatype Mes = Mes(ano: int, mes: int)

  predicate MesValido(m: Mes) { 0 <= m.mes < 12 }

  /** Months since year 0: the order in which months follow one another. */
  function IndiceMes(m: Mes): int { m.ano * 12 + m.mes }

  /** The year `new Date(ano, …)` starts from: a year argument from 0 to 99 stands for 1900 + ano;
      any other year is taken as given. */
  function AnoDoDate(ano: int): (r: int)
    ensures !(0 <= r <= 99)
    ensures r == ano <==> !(0 <= ano <= 99)
    ensures r != ano ==> 1900 <= r <= 1999 && r % 100 == ano
  {
    if 0 <= ano <= 99 then 1900 + ano else ano
  }

  /** `new Date(ano, mes - i, 1)`: a month number outside 0..11 moves twelve months at a time
      into the previous or the next year until it fits. */
  function MesDeslocado(ano: int, mes: int, i: int): (d: Mes)
    ensures MesValido(d)
    ensures IndiceMes(d) == ano * 12 + mes - i
    decreases if mes - i < 0 then i - mes else if mes - i >= 12 then mes - i - 11 else 0
  {
    if mes - i < 0 then MesDeslocado(ano - 1, mes + 12, i)
    else if mes - i >= 12 then MesDeslocado(ano + 1, mes - 12, i)
    else Mes(ano, mes - i)
  }

  /** A valid month is determined by its index, so `MesDeslocado` is the only normalisation. */
  lemma MesPorIndice(m1: Mes, m2: Mes)
    requires MesValido(m1) && MesValido(m2) && IndiceMes(m1) == IndiceMes(m2)
    ensures m1 == m2
  {
  }

  /** The calendar month after `m`. */
  function MesSeguinte(m: Mes): Mes
  {
    if m.mes == 11 then Mes(m.ano + 1, 0) else Mes(m.ano, m.mes + 1)
  }

  /** Offsets one apart are consecutive months, across a year boundary too. */
  lemma MesDeslocadoSeguinte(ano: int, mes: int, i: int, j: int)
    requires i == j + 1
    ensures MesSeguinte(MesDeslocado(ano, mes, i)) == MesDeslocado(ano, mes, j)
  {
    var m := MesDeslocado(ano, mes, i);
    assert IndiceMes(MesSeguinte(m)) == IndiceMes(m) + 1;
    MesPorIndice(MesSeguinte(m), MesDeslocado(ano, mes, j));
  }

  /** `ano + '-' + String(mes + 1).padStart(2, '0')`: the `YYYY-MM` prefix of dates in month `m`:
      the year text, a hyphen, and the month number 1..12 in two digits. */
  function ChaveMes(m: Mes): (chave: string)
    requires MesValido(m)
    ensures |chave| == |IntParaTexto(m.ano)| + 3
    ensures chave[..|chave| - 3] == IntParaTexto(m.ano) && chave[|chave| - 3] == '-'
    ensures chave[|chave| - 2..] == if m.mes < 9 then ['0', Digito(m.mes + 1)] else ['1', Digito(m.mes - 9)]
  {
    DoisDigitos(m.mes + 1);
    var ano, mes := IntParaTexto(m.ano), PadStart2(NatParaTexto(m.mes + 1));
    var c := ano + "-" + mes;
    assert c[..|ano|] == ano && c[|ano|] == '-' && c[|ano| + 1..] == mes;
    c
  }

  /** The two-digit month field: `0` and the digit up to 9, `1` and the units digit from 10 on. */
  lemma DoisDigitos(n: nat)
    requires 1 <= n <= 12
    ensures PadStart2(NatParaTexto(n)) == if n < 10 then ['0', Digito(n)] else ['1', Digito(n - 10)]
  {
    if n == 10 {
      assert NatParaTexto(10) == NatParaTexto(1) + [Digito(0)];
    } else if n == 11 {
      assert NatParaTexto(11) == NatParaTexto(1) + [Digito(1)];
    } else if n == 12 {
      assert NatParaTexto(12) == NatParaTexto(1) + [Digito(2)];
    }
  }

  lemma DigitoInjetivo(a: nat, b: nat)
    requires a < 10 && b < 10 && Digito(a) == Digito(b)
    ensures a == b
  {
    assert (48 + a) as char as int == 48 + a;
    assert (48 + b) as char as int == 48 + b;
  }

  /** Distinct months have distinct keys. */
  lemma ChaveMesInjetiva(m1: Mes, m2: Mes)
    requires MesValido(m1) && MesValido(m2)
    requires ChaveMes(m1) == ChaveMes(m2)
    ensures m1 == m2
  {
    var c := ChaveMes(m1);
    assert IntParaTexto(m1.ano) == c[..|c| - 3] == IntParaTexto(m2.ano);
    IntParaTextoInjetiva(m1.ano, m2.ano);
    var p := c[|c| - 2..];
    assert (m1.mes < 9) == (p[0] == '0') == (m2.mes < 9);
    if m1.mes < 9 {
      DigitoInjetivo(m1.mes + 1, m2.mes + 1);
    } else {
      DigitoInjetivo(m1.mes - 9, m2.mes - 9);
    }
  }

  /** `MESES_NOMES[d.getMonth()] + '/' + ano`. */
  function RotuloMes(m: Mes): (r: string)
    requires MesValido(m)
    ensures |r| == |MESES_NOMES[m.mes]| + 1 + |IntParaTexto(m.ano)|
    ensures ComecaCom(r, MESES_NOMES[m.mes])
    ensures r[|MESES_NOMES[m.mes]|] == '/' && r[|MESES_NOMES[m.mes]| + 1..] == IntParaTexto(m.ano)
  {
    MESES_NOMES[m.mes] + "/" + IntParaTexto(m.ano)
  }

  /** The bucket test of the chart: a record of the given type whose date starts with the month key. */
  predicate NoMes(t: Transacao, tipo: Tipo, chave: string)
  {
    t.tipo == tipo && t.data != "" && ComecaCom(t.data, chave)
  }

  /** `transacoes.filter(t => t.tipo === tipo && t.data && t.data.startsWith(chave))`. */
  function DoMes(ts: seq<Transacao>, tipo: Tipo, chave: string): (r: seq<Transacao>)
    ensures |r| <= |ts|
  {
    if |ts| == 0 then []
    else
      var ultimo := ts[|ts| - 1];
      DoMes(ts[..|ts| - 1], tipo, chave) + (if NoMes(ultimo, tipo, chave) then [ultimo] else [])
  }

  /** The bucket holds exactly the records of the type whose non-empty date starts with the key. */
  lemma {:induction false} DoMesMembros(ts: seq<Transacao>, tipo: Tipo, chave: string)
    ensures forall t :: t in DoMes(ts, tipo, chave) <==> t in ts && NoMes(t, tipo, chave)
  {
    if |ts| > 0 {
      var inicio := ts[..|ts| - 1];
      DoMesMembros(inicio, tipo, chave);
      assert ts == inicio + [ts[|ts| - 1]];
    }
  }

  /** The bucket of a non-empty store: the bucket of all but the last record, then the last if it matches. */
  lemma DoMesUltimo(ts: seq<Transacao>, tipo: Tipo, chave: string)
    requires |ts| > 0
    ensures DoMes(ts, tipo, chave)
         == DoMes(ts[..|ts| - 1], tipo, chave) + (if NoMes(ts[|ts| - 1], tipo, chave) then [ts[|ts| - 1]] else [])
  {
  }

  /** The bucket keeps the store's order and multiplicity: bucketing a concatenation buckets each part. */
  lemma {:induction false} DoMesConcat(a: seq<Transacao>, b: seq<Transacao>, tipo: Tipo, chave: string)
    ensures DoMes(a + b, tipo, chave) == DoMes(a, tipo, chave) + DoMes(b, tipo, chave)
  {
    if |b| == 0 {
      assert a + b == a;
    } else {
      var ab, b', x := a + b, b[..|b| - 1], b[|b| - 1];
      assert ab[..|ab| - 1] == a + b' && ab[|ab| - 1] == x;
      DoMesUltimo(ab, tipo, chave);
      DoMesUltimo(b, tipo, chave);
      DoMesConcat(a, b', tipo, chave);
      var ra, rb', fim := DoMes(a, tipo, chave), DoMes(b', tipo, chave), if NoMes(x, tipo, chave) then [x] else [];
      assert (ra + rb') + fim == ra + (rb' + fim);
    }
  }

  /** A month's bucket never exceeds the total of its type. */
  lemma {:induction false} MesLimitadoPeloTotal(ts: seq<Transacao>, tipo: Tipo, chave: string)
    ensures Soma(DoMes(ts, tipo, chave)) <= Soma(ComTipo(ts, tipo))
  {
    if |ts| > 0 {
      var inicio, ultimo := ts[..|ts| - 1], ts[|ts| - 1];
      MesLimitadoPeloTotal(inicio, tipo, chave);
      SomaConcat(DoMes(inicio, tipo, chave), if NoMes(ultimo, tipo, chave) then [ultimo] else []);
      SomaConcat(ComTipo(inicio, tipo), if ultimo.tipo == tipo then [ultimo] else []);
    }
  }

  /** One bar group of the chart. */
  datatype DadosMes = DadosMes(rotulo: string, receita: nat, despesa: nat)

  /** The bar group of month `m`: its label, and the sums of its income and expense buckets under its key. */
  function DadosDoMes(ts: seq<Transacao>, m: Mes): (r: DadosMes)
    requires MesValido(m)
    ensures r.rotulo == RotuloMes(m)
    ensures r.receita == Soma(DoMes(ts, Receita, ChaveMes(m)))
    ensures r.despesa == Soma(DoMes(ts, Despesa, ChaveMes(m)))
  {
    var chave := ChaveMes(m);
    DadosMes(RotuloMes(m), Soma(DoMes(ts, Receita, chave)), Soma(DoMes(ts, Despesa, chave)))
  }

  /** `obterDadosPorMes(n)` with "now" in month `mes` of `ano`: the trailing n months, oldest first. */
  function SerieMensal(ts: seq<Transacao>, n: nat, ano: int, mes: int): (r: seq<DadosMes>)
    ensures |r| == n
  {
    seq(n, k requires 0 <= k < n => DadosDoMes(ts, MesDeslocado(AnoDoDate(ano), mes, n - 1 - k)))
  }

  /** Entry k is the month i = n − 1 − k months before now. */
  lemma SerieMensalEntrada(ts: seq<Transacao>, n: nat, ano: int, mes: int, k: nat, i: int)
    requires k < n && i == n - 1 - k
    ensures SerieMensal(ts, n, ano, mes)[k] == DadosDoMes(ts, MesDeslocado(AnoDoDate(ano), mes, i))
  {
  }

  /** The first k + 1 entries are the first k followed by the month i = n − 1 − k months before now. */
  lemma SerieMensalPrefixo(ts: seq<Transacao>, n: nat, ano: int, mes: int, k: nat, i: int)
    requires k < n && i == n - 1 - k
    ensures SerieMensal(ts, n, ano, mes)[..k + 1] == SerieMensal(ts, n, ano, mes)[..k] + [DadosDoMes(ts, MesDeslocado(AnoDoDate(ano), mes, i))]
  {
    var serie := SerieMensal(ts, n, ano, mes);
    SerieMensalEntrada(ts, n, ano, mes, k, i);
    assert serie[..k + 1] == serie[..k] + [serie[k]];
  }

  /** The last entry of the series is the current month. */
  lemma SerieTerminaNoMesAtual(ts: seq<Transacao>, n: nat, ano: int, mes: int)
    requires n > 0 && 0 <= mes < 12
    ensures SerieMensal(ts, n, ano, mes)[n - 1].rotulo == MESES_NOMES[mes] + "/" + IntParaTexto(AnoDoDate(ano))
  {
    assert MesDeslocado(AnoDoDate(ano), mes, 0) == Mes(AnoDoDate(ano), mes);
    SerieMensalEntrada(ts, n, ano, mes, n - 1, 0);
  }

  /** Entry k + 1 is the month after entry k, and its label and sums are that month's. */
  lemma SerieConsecutiva(ts: seq<Transacao>, n: nat, ano: int, mes: int, k: nat)
    requires k + 1 < n
    ensures var m := MesDeslocado(AnoDoDate(ano), mes, n - 1 - k);
      && SerieMensal(ts, n, ano, mes)[k] == DadosDoMes(ts, m)
      && SerieMensal(ts, n, ano, mes)[k + 1] == DadosDoMes(ts, MesSeguinte(m))
  {
    var i, j := n - 1 - k, n - 2 - k;
    SerieMensalEntrada(ts, n, ano, mes, k, i);
    SerieMensalEntrada(ts, n, ano, mes, k + 1, j);
    MesDeslocadoSeguinte(AnoDoDate(ano), mes, i, j);
  }

  /** No bar of the series exceeds the corresponding total. */
  lemma SerieLimitadaPelosTotais(ts: seq<Transacao>, n: nat, ano: int, mes: int, k: nat)
    requires k < n
    ensures SerieMensal(ts, n, ano, mes)[k].receita <= CalcularTotais(ts).receitas
    ensures SerieMensal(ts, n, ano, mes)[k].despesa <= CalcularTotais(ts).despesas
  {
    var i := n - 1 - k;
    var m := MesDeslocado(AnoDoDate(ano), mes, i);
    var chave := ChaveMes(m);
    SerieMensalEntrada(ts, n, ano, mes, k, i);
    MesLimitadoPeloTotal(ts, Receita, chave);
    MesLimitadoPeloTotal(ts, Despesa, chave);
  }
}
