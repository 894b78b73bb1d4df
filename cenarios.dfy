/** Worked examples of the ledger's behaviour on concrete data. */
module Cenarios {
  import opened Wrappers
  import opened Texto
  import opened Modelo
  import opened Agregacao

  /** A salary of 1000 and a rent of 400 give a balance of 600. */
  lemma CenarioTotais()
    ensures CalcularTotais([
      Transacao("a", "Salary", 1000, Receita, "2024-01-15", None),
      Transacao("b", "Rent", 400, Despesa, "2024-01-20", None)]) == Totais(1000, 400, 600)
  {
    var salario := Transacao("a", "Salary", 1000, Receita, "2024-01-15", None);
    var aluguel := Transacao("b", "Rent", 400, Despesa, "2024-01-20", None);
    assert CalcularTotais([]) == Totais(0, 0, 0);
    TotaisAposAdicionar([], salario);
    assert [] + [salario] == [salario];
    assert CalcularTotais([salario]) == Totais(1000, 0, 1000);
    TotaisAposAdicionar([salario], aluguel);
    assert [salario] + [aluguel] == [salario, aluguel];
  }

  lemma Ano2024()
    ensures IntParaTexto(2024) == "2024"
  {
    assert NatParaTexto(2) == "2";
    assert NatParaTexto(20) == "20";
    assert NatParaTexto(202) == "202";
  }


  lemma ChavesDoCenario()
    ensures ChaveMes(Mes(2024, 0)) == "2024-01"
    ensures ChaveMes(Mes(2024, 1)) == "2024-02"
  {
    ChaveDe2024(0);
    ChaveDe2024(1);
    assert Digito(1) == '1' && Digito(2) == '2';
  }

  /** The key of a month from January to September 2024. */
  lemma ChaveDe2024(mes: int)
    requires 0 <= mes < 9
    ensures ChaveMes(Mes(2024, mes)) == "2024-0" + [Digito(mes + 1)]
  {
    var c := ChaveMes(Mes(2024, mes));
    Ano2024();
    assert c == c[..4] + c[4..] && c[4..] == ['-'] + c[5..];
  }

  lemma RotulosDoCenario()
    ensures RotuloMes(Mes(2024, 0)) == "Jan/2024"
    ensures RotuloMes(Mes(2024, 1)) == "Fev/2024"
  {
    Ano2024();
  }

  lemma DoMesDeDois(r: Transacao, d: Transacao, tipo: Tipo, chave: string)
    ensures DoMes([r, d], tipo, chave)
         == (if NoMes(r, tipo, chave) then [r] else []) + (if NoMes(d, tipo, chave) then [d] else [])
  {
    assert [r, d][..1] == [r] && [r][..0] == [];
    assert DoMes([r], tipo, chave) == DoMes([], tipo, chave) + (if NoMes(r, tipo, chave) then [r] else []);
  }

  lemma BaldesDoCenario(r: Transacao, d: Transacao)
    requires r == Transacao("a", "Salary", 100, Receita, "2024-01-05", None)
    requires d == Transacao("b", "Rent", 50, Despesa, "2024-02-01", None)
    ensures DoMes([r, d], Receita, "2024-01") == [r]
    ensures DoMes([r, d], Despesa, "2024-01") == []
    ensures DoMes([r, d], Receita, "2024-02") == []
    ensures DoMes([r, d], Despesa, "2024-02") == [d]
  {
    assert r.data[..7] == "2024-01" && d.data[..7] == "2024-02";
    DoMesDeDois(r, d, Receita, "2024-01");
    DoMesDeDois(r, d, Despesa, "2024-01");
    DoMesDeDois(r, d, Receita, "2024-02");
    DoMesDeDois(r, d, Despesa, "2024-02");
  }

  /** Two months ending in February 2024: January holds the income, February the expense. */
  lemma CenarioSerieMensal(r: Transacao, d: Transacao)
    requires r == Transacao("a", "Salary", 100, Receita, "2024-01-05", None)
    requires d == Transacao("b", "Rent", 50, Despesa, "2024-02-01", None)
    ensures SerieMensal([r, d], 2, 2024, 1) == [DadosMes("Jan/2024", 100, 0), DadosMes("Fev/2024", 0, 50)]
  {
    var ts := [r, d];
    var jan, fev := Mes(2024, 0), Mes(2024, 1);
    ChavesDoCenario();
    RotulosDoCenario();
    BaldesDoCenario(r, d);
    assert Soma([r]) == 100 && Soma([d]) == 50 by {
      assert [r][..0] == [] && [d][..0] == [];
    }
    assert DadosDoMes(ts, jan) == DadosMes("Jan/2024", 100, 0);
    assert DadosDoMes(ts, fev) == DadosMes("Fev/2024", 0, 50);
    assert AnoDoDate(2024) == 2024;
    assert MesDeslocado(2024, 1, 1) == jan && MesDeslocado(2024, 1, 0) == fev;
    SerieDeDoisMeses(ts, 2024, 1);
  }

  lemma SerieDeDoisMeses(ts: seq<Transacao>, ano: int, mes: int)
    ensures SerieMensal(ts, 2, ano, mes)
         == [DadosDoMes(ts, MesDeslocado(AnoDoDate(ano), mes, 1)), DadosDoMes(ts, MesDeslocado(AnoDoDate(ano), mes, 0))]
  {
    SerieMensalEntrada(ts, 2, ano, mes, 0, 1);
    SerieMensalEntrada(ts, 2, ano, mes, 1, 0);
    DoisElementos(SerieMensal(ts, 2, ano, mes));
  }

  lemma DoisElementos<T>(s: seq<T>)
    requires |s| == 2
    ensures s == [s[0], s[1]]
  {
  }

  /** A current year from 0 to 99 is read by `new Date` as 1900 + that year: "now" in January 99 is labelled 1999. */
  lemma RotuloDoAno99(ts: seq<Transacao>)
    ensures SerieMensal(ts, 1, 99, 0)[0].rotulo == "Jan/1999"
  {
    SerieTerminaNoMesAtual(ts, 1, 99, 0);
    assert AnoDoDate(99) == 1999;
    Ano1999();
  }

  lemma Ano1999()
    ensures IntParaTexto(1999) == "1999"
  {
    assert NatParaTexto(1) == "1";
    assert NatParaTexto(19) == "19";
    assert NatParaTexto(199) == "199";
  }
}
