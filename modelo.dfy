/**
 * The ledger's records and the pure form of the three store mutations:
 * appending a record, replacing one in place by id, and removing by id.
 */
module Modelo {
  import opened Wrappers
  import Texto

  datatype Tipo = Receita | Despesa

  /** An attached receipt: original file name, MIME type and the data-URL text, kept opaque. */
  datatype Comprovante = Comprovante(nome: string, tipo: string, data: string)

  /** A ledger entry. `valor` is a non-negative amount in centavos; its sign is given by `tipo`. */
  datatype Transacao = Transacao(
    id: string,
    descricao: string,
    valor: nat,
    tipo: Tipo,
    data: string,
    comprovante: Option<Comprovante>)

  /** The form fields of a submission; `valor` is the amount as typed, in centavos, possibly negative. */
  datatype Dados = Dados(descricao: string, valor: int, tipo: Tipo, data: string)

  /** `Math.abs`. */
  function Abs(x: int): (r: nat)
    ensures r == x || r == -x
  {
    if x < 0 then -x else x
  }

  /** The record built from a submission: trimmed description, absolute amount. */
  function Registro(id: string, dados: Dados, comprovante: Option<Comprovante>): (t: Transacao)
    ensures t.id == id && t.tipo == dados.tipo && t.data == dados.data && t.comprovante == comprovante
    ensures t.descricao == Texto.Trim(dados.descricao) && t.valor == Abs(dados.valor)
    ensures t.valor == dados.valor || t.valor == -dados.valor
    ensures |t.descricao| > 0 ==> !Texto.EhEspaco(t.descricao[0]) && !Texto.EhEspaco(t.descricao[|t.descricao| - 1])
  {
    Transacao(id, Texto.Trim(dados.descricao), Abs(dados.valor), dados.tipo, dados.data, comprovante)
  }

  function Ids(ts: seq<Transacao>): set<string>
  {
    set t | t in ts :: t.id
  }

  /** No two records share an id. */
  predicate IdsUnicos(ts: seq<Transacao>)
  {
    forall i, j :: 0 <= i < j < |ts| ==> ts[i].id != ts[j].id
  }

  /** `transacoes.findIndex(t => t.id === id)`, with `None` for -1. */
  function IndiceDe(ts: seq<Transacao>, id: string): (r: Option<nat>)
    ensures r.None? <==> id !in Ids(ts)
    ensures r.Some? ==> r.value < |ts| && ts[r.value].id == id
    ensures r.Some? ==> forall k :: 0 <= k < r.value ==> ts[k].id != id
  {
    if |ts| == 0 then None
    else if ts[0].id == id then Some(0)
    else
      var resto := IndiceDe(ts[1..], id);
      assert Ids(ts) == {ts[0].id} + Ids(ts[1..]) by {
        assert forall t :: t in ts <==> t == ts[0] || t in ts[1..];
      }
      match resto
      case None => None
      case Some(i) => Some(i + 1)
  }

  /** Two lists holding the same id at every position hold the same ids. */
  lemma IdsPorPosicao(a: seq<Transacao>, b: seq<Transacao>)
    requires |a| == |b| && forall k :: 0 <= k < |a| ==> a[k].id == b[k].id
    ensures Ids(a) == Ids(b)
  {
    forall x | x in Ids(a) ensures x in Ids(b) {
      var t :| t in a && t.id == x;
      var k :| 0 <= k < |a| && a[k] == t;
      assert b[k] in b;
    }
    forall x | x in Ids(b) ensures x in Ids(a) {
      var t :| t in b && t.id == x;
      var k :| 0 <= k < |b| && b[k] == t;
      assert a[k] in a;
    }
  }

  /** Appending one record is the only thing adding does; it keeps ids unique when the new id is fresh. */
  lemma AdicionarPreservaUnicidade(ts: seq<Transacao>, t: Transacao)
    requires IdsUnicos(ts) && t.id !in Ids(ts)
    ensures IdsUnicos(ts + [t])
    ensures Ids(ts + [t]) == Ids(ts) + {t.id}
  {
    var r := ts + [t];
    forall i, j | 0 <= i < j < |r| ensures r[i].id != r[j].id {
      if j == |ts| { assert r[i] in ts; }
    }
  }

  /** `transacoes.filter(t => t.id !== id)`. */
  function SemId(ts: seq<Transacao>, id: string): (r: seq<Transacao>)
    ensures |r| <= |ts|
  {
    if |ts| == 0 then []
    else
      var ultimo := ts[|ts| - 1];
      SemId(ts[..|ts| - 1], id) + (if ultimo.id != id then [ultimo] else [])
  }

  /** Removal keeps exactly the records whose id differs. */
  lemma {:induction false} SemIdMembros(ts: seq<Transacao>, id: string)
    ensures forall t :: t in SemId(ts, id) <==> t in ts && t.id != id
  {
    if |ts| > 0 {
      var inicio, ultimo := ts[..|ts| - 1], ts[|ts| - 1];
      SemIdMembros(inicio, id);
      assert ts == inicio + [ultimo];
    }
  }

  /** Removing an id that is not present changes nothing. */
  lemma {:induction false} SemIdAusente(ts: seq<Transacao>, id: string)
    requires id !in Ids(ts)
    ensures SemId(ts, id) == ts
  {
    if |ts| > 0 {
      var inicio, ultimo := ts[..|ts| - 1], ts[|ts| - 1];
      assert ultimo in ts;
      assert id !in Ids(inicio) by {
        assert forall t :: t in inicio ==> t in ts;
      }
      SemIdAusente(inicio, id);
      assert ts == inicio + [ultimo];
    }
  }

  /** Removal keeps the surviving records in their original order: it distributes over concatenation. */
  lemma {:induction false} SemIdConcat(a: seq<Transacao>, b: seq<Transacao>, id: string)
    ensures SemId(a + b, id) == SemId(a, id) + SemId(b, id)
  {
    if |b| == 0 {
      assert a + b == a;
    } else {
      var b', x := b[..|b| - 1], b[|b| - 1];
      var fim := if x.id != id then [x] else [];
      assert (a + b)[..|a + b| - 1] == a + b';
      assert (a + b)[|a + b| - 1] == x;
      assert SemId(a + b, id) == SemId(a + b', id) + fim;
      assert SemId(b, id) == SemId(b', id) + fim;
      SemIdConcat(a, b', id);
    }
  }

  /** Removing by id keeps ids unique. */
  lemma {:induction false} SemIdPreservaUnicidade(ts: seq<Transacao>, id: string)
    requires IdsUnicos(ts)
    ensures IdsUnicos(SemId(ts, id))
  {
    if |ts| > 0 {
      var inicio := ts[..|ts| - 1];
      var ultimo := ts[|ts| - 1];
      SemIdPreservaUnicidade(inicio, id);
      var r0 := SemId(inicio, id);
      SemIdMembros(inicio, id);
      if ultimo.id != id {
        var r := r0 + [ultimo];
        forall i, j | 0 <= i < j < |r| ensures r[i].id != r[j].id {
          if j == |r0| {
            assert r[i] in r0;
            assert r[i] in inicio;
            var k :| 0 <= k < |inicio| && inicio[k] == r[i];
            assert ts[k] == r[i];
          }
        }
      }
    }
  }

  /** Which receipt an edited record ends up with: removal wins over a new file, which wins over the old one. */
  function ComprovanteResolvido(remover: bool, novo: Option<Comprovante>, existente: Option<Comprovante>): (r: Option<Comprovante>)
    ensures remover ==> r == None
    ensures !remover ==> r == novo || r == existente
    ensures !remover ==> (r.Some? <==> novo.Some? || existente.Some?)
    ensures !remover && novo.Some? ==> r == novo
  {
    if remover then None else if novo.Some? then novo else existente
  }

  /** The sequence after `atualizarTransacao(id, dados)`: the first record with that id is
      replaced at its position by one carrying the same id and the submitted fields. */
  function Atualizada(ts: seq<Transacao>, id: string, dados: Dados, novo: Option<Comprovante>, remover: bool): (r: seq<Transacao>)
    ensures |r| == |ts|
    ensures id !in Ids(ts) ==> r == ts
    ensures forall k :: 0 <= k < |ts| ==> r[k].id == ts[k].id
    ensures forall k :: 0 <= k < |ts| && ts[k].id != id ==> r[k] == ts[k]
    ensures IdsUnicos(ts) ==> IdsUnicos(r)
    ensures IdsUnicos(ts) ==> forall k :: 0 <= k < |ts| && ts[k].id == id ==>
      && r[k].descricao == Texto.Trim(dados.descricao)
      && r[k].valor == Abs(dados.valor)
      && r[k].tipo == dados.tipo
      && r[k].data == dados.data
      && (remover ==> r[k].comprovante == None)
      && (!remover && novo.Some? ==> r[k].comprovante == novo)
      && (!remover && novo.None? ==> r[k].comprovante == ts[k].comprovante)
  {
    match IndiceDe(ts, id)
    case None => ts
    case Some(i) =>
      ts[i := Registro(id, dados, ComprovanteResolvido(remover, novo, ts[i].comprovante))]
  }
}
