/**
 * The ledger's module-level state and its handlers: the store `transacoes`,
 * the `localStorage` entry it is saved to, and the edit session
 * (`idEditando`, `comprovantePendente`, `removerComprovanteNaEdicao`).
 */
module Controle {
  import opened Wrappers
  import opened Modelo
  import opened Agregacao
  import opened Comprovantes

  /** `JSON.parse(localStorage.getItem(STORAGE_KEY) || '[]')`: an absent entry reads as the empty store. */
  function Carregar(armazenado: Option<seq<Transacao>>): (ts: seq<Transacao>)
    ensures armazenado.None? ==> ts == []
    ensures armazenado.Some? ==> ts == armazenado.value
  {
    match armazenado
    case None => []
    case Some(ts) => ts
  }

  class ControleFinanceiro {
    var transacoes: seq<Transacao>
    /** The `localStorage` entry, as the sequence it deserialises to; `None` until the first save. */
    var armazenado: Option<seq<Transacao>>
    var idEditando: Option<string>
    var comprovantePendente: Option<Comprovante>
    var removerComprovanteNaEdicao: bool

    /** `if (idEditando)`: JavaScript truthiness, so an empty id does not count as editing. */
    predicate Editando(): (r: bool)
      reads this
      ensures idEditando.None? ==> !r
      ensures idEditando == Some("") ==> !r
      ensures idEditando.Some? && |idEditando.value| > 0 ==> r
    {
      idEditando.Some? && idEditando.value != ""
    }

    /** What every handler keeps: loading the saved entry gives back the store; the record being
        edited exists; the remove flag is only raised while editing and with no file pending;
        a pending file passed intake. */
    ghost predicate Valid()
      reads this
    {
      Salvo() && EdicaoExistente() && ComprovanteCoerente()
    }

    /** Loading the saved entry gives back the store. */
    ghost predicate Salvo()
      reads this
    {
      Carregar(armazenado) == transacoes
    }

    /** The record being edited is in the store. */
    ghost predicate EdicaoExistente()
      reads this
    {
      idEditando.Some? ==> idEditando.value in Ids(transacoes)
    }

    /** Removal is only requested while editing and with no file pending; a pending file passed intake. */
    ghost predicate ComprovanteCoerente()
      reads this
    {
      && (removerComprovanteNaEdicao ==> Editando() && comprovantePendente.None?)
      && (comprovantePendente.Some? ==> comprovantePendente.value.tipo in COMPROVANTE_TIPOS)
    }

    /** Start-up: the store is loaded from the saved entry and no edit is in progress. */
    constructor (salvo: Option<seq<Transacao>>)
      ensures Valid()
      ensures transacoes == Carregar(salvo) && armazenado == salvo
      ensures idEditando == None && comprovantePendente == None && !removerComprovanteNaEdicao
    {
      transacoes := Carregar(salvo);
      armazenado := salvo;
      idEditando := None;
      comprovantePendente := None;
      removerComprovanteNaEdicao := false;
    }

    /** `salvarNoStorage`: the whole sequence overwrites the entry. */
    method SalvarNoStorage()
      modifies this`armazenado
      ensures armazenado == Some(transacoes)
    {
      armazenado := Some(transacoes);
    }

    /** `adicionarTransacao`: one record is appended and the store saved; the session is untouched. */
    method AdicionarTransacao(id: string, dados: Dados, comprovante: Option<Comprovante>)
      requires Valid()
      requires id !in Ids(transacoes)
      modifies this
      ensures Valid()
      ensures transacoes == old(transacoes) + [Registro(id, dados, comprovante)]
      ensures armazenado == Some(transacoes)
      ensures IdsUnicos(old(transacoes)) ==> IdsUnicos(transacoes)
      ensures idEditando == old(idEditando) && comprovantePendente == old(comprovantePendente)
      ensures removerComprovanteNaEdicao == old(removerComprovanteNaEdicao)
    {
      var transacao := Registro(id, dados, comprovante);
      assert Ids(transacoes) <= Ids(transacoes + [transacao]);
      if IdsUnicos(transacoes) {
        AdicionarPreservaUnicidade(transacoes, transacao);
      }
      transacoes := transacoes + [transacao];
      SalvarNoStorage();
    }

    /** `excluirTransacao`: every record with that id goes and the store is saved; deleting the
        record being edited cancels the edit. */
    method ExcluirTransacao(id: string)
      requires Valid()
      modifies this
      ensures Valid()
      ensures transacoes == SemId(old(transacoes), id)
      ensures armazenado == Some(transacoes)
      ensures IdsUnicos(old(transacoes)) ==> IdsUnicos(transacoes)
      ensures old(idEditando) == Some(id) ==>
        idEditando == None && comprovantePendente == None && !removerComprovanteNaEdicao
      ensures old(idEditando) != Some(id) ==>
        && idEditando == old(idEditando) && comprovantePendente == old(comprovantePendente)
        && removerComprovanteNaEdicao == old(removerComprovanteNaEdicao)
    {
      SemIdMembros(transacoes, id);
      if IdsUnicos(transacoes) {
        SemIdPreservaUnicidade(transacoes, id);
      }
      transacoes := SemId(transacoes, id);
      SalvarNoStorage();
      if idEditando == Some(id) {
        CancelarEdicao();
      }
    }

    /** `atualizarTransacao`: an unknown id changes nothing (and nothing is saved); otherwise the
        record is replaced in place and the store saved. The session is untouched. */
    method AtualizarTransacao(id: string, dados: Dados, comprovante: Option<Comprovante>, removerComprovante: bool)
      requires Valid()
      modifies this
      ensures Valid()
      ensures transacoes == Atualizada(old(transacoes), id, dados, comprovante, removerComprovante)
      ensures armazenado == if id in Ids(old(transacoes)) then Some(transacoes) else old(armazenado)
      ensures idEditando == old(idEditando) && comprovantePendente == old(comprovantePendente)
      ensures removerComprovanteNaEdicao == old(removerComprovanteNaEdicao)
    {
      var indice := IndiceDe(transacoes, id);
      if indice.None? {
        return;
      }
      var i := indice.value;
      var atual := Registro(id, dados, ComprovanteResolvido(removerComprovante, comprovante, transacoes[i].comprovante));
      var antes := transacoes;
      transacoes := transacoes[i := atual];
      assert forall k :: 0 <= k < |antes| ==> transacoes[k].id == antes[k].id;
      IdsPorPosicao(antes, transacoes);
      SalvarNoStorage();
    }

    /** `iniciarEdicao`: an unknown id does nothing; otherwise that record becomes the one being
        edited, with no file pending and no removal requested. */
    method IniciarEdicao(id: string)
      requires Valid()
      modifies this
      ensures Valid()
      ensures transacoes == old(transacoes) && armazenado == old(armazenado)
      ensures id in Ids(transacoes) ==>
        idEditando == Some(id) && comprovantePendente == None && !removerComprovanteNaEdicao
      ensures id !in Ids(transacoes) ==>
        && idEditando == old(idEditando) && comprovantePendente == old(comprovantePendente)
        && removerComprovanteNaEdicao == old(removerComprovanteNaEdicao)
    {
      var encontrada := IndiceDe(transacoes, id);
      if encontrada.None? {
        return;
      }
      idEditando := Some(id);
      comprovantePendente := None;
      removerComprovanteNaEdicao := false;
    }

    /** `limparPreviewComprovante`: the pending file and the remove flag are dropped. */
    method LimparPreviewComprovante()
      requires Salvo() && EdicaoExistente()
      modifies this`comprovantePendente, this`removerComprovanteNaEdicao
      ensures Valid()
      ensures comprovantePendente == None && !removerComprovanteNaEdicao
    {
      comprovantePendente := None;
      removerComprovanteNaEdicao := false;
    }

    /** `cancelarEdicao`: no record is being edited any more and the receipt state is cleared. */
    method CancelarEdicao()
      requires Salvo()
      modifies this`idEditando, this`comprovantePendente, this`removerComprovanteNaEdicao
      ensures Valid()
      ensures idEditando == None && comprovantePendente == None && !removerComprovanteNaEdicao
    {
      idEditando := None;
      LimparPreviewComprovante();
    }

    /** The "remove receipt" button: while editing it asks for the saved receipt to be dropped on
        save and discards any pending file; otherwise it just clears the receipt state. */
    method RemoverComprovanteClicado()
      requires Valid()
      modifies this`comprovantePendente, this`removerComprovanteNaEdicao
      ensures Valid()
      ensures comprovantePendente == None
      ensures removerComprovanteNaEdicao == Editando()
    {
      if Editando() {
        removerComprovanteNaEdicao := true;
        comprovantePendente := None;
      } else {
        LimparPreviewComprovante();
      }
    }

    /** `reader.onload`: the accepted file, read as a data URL, becomes the pending receipt and
        cancels any earlier removal request. */
    method ArquivoCarregado(arquivo: Arquivo, dataUrl: string)
      requires Valid()
      requires TriarArquivo(Some(arquivo)) == Aceito
      modifies this`comprovantePendente, this`removerComprovanteNaEdicao
      ensures Valid()
      ensures comprovantePendente == Some(Comprovante(arquivo.nome, arquivo.tipo, dataUrl))
      ensures !removerComprovanteNaEdicao
    {
      comprovantePendente := Some(Comprovante(arquivo.nome, arquivo.tipo, dataUrl));
      removerComprovanteNaEdicao := false;
    }

    /** The form's `submit` handler. While editing, the edited record is updated with the pending
        receipt and remove flag, then the edit is cancelled; otherwise a record is added with the
        pending receipt and the receipt state cleared. `novoId` stands for `obterId()`. */
    method Submeter(novoId: string, dados: Dados)
      requires Valid()
      requires !Editando() ==> novoId !in Ids(transacoes)
      modifies this
      ensures Valid()
      ensures old(Editando()) ==> transacoes == Atualizada(old(transacoes), old(idEditando).value, dados,
                                                         old(comprovantePendente), old(removerComprovanteNaEdicao))
      ensures !old(Editando()) ==> transacoes == old(transacoes) + [Registro(novoId, dados, old(comprovantePendente))]
      ensures armazenado == Some(transacoes)
      ensures IdsUnicos(old(transacoes)) ==> IdsUnicos(transacoes)
      ensures idEditando == if old(Editando()) then None else old(idEditando)
      ensures comprovantePendente == None && !removerComprovanteNaEdicao
    {
      if Editando() {
        AtualizarTransacao(idEditando.value, dados, comprovantePendente, removerComprovanteNaEdicao);
        CancelarEdicao();
      } else {
        AdicionarTransacao(novoId, dados, comprovantePendente);
        LimparPreviewComprovante();
      }
    }

    /** `obterDadosPorMes(ultimosMeses)` with "now" in month `mes` (0-based) of `ano`. */
    method ObterDadosPorMes(ultimosMeses: nat, ano: int, mes: int) returns (resultado: seq<DadosMes>)
      ensures resultado == SerieMensal(transacoes, ultimosMeses, ano, mes)
    {
      resultado := [];
      var i: int := ultimosMeses - 1;
      ghost var serie := SerieMensal(transacoes, ultimosMeses, ano, mes);
      while i >= 0
        invariant -1 <= i < ultimosMeses
        invariant resultado == serie[..ultimosMeses - 1 - i]
      {
        var d := MesDeslocado(AnoDoDate(ano), mes, i);
        SerieMensalPrefixo(transacoes, ultimosMeses, ano, mes, ultimosMeses - 1 - i, i);
        resultado := resultado + [DadosDoMes(transacoes, d)];
        i := i - 1;
      }
      assert serie[..ultimosMeses] == serie;
    }
  }
}
