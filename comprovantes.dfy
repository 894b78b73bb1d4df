/**
 * Intake of a receipt file chosen in the form: the MIME allow-list and the
 * size ceiling, checked in that order.
 */
module Comprovantes {
  import opened Wrappers

  const COMPROVANTE_MAX_BYTES: nat := 2 * 1024 * 1024
  const COMPROVANTE_TIPOS: seq<string> := ["image/png", "image/jpeg", "image/jpg", "application/pdf"]

  /** What the file input reports about the chosen file: `name`, `type`, `size`. */
  datatype Arquivo = Arquivo(nome: string, tipo: string, tamanho: nat)

  /** Outcome of the `change` handler's checks. */
  datatype Triagem = SemArquivo | FormatoNaoPermitido | ArquivoMuitoGrande | Aceito

  /** The checks of the `change` handler: no file does nothing, a type outside the list is refused
      whatever its size, and only then a size above 2 MiB is refused. */
  function TriarArquivo(arquivo: Option<Arquivo>): (v: Triagem)
    ensures v == SemArquivo <==> arquivo.None?
    ensures v == FormatoNaoPermitido <==> arquivo.Some? && arquivo.value.tipo !in COMPROVANTE_TIPOS
    ensures v == ArquivoMuitoGrande <==>
      arquivo.Some? && arquivo.value.tipo in COMPROVANTE_TIPOS && arquivo.value.tamanho > COMPROVANTE_MAX_BYTES
    ensures v == Aceito <==>
      arquivo.Some? && arquivo.value.tipo in COMPROVANTE_TIPOS && arquivo.value.tamanho <= COMPROVANTE_MAX_BYTES
  {
    match arquivo
    case None => SemArquivo
    case Some(f) =>
      if f.tipo !in COMPROVANTE_TIPOS then FormatoNaoPermitido
      else if f.tamanho > COMPROVANTE_MAX_BYTES then ArquivoMuitoGrande
      else Aceito
  }

  /** A GIF is refused for its format, even when it is also too large. */
  lemma GifRecusadoPeloFormato(tamanho: nat)
    ensures TriarArquivo(Some(Arquivo("a.gif", "image/gif", tamanho))) == FormatoNaoPermitido
  {
    assert "image/gif" != COMPROVANTE_TIPOS[0] && "image/gif" != COMPROVANTE_TIPOS[1];
  }

  /** The ceiling is inclusive: exactly 2 MiB passes, one byte more does not. */
  lemma LimiteInclusivo(nome: string)
    ensures TriarArquivo(Some(Arquivo(nome, "image/png", 2 * 1024 * 1024))) == Aceito
    ensures TriarArquivo(Some(Arquivo(nome, "image/png", 2 * 1024 * 1024 + 1))) == ArquivoMuitoGrande
    ensures TriarArquivo(Some(Arquivo(nome, "image/png", 3 * 1024 * 1024))) == ArquivoMuitoGrande
  {
    assert "image/png" == COMPROVANTE_TIPOS[0];
  }
}
