# controle-financeiro — a verified model of the ledger core

`controle-financeiro/script.js` is a browser-side personal-finance ledger. It keeps
income (`receita`) and expense (`despesa`) entries in one array, `transacoes`. An entry
may carry a receipt file (`comprovante`). The array is saved to `localStorage` after
every change. The page shows totals, a filtered list and a 12-month bar chart.

This project models the part of that script that is logic rather than page plumbing:

- **Records** (`modelo.dfy`, module `Modelo`): `Transacao`, `Comprovante` and the
  submitted form fields `Dados`. It also holds the pure form of the three store changes:
  append, replace in place by id (`Atualizada`) and remove by id (`SemId`).
- **Store and edit session** (`controle.dfy`, class `Controle.ControleFinanceiro`): the
  script's module-level variables are fields, and each handler is a method that updates
  them. The handlers are `adicionarTransacao`, `excluirTransacao`, `atualizarTransacao`,
  `iniciarEdicao`, `cancelarEdicao`, `limparPreviewComprovante`, the remove-receipt
  button, `reader.onload` and the form submit. The object invariant `Valid()` is kept by
  every method. It says:
  - loading the saved entry gives back the current store;
  - the record being edited exists;
  - removal of the receipt is only requested while editing, with no file pending;
  - a pending receipt's type is in the allow-list.
- **Aggregation** (`agregacao.dfy`, module `Agregacao`): `calcularTotais`,
  `filtrarTransacoes` and `obterDadosPorMes`. The monthly series is a loop in the
  class, proved equal to the function `SerieMensal`.
- **Receipt intake** (`comprovantes.dfy`): the MIME allow-list and the 2 MiB ceiling of
  the file input's `change` handler.
- **Text** (`texto.dfy`, `formatacao.dfy`): `trim`, `split('-')`, `String(n)`,
  `padStart(2, '0')`, and `formatarData`.
- **Examples** (`cenarios.dfy`): totals and a two-month series on concrete data.

Amounts are whole centavos (`nat`; the form value is an `int` and the store keeps its
absolute value). The fresh id, the current year and month, and the contents of a loaded
file are parameters.

Behaviours of the script worth noting, all modelled as written:

- The MIME allow-list also contains `image/jpg` (line 4).
- An empty description is not refused; it is only trimmed.
- `atualizarTransacao` always writes back the id it was called with (line 187).
- `new Date(ano, m - i, 1)` reads a year argument from 0 to 99 as 1900 + ano (`AnoDoDate`).

## Model

| member | source | states |
|---|---|---|
| `Texto.Trim` | controle-financeiro/script.js:161 | the result is a slice of the input that is empty exactly when the input is all white space, and otherwise starts and ends with a non-space character |
| `Texto.TrimDeContorno` | controle-financeiro/script.js:161 | trimming white space around a text that has no white space at its ends returns exactly that text |
| `Texto.TrimIdempotente` | controle-financeiro/script.js:188 | trimming an already trimmed description changes nothing |
| `Texto.Dividir` | controle-financeiro/script.js:33 | `split('-')` yields at least one part and no part contains the separator |
| `Texto.JuntarDividir` | controle-financeiro/script.js:33 | joining the parts of a split with the separator gives back the original string |
| `Texto.DividirJuntar` | controle-financeiro/script.js:33 | splitting parts joined by the separator gives back those parts when none contains it |
| `Texto.NatParaTexto` | controle-financeiro/script.js:328 | `String(n)` is non-empty and starts with a decimal digit |
| `Texto.NatParaTextoDigitos` | controle-financeiro/script.js:328 | `String(n)` is all decimal digits, with no leading zero |
| `Texto.IntParaTexto` | controle-financeiro/script.js:329 | `String(ano)` starts with `-` exactly when the year is negative |
| `Texto.IntParaTextoIda` | controle-financeiro/script.js:329 | reading the decimal text of a year back gives the year |
| `Texto.IntParaTextoInjetiva` | controle-financeiro/script.js:329 | distinct years are written differently |
| `Texto.PadStart2` | controle-financeiro/script.js:328 | `padStart(2, '0')` has length max(2, n), ends with the original text, and every character before it is `'0'` |
| `Formatacao.FormatarDataIso` | controle-financeiro/script.js:32-35 | `formatarData("y-m-d")` is `"d/m/y"` for parts without `-` |
| `Formatacao.FormatarData` | controle-financeiro/script.js:32-35 | a date text without `-` is shown as `undefined/undefined/<text>`, as destructuring a one-element array does |
| `Modelo.Registro` | controle-financeiro/script.js:159-165 | the new record keeps the given id, type, date and receipt; its description is the trimmed input, so it neither starts nor ends with white space; its amount is the absolute value of the typed amount |
| `Modelo.Abs` | controle-financeiro/script.js:162 | the stored amount is the typed amount or its negation, and never negative |
| `Modelo.IndiceDe` | controle-financeiro/script.js:184-185 | `findIndex` is absent exactly when no record has the id; otherwise it is the first position holding that id |
| `Modelo.AdicionarPreservaUnicidade` | controle-financeiro/script.js:158-169 | appending a record with a fresh id keeps ids unique and adds exactly that id |
| `Modelo.SemId` | controle-financeiro/script.js:176 | deletion never makes the store longer |
| `Modelo.SemIdMembros` | controle-financeiro/script.js:176 | after deletion a record remains exactly when it was present and its id differs |
| `Modelo.SemIdAusente` | controle-financeiro/script.js:175-176 | deleting an id that is not present leaves the sequence unchanged |
| `Modelo.SemIdConcat` | controle-financeiro/script.js:176 | deletion distributes over concatenation, so survivors keep their original order |
| `Modelo.SemIdPreservaUnicidade` | controle-financeiro/script.js:176 | deletion keeps ids unique |
| `Modelo.ComprovanteResolvido` | controle-financeiro/script.js:193-199 | a removal request leaves no receipt; otherwise a new file wins, else the existing receipt is kept, and a receipt is present exactly when one of them is |
| `Modelo.Atualizada` | controle-financeiro/script.js:183-200 | an update keeps the length and the id at every position and changes no record with another id. An unknown id is a no-op. With unique ids, the edited record gets the trimmed description, the absolute amount, the new type and date, and its receipt is none if removal was asked, else the new one if given, else the old one |
| `Agregacao.SomaConcat` | controle-financeiro/script.js:44 | `reduce((acc, t) => acc + t.valor, 0)` is additive: the sum over a concatenation is the sum of the sums, so each record's amount is counted once |
| `Agregacao.ComTipo` | controle-financeiro/script.js:42-47 | the type view is never longer than the store |
| `Agregacao.ComTipoMembros` | controle-financeiro/script.js:42-47 | the type view holds exactly the records of that type |
| `Agregacao.ComTipoConcat` | controle-financeiro/script.js:58 | filtering a concatenation filters each part, so the view keeps store order and multiplicity |
| `Agregacao.ParticaoPorTipo` | controle-financeiro/script.js:41-48 | the income and expense views together hold every record: their counts and their sums add up to those of the whole store |
| `Agregacao.CalcularTotais` | controle-financeiro/script.js:41-48 | income is the sum over `receita`, expense the sum over `despesa`, both over the full store; balance = income − expense; income + expense = sum of all amounts |
| `Agregacao.TotaisAposAdicionar` | controle-financeiro/script.js:169-171 | appending a record raises exactly one of the two totals by its amount and moves the balance by the same amount in the matching direction |
| `Agregacao.FiltrarTransacoes` | controle-financeiro/script.js:56-59 | `'todos'` returns the whole store; a type returns exactly the records of that type (in store order, by `ComTipoConcat`) |
| `Agregacao.FiltrosParticionam` | controle-financeiro/script.js:56-59 | the `'todos'` view is as long as the `'receita'` and `'despesa'` views together |
| `Agregacao.AnoDoDate` | controle-financeiro/script.js:326 | the year `new Date` starts from is never 0..99: a year argument in 0..99 becomes the 19xx year with the same last two digits, any other year is kept |
| `Agregacao.MesDeslocado` | controle-financeiro/script.js:326 | `new Date(y, m − i, 1)` gives a month in 0..11 whose month index is i less than that of (y, m), so a negative month rolls the year back |
| `Agregacao.MesPorIndice` | controle-financeiro/script.js:326 | a month in 0..11 is determined by its month index, so the normalisation is unique |
| `Agregacao.MesDeslocadoSeguinte` | controle-financeiro/script.js:325-326 | offsets one apart are consecutive calendar months, across December/January too |
| `Agregacao.DoisDigitos` | controle-financeiro/script.js:328 | the padded month number 1..12 is `0` and its digit up to 9, and `1` and its units digit from 10 on |
| `Agregacao.ChaveMes` | controle-financeiro/script.js:327-329 | the key is the year text, a `-`, and the month number 1..12 written in two digits |
| `Agregacao.ChaveMesInjetiva` | controle-financeiro/script.js:326-329 | distinct months have distinct `YYYY-MM` keys |
| `Agregacao.RotuloMes` | controle-financeiro/script.js:337 | the label is the month's short name, a `/`, and the year text |
| `Agregacao.DoMes` | controle-financeiro/script.js:330-335 | a month bucket is never longer than the store |
| `Agregacao.DoMesMembros` | controle-financeiro/script.js:330-335 | a month bucket holds exactly the records of the requested type whose non-empty date starts with the month key |
| `Agregacao.DoMesConcat` | controle-financeiro/script.js:330-335 | bucketing a concatenation buckets each part, so a bucket keeps store order and multiplicity |
| `Agregacao.DadosDoMes` | controle-financeiro/script.js:326-340 | the object pushed for a month is labelled with that month's name and year, and holds the sums of its income and of its expense records whose date starts with the month's key |
| `Agregacao.MesLimitadoPeloTotal` | controle-financeiro/script.js:330-335 | a month's bucket sum never exceeds the total of its type |
| `Agregacao.SerieMensal` | controle-financeiro/script.js:322-343 | the series has exactly n entries |
| `Agregacao.SerieMensalEntrada` | controle-financeiro/script.js:325-340 | entry k is the data of the month n−1−k months before now: its label and the two bucket sums |
| `Agregacao.SerieMensalPrefixo` | controle-financeiro/script.js:325-340 | each loop step appends the next month after those already pushed, so the oldest month comes first |
| `Agregacao.SerieTerminaNoMesAtual` | controle-financeiro/script.js:325-337 | the last entry is labelled with the current month's name and year, as `new Date` reads that year |
| `Agregacao.SerieConsecutiva` | controle-financeiro/script.js:325-341 | entry k + 1 is the data of the month right after entry k's month |
| `Agregacao.SerieLimitadaPelosTotais` | controle-financeiro/script.js:330-335 | no bar of the series exceeds the matching total |
| `Cenarios.RotuloDoAno99` | controle-financeiro/script.js:326-337 | with now = January of year 99, the series' month is labelled `Jan/1999` |
| `Comprovantes.TriarArquivo` | controle-financeiro/script.js:245-257 | no file: nothing happens. A type outside the allow-list is refused as bad format, whatever its size. Otherwise a size above 2 MiB is refused as too large. Anything else is accepted |
| `Comprovantes.GifRecusadoPeloFormato` | controle-financeiro/script.js:248-252 | an `image/gif` file is refused for its format, before any size check |
| `Comprovantes.LimiteInclusivo` | controle-financeiro/script.js:253-257 | a PNG of exactly 2 MiB is accepted; one byte more, or 3 MiB, is too large |
| `Controle.Carregar` | controle-financeiro/script.js:6 | a missing storage entry reads as the empty store; a present one reads back as what was saved |
| `Controle.ControleFinanceiro.constructor` | controle-financeiro/script.js:6-10 | the store is the saved entry, or empty if there is none; no edit is in progress |
| `Controle.ControleFinanceiro.Editando` | controle-financeiro/script.js:269 | `if (idEditando)` is JavaScript truthiness: an edit is in progress exactly when the id is present and not the empty string (also the test at line 288) |
| `Controle.ControleFinanceiro.SalvarNoStorage` | controle-financeiro/script.js:154-156 | the saved entry becomes the whole current store |
| `Controle.ControleFinanceiro.AdicionarTransacao` | controle-financeiro/script.js:158-173 | exactly one record is appended, with the given id, the trimmed description, the absolute amount, the given type, date and receipt. Earlier records keep their order. The store is saved, unique ids stay unique and the session is unchanged |
| `Controle.ControleFinanceiro.ExcluirTransacao` | controle-financeiro/script.js:175-181 | the store becomes the records with a different id, and is saved. Deleting the record being edited clears `idEditando`, the pending receipt and the remove flag; otherwise the session is unchanged |
| `Controle.ControleFinanceiro.AtualizarTransacao` | controle-financeiro/script.js:183-204 | the store becomes `Atualizada(...)` of the old one. It is saved only when the id was found; the session is unchanged |
| `Controle.ControleFinanceiro.IniciarEdicao` | controle-financeiro/script.js:206-211 | a missing id changes nothing. A present id becomes `idEditando`, with no pending receipt and the remove flag off |
| `Controle.ControleFinanceiro.LimparPreviewComprovante` | controle-financeiro/script.js:145-147 | the pending receipt and the remove flag are cleared |
| `Controle.ControleFinanceiro.CancelarEdicao` | controle-financeiro/script.js:228-232 | no record is being edited; the pending receipt and the remove flag are cleared |
| `Controle.ControleFinanceiro.RemoverComprovanteClicado` | controle-financeiro/script.js:268-279 | the pending receipt is dropped. The remove flag is raised exactly when an edit is in progress (`Editando`) |
| `Controle.ControleFinanceiro.ArquivoCarregado` | controle-financeiro/script.js:259-264 | the loaded file (name, type, data URL) becomes the pending receipt and the remove flag is cleared |
| `Controle.ControleFinanceiro.Submeter` | controle-financeiro/script.js:281-305 | while editing (`Editando`), the edited record is updated with the pending receipt and remove flag, and the edit ends. Otherwise a record is appended with the pending receipt. Either way the store is saved and the receipt state cleared |
| `Controle.ControleFinanceiro.ObterDadosPorMes` | controle-financeiro/script.js:322-343 | the counting-down loop returns exactly `SerieMensal` of the current store |
| `Cenarios.CenarioTotais` | controle-financeiro/script.js:41-48 | income 1000 and expense 400 give totals (1000, 400, 600) |
| `Cenarios.CenarioSerieMensal` | controle-financeiro/script.js:322-343 | with now = February 2024, two months give `Jan/2024` (100, 0) and `Fev/2024` (0, 50) |

## Left out

- Page rendering and event wiring are not modelled: `renderizarLista`, `escapeHtml`, the
  preview markup of `exibirPreviewComprovante`, focus and scrolling, the filter and tab
  buttons. The list filter is a parameter of `FiltrarTransacoes` rather than the
  `filtroAtual` variable.
- `formatarMoeda` (`Intl.NumberFormat`), the chart axis callback and the Chart.js call in
  `atualizarGrafico` are library calls. Only their input, the monthly series, is modelled.
- `abrirComprovanteEmNovaAba` (base64 decoding, `Blob`, `window.open`) is not modelled.
  `FileReader.readAsDataURL` is not modelled either. The data URL is an opaque string, so
  no encode/decode round trip is stated.
- `Number(...)` parsing and its `NaN`, and floating-point summation, are not modelled.
  Amounts are integers (centavos) and sums are exact.
- `obterId` (`Date.now`, `Math.random`) is not modelled: the fresh id is a parameter, and
  it must not already be present.
- `new Date()` in `definirDataHoje` and `obterDadosPorMes` is not modelled. The current
  year and 0-based month are parameters, and the date field's default value is a page
  concern.
- JSON serialisation is not modelled: the saved entry is the sequence it would
  deserialise to. A malformed entry makes line 6 throw, and that case is not modelled.
- The asynchronous file read: `ArquivoCarregado` is a separate method that a caller may
  run at any time after an accepted file, so interleavings are allowed but not enumerated.
  The script has no read-error handler, so none is modelled.
- `tipo` has the two values the form's radio buttons give. Stored records with any other
  type string are not represented.
- `ObterDadosPorMes` takes a natural count. The script's only call passes 12, and a
  negative count (an empty result in the script) is not modelled.
- `Agregacao.AnoDoDate`: years outside the range a JavaScript `Date` can hold (about 275000 years
  either side of 1970), where the script's key and label would read `NaN`, are not modelled.
  A clock never reports such a year.
- `Modelo.Atualizada`: the field-by-field result is stated for stores with unique ids.
  With a duplicated id, the contract says only that records with other ids are untouched,
  not that just the first duplicate is replaced.
