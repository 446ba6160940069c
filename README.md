# Bus attendance back end: the data layer

This is a Dafny model of the three data-access objects of a small back end. Students use it to say whether they will ride a school bus, and staff use it to confirm who boarded:

- `models/Presenca.js`: the attendance records (`PRESENCA`), plus its date helpers `converterData`, `obterDiaSemana`, `pegarDataHoje` and `verificarDiaSemana`.
- `models/Usuario.js`: the student directory (`USUARIO`).
- `models/Onibus.js`: the bus directory (`ONIBUS`).

Each database table is a class whose `linhas: seq<Row>` field holds the rows in insertion order. Each SQL statement becomes a method, if it changes the table, or a `reads this` function, if it only queries it. The declared constraints are kept as class invariants (`Valid()`):

- `USUARIO`: identifiers are unique and e-mail addresses are unique.
- `ONIBUS`: identifiers are unique.
- `PRESENCA`: identifiers are unique, and a student has at most one record per call date, which registration enforces.

Every operation keeps its table's invariant.

The update builders `atualizarAluno` and `atualizarOnibus` assemble the `SET` list of an `UPDATE` as text, one `COLUNA = $k` fragment per supplied field. The model keeps that text and reads it back as the database does: the column named before ` = $`, and the parameter numbered after it. It then proves that the statement performs exactly the partial update the caller asked for, on exactly the row with the given id. The builder's `WHERE` parameter points at the id.

JavaScript's `new Date(ano, mesIndice, dia)` is modelled as the calendar arithmetic it does:

- a year from 0 to 99 means 1900 plus that year;
- a month index outside 0..11 carries into the year;
- a day outside the month rolls into the neighbouring months.

With that, the validity test of `converterData` is characterised exactly: it accepts the real dates of year 100 or later.

The clock, the hour of the day and the random UUID of a new attendance record are parameters:

- today's date is a `DataCivil`;
- the hour is an `int`;
- the new id comes with the promise that no row uses it yet.

Modules:

| file | module | contents |
|---|---|---|
| wrappers.dfy | Wrappers | `Option`, `Result` |
| texto.dfy | Texto | decimal text of numbers, `padStart(2, "0")`, the text order `ORDER BY` uses |
| sql.dfy | Sql | `SET` fragments, parameter markers, the builder's coherence invariant |
| consultas.dfy | Consultas | first match (`result[0]`), filtering (`WHERE`), sorting (`ORDER BY`) |
| calendario.dfy | Calendario | the date helpers of `models/Presenca.js` |
| presenca.dfy | Presencas | `TabelaPresenca` |
| usuario.dfy | Usuarios | `TabelaUsuario` and the `atualizarAluno` builder |
| onibus.dfy | Frota | `TabelaOnibus` and the `atualizarOnibus` builder |

## Model

| member | source | states |
|---|---|---|
| Texto.NatParaTexto | models/Presenca.js:251-252 | `String(n)` of a natural number is a non-empty run of digits without a leading zero, and it reads back as `n` |
| Texto.ValorDigitos | models/Presenca.js:233 | `Number` of a run of n decimal digits is below ten to the n; with `NatParaTexto`, it reads a number's decimal text back as the number |
| Texto.IntParaTexto | models/Presenca.js:250-254 | the text of an integer starts with `-` exactly when the integer is negative; otherwise it is the natural number's text |
| Texto.PreencherDois | models/Presenca.js:251-252 | `padStart(2, "0")` leaves a text of two or more characters alone; a shorter text gets leading zeros up to two characters |
| Texto.DoisDigitosIdaEVolta | models/Presenca.js:251-252 | a month or day below 100, padded to two places, is two digits that read back as the number |
| Texto.ComprimentoDecimal | models/Presenca.js:250 | a number from 1000 to 9999 is written with exactly four digits (and likewise for two and three digits) |
| Texto.MenorIgualTotal | models/Usuario.js:123 | the name order of `ORDER BY NOME ASC` is total |
| Texto.MenorIgualTransitiva | models/Usuario.js:123 | the name order is transitive |
| Texto.MenorIgualAntissimetrica | models/Usuario.js:123 | the name order is antisymmetric |
| Sql.MarcadorDeFragmento | models/Usuario.js:60 | `Fragmento` is the template `${coluna} = $${contador}`; the parameter number written into it reads back from its text as that number (the column reads back by `ColunaDeFragmento`) |
| Sql.FragmentosDeEm | models/Usuario.js:59-83 | the k-th fragment names the k-th supplied column with parameter k + 1, and the k-th value is that column's value |
| Sql.MarcadoresConsecutivos | models/Usuario.js:55-83 | the fragments' parameters are numbered 1, 2, ... with no gap and no repeat |
| Sql.CoerenteMaisUm | models/Usuario.js:59-63 | pushing a fragment with the current counter and pushing its value, then incrementing the counter, keeps the lists in step with the assignments decided so far |
| Consultas.PrimeiraQue | models/Usuario.js:28-38 | `result[0]` of a `SELECT ... WHERE`: None exactly when no row matches; otherwise a matching row of the table |
| Consultas.Filtrar | models/Presenca.js:95-104 | a `WHERE` selection keeps every matching row with its multiplicity and drops every other row |
| Consultas.FiltrarPreservaPares | models/Presenca.js:84-93 | deleting rows keeps any pairwise property of the rows that remain, such as uniqueness |
| Consultas.FiltrarUnico | models/Usuario.js:112 | a filter that drops only row k removes exactly that row and keeps the rest in order |
| Consultas.RemoverPreservaPares | models/Usuario.js:112 | removing one row keeps any pairwise property of the others |
| Consultas.Inserir | models/Usuario.js:123 | inserting into a sorted listing gives a sorted listing holding one more row |
| Consultas.OrdenarPor | models/Usuario.js:123 | `ORDER BY` returns a permutation of the rows, sorted by the key |
| Consultas.OrdenadaEstrita | models/Usuario.js:123 | in a listing sorted by a key with no two keys equal, every key is strictly after the earlier ones |
| Calendario.DiasNoMes | models/Presenca.js:234-242 | every month has from 28 to 31 days, following the Gregorian leap rule |
| Calendario.MesAnterior | models/Presenca.js:234 | stepping a month back and then forward returns to the same month |
| Calendario.PassoDeAno | models/Presenca.js:234 | the day count of a year is 366 in a leap year and 365 otherwise |
| Calendario.PassoDeMes | models/Presenca.js:234 | the first day of the next month comes one month's length after the first day of this month |
| Calendario.NormalizarDia | models/Presenca.js:234 | a day outside its month rolls into the neighbouring months: the result is a real date with the same day number; a day inside the month is kept as is |
| Calendario.PadraoData | models/Presenca.js:228-229 | the text matches `^\d{4}-\d{2}-\d{2}$` exactly when it has ten characters, a hyphen at positions 4 and 7, and a decimal digit everywhere else |
| Calendario.Campos | models/Presenca.js:233 | `split("-").map(Number)` of a matching text gives a year below 10000 and a month and day below 100 |
| Calendario.TextoDeCampos | models/Presenca.js:233 | joining a four-digit run and two two-digit runs with hyphens gives a matching text, and splitting it gives back the three runs' values |
| Calendario.ConstruirData | models/Presenca.js:234 | `new Date(ano, mes - 1, dia)` yields a real date whose day number is that of day `dia` counted from the first of the month: years 0..99 first become 1900..1999 (`AnoEfetivo`), the month index carries into the year, and the day rolls over month ends |
| Calendario.ConstrucaoAceita | models/Presenca.js:233-242 | the Date built from a date's fields gives those fields back exactly when the date is real and its year is at least 100 |
| Calendario.ConverterData | models/Presenca.js:221-245 | a missing or empty text fails as not a text; a text other than `^\d{4}-\d{2}-\d{2}$` fails as a bad format; a well-formed text succeeds exactly when it names a real date of year 100 or later, and the result is those fields |
| Calendario.IndiceDiaSemana | models/Presenca.js:217 | `getDay()` is in 0..6 |
| Calendario.ObterDiaSemana | models/Presenca.js:207-219 | the weekday name is the `getDay()`-th entry of the list that starts with Sunday |
| Calendario.ProximoDiaSemana | models/Presenca.js:207-219 | the next calendar day is the next day number and has the next weekday name, cycling through the seven |
| Calendario.CamposDeHoje | models/Presenca.js:247-257 | today's text, for a four-digit year, matches `YYYY-MM-DD` and splits back into today's fields |
| Calendario.PegarDataHojeIdaEVolta | models/Presenca.js:247-257 | today's text, for a four-digit year, is accepted by `converterData` and gives back today's date |
| Calendario.DiaUtilDaData | models/Presenca.js:117-123 | the weekday name of a real date passes `verificarDiaSemana` exactly when `getDay()` is 1 to 5, Monday to Friday |
| Calendario.ExemploSegunda | models/Presenca.js:207-219 | 2024-06-10 is a `segunda` |
| Calendario.ExemploSabado | models/Presenca.js:117-123 | 2024-06-15 is a `sabado` and is refused |
| Calendario.ExemploDataAceita | models/Presenca.js:221-245 | `"2024-06-10"` is accepted as that date |
| Calendario.ExemploMesTreze | models/Presenca.js:236-242 | `"2024-13-01"` matches the pattern but is refused as not a real date |
| Calendario.ExemploTrintaDeFevereiro | models/Presenca.js:236-242 | `"2024-02-30"` is refused as not a real date |
| Calendario.ExemploAnoDoisDigitos | models/Presenca.js:233-242 | `"0099-01-01"` names a real date but is refused, because Date reads year 99 as 1999 |
| Presencas.AtualizarPorId | models/Presenca.js:181-186 | `UPDATE ... WHERE ID_PRESENCA = id` rewrites exactly the rows with that id, leaves every other row unchanged, and keeps id uniqueness and one record per student and date |
| Presencas.ConfirmacaoPorHora | models/Presenca.js:152-164 | the outbound flag is set exactly before 18h and the return flag exactly after 18h; at 18h neither is set, and never both |
| Presencas.TabelaPresenca.VerificaPresenca | models/Presenca.js:72-82 | None exactly when the student has no record on that date, on any bus; otherwise one such record |
| Presencas.TabelaPresenca.ValidarPresenca | models/Presenca.js:125-141 | None exactly when the student has no record for today on that bus; otherwise the first such record in the table |
| Presencas.TabelaPresenca.BuscarPresencas | models/Presenca.js:95-104 | exactly the student's records, each with its multiplicity |
| Presencas.TabelaPresenca.BuscarPresencasPorData | models/Presenca.js:105-115 | exactly the records whose call date is today's text, each with its multiplicity |
| Presencas.TabelaPresenca.RegistrarPresenca | models/Presenca.js:5-70 | an invalid date fails with the date error; a second record for the student and date fails; a Saturday or Sunday fails; each failure leaves the table unchanged; otherwise the new row, with its weekday name, the date text and the four flags as given (an absent flag is NULL), is appended and returned; the invariants hold |
| Presencas.TabelaPresenca.AtualizarPresenca | models/Presenca.js:143-179 | the row with the id gets the hour's confirmation flags and the intents as given (an absent one is NULL), and every other row is unchanged; the updated row is returned, or None when no row has the id |
| Presencas.TabelaPresenca.MudarStatusPresenca | models/Presenca.js:180-204 | the row with the id gets both confirmation flags as given, an absent one written as NULL (as when the caller passes only one), and every other row is unchanged; the call fails, with the table unchanged, exactly when no row has the id |
| Presencas.TabelaPresenca.DeletarPresenca | models/Presenca.js:84-93 | every record of the student is removed, every other record is kept with its multiplicity, and the call reports success even when nothing was deleted |
| Usuarios.CamposFornecidos | models/Usuario.js:53-83 | at most five assignments are written, all to updatable columns |
| Usuarios.ColunaDeFragmento | models/Usuario.js:60 | the database reads the column of a generated fragment back as the column it was built for |
| Usuarios.ExecutarSet | models/Usuario.js:91-95 | how the database runs the `SET` list, fragment by fragment with its parameters bound: whatever the list, the student's id and password are untouched, since no updatable column is either |
| Usuarios.ExecutarUmFragmento | models/Usuario.js:91-95 | running one generated fragment assigns its column from the parameter it points at |
| Usuarios.ExecutarFragmentosDe | models/Usuario.js:91-95 | running the generated `SET` list performs the assignments it was built from, in order |
| Usuarios.AplicarCamposAte | models/Usuario.js:59-83 | the assignments of the first n tests are those tests' row changes, one after the other |
| Usuarios.AplicarFornecidos | models/Usuario.js:52-83 | the supplied assignments, applied in order, are the partial update asked for: a truthy text, or a flag that was given (even `false`), replaces its column, and every other column is kept |
| Usuarios.CamposAtePasso | models/Usuario.js:59-83 | each test appends its assignment, if any, after the earlier ones |
| Usuarios.TestarTexto | models/Usuario.js:59-73 | a truthy text pushes `COLUNA = $contador` and its value, and increments the counter; an absent or empty text changes nothing; coherence is kept |
| Usuarios.TestarFlag | models/Usuario.js:74-83 | a flag that is given (even `false`) pushes its fragment and value, and increments the counter; an absent flag changes nothing; coherence is kept |
| Usuarios.TestarCampos | models/Usuario.js:55-83 | the five tests together produce the fragments and values of the supplied fields, and the counter is one past them |
| Usuarios.ClausulaCorreta | models/Usuario.js:55-96 | a clause built this way has one fragment per supplied field, with consecutive markers and matching columns and values; the id sits where the `WHERE` parameter points; and the `SET` list performs exactly the partial update |
| Usuarios.ColunasDosFragmentos | models/Usuario.js:59-83 | each generated fragment reads back as its column, and its value sits at its position |
| Usuarios.ExecutarClausula | models/Usuario.js:91-99 | the generated `SET` list, run on any row, is the partial update asked for |
| Usuarios.MontarAtualizacaoAluno | models/Usuario.js:55-96 | the builder fails with "no field supplied" exactly when no field is supplied; otherwise its clause means what `ClausulaCorreta` states |
| Usuarios.RemocaoDoAluno | models/Usuario.js:112 | with unique ids, deleting by id removes exactly the one row with that id and keeps the others in order; id and e-mail uniqueness survive |
| Usuarios.Atualizadas | models/Usuario.js:91-99 | the update keeps the row count and every id, and so keeps id uniqueness |
| Usuarios.ExecutarUpdate | models/Usuario.js:91-99 | how the database runs the whole `UPDATE ... WHERE ID_USUARIO = $n`: the row count and every row's id are kept, so id uniqueness is kept |
| Usuarios.UpdateDaClausula | models/Usuario.js:91-99 | running a statement whose `WHERE` parameter is the id and whose `SET` list is the partial update changes exactly the rows with that id, as asked |
| Usuarios.TabelaUsuario.VerificaAlunoPorEmail | models/Usuario.js:28-38 | None exactly when no student has the e-mail; otherwise a student with it |
| Usuarios.TabelaUsuario.VerificaAlunoPorId | models/Usuario.js:40-50 | None exactly when no student has the id; otherwise the student with it |
| Usuarios.TabelaUsuario.CadastrarAluno | models/Usuario.js:4-26 | the insert is refused, with the table unchanged, exactly when the id or the e-mail is already used; otherwise the student is appended with ATIVO true and E_ADMIN false, and no row is returned |
| Usuarios.TabelaUsuario.AtualizarAluno | models/Usuario.js:52-105 | with no field supplied it fails and changes nothing; an update that would repeat an e-mail is refused, with the table unchanged; otherwise the row with the id gets exactly the partial update, and it is returned, or None when no row has the id |
| Usuarios.TabelaUsuario.DeletarAluno | models/Usuario.js:106-121 | fails, with the table unchanged, exactly when no student has the id; otherwise exactly that student's row is removed and returned |
| Usuarios.TabelaUsuario.BuscarAlunos | models/Usuario.js:122-130 | every student, without the password, each exactly once, sorted by name |
| Frota.CamposFornecidos | models/Onibus.js:51-66 | at most two assignments are written, NOME_ONIBUS then DESCRICAO, each only when its text is truthy |
| Frota.ColunaDeFragmento | models/Onibus.js:58 | the database reads the column of a generated fragment back as the column it was built for |
| Frota.ExecutarSet | models/Onibus.js:74-78 | how the database runs the `SET` list, fragment by fragment with its parameters bound: whatever the list, the bus's id is untouched |
| Frota.ExecutarUmFragmento | models/Onibus.js:74-78 | running one generated fragment assigns its column from the parameter it points at |
| Frota.ExecutarFragmentosDe | models/Onibus.js:74-78 | running the generated `SET` list performs the assignments it was built from |
| Frota.AplicarFornecidos | models/Onibus.js:50-66 | the supplied assignments, applied in order, are the partial update asked for |
| Frota.ClausulaCorreta | models/Onibus.js:53-79 | a clause built this way has consecutive markers and matching columns and values; the id sits where the `WHERE` parameter points; and the `SET` list performs exactly the partial update |
| Frota.MontarAtualizacaoOnibus | models/Onibus.js:53-79 | the builder fails with "no field supplied" exactly when neither text is truthy; otherwise its clause means what `ClausulaCorreta` states |
| Frota.RemocaoDoOnibus | models/Onibus.js:96 | with unique ids, deleting by id removes exactly the one row with that id, and id uniqueness survives |
| Frota.Atualizadas | models/Onibus.js:74-82 | the update keeps the row count and every id, and so keeps id uniqueness |
| Frota.ExecutarUpdate | models/Onibus.js:74-82 | how the database runs the whole `UPDATE ... WHERE ID_ONIBUS = $n`: the row count and every row's id are kept, so id uniqueness is kept |
| Frota.UpdateDaClausula | models/Onibus.js:74-82 | running a statement whose `WHERE` parameter is the id and whose `SET` list is the partial update changes exactly the rows with that id, as asked |
| Frota.TabelaOnibus.VerificaOnibusPorNome | models/Onibus.js:26-36 | None exactly when no bus has the name; otherwise a bus with it |
| Frota.TabelaOnibus.VerificaOnibusPorId | models/Onibus.js:38-48 | None exactly when no bus has the id; otherwise the bus with it |
| Frota.TabelaOnibus.CadastrarOnibus | models/Onibus.js:4-24 | a used id is refused, with the table unchanged; otherwise the bus is appended and returned |
| Frota.TabelaOnibus.AtualizarOnibus | models/Onibus.js:50-88 | with no truthy field it fails and changes nothing; otherwise the row with the id gets exactly the partial update, and it is returned, or None when no row has the id |
| Frota.TabelaOnibus.DeletarOnibus | models/Onibus.js:90-105 | fails, with the table unchanged, exactly when no bus has the id; otherwise exactly that bus's row is removed and returned |
| Frota.TabelaOnibus.BuscarOnibus | models/Onibus.js:106-114 | every bus, each exactly once, sorted by name |

## Left out

- Storage and driver faults: a statement the database refuses for a reason other than the constraints modelled here (lost connection, timeout) is not modelled. In the two directories, a `catch` branch is therefore reached only through the constraint violations modelled as `ErroBanco`. In the attendance table, no database refusal is modelled at all. The one `catch` that the model reaches is that of `mudarStatusPresenca`, through its own not-found `throw` (models/Presenca.js:195-197), which is `NaoEncontrada`.
- Error message texts and `console` logging are left out. Errors are datatype constructors.
- Concurrency is left out: each call runs alone, so two simultaneous `registrarPresenca` calls cannot both pass the duplicate check as they could in the source.
- Argument types: an argument left `undefined` is `None` wherever the source stores or tests it: the date of `converterData`, the four attendance flags, and the optional fields of the two updates. Arguments of a wrong JSON type are not modelled.
- Presencas.TabelaPresenca.MudarStatusPresenca: a flag of the wrong JSON type, such as a text where the boolean column expects a boolean, is not modelled. The database would refuse it. A flag is a boolean or absent.
- The database's text collation is not modelled: `ORDER BY` compares names character by character, by character code. Which of two rows with equal names comes first is not fixed.
- `DATA_CHAMADA` is compared as the text `YYYY-MM-DD` the caller sent. The pattern check of `converterData` makes that text canonical.
- The time zone is not modelled. The clock is passed in as today's date and the current hour.
- `uuidv4()` is not modelled: the new attendance id is a parameter that no row uses yet.
- `App.js` (HTTP routing, tokens, password hashing) is not part of this model. `senha` is stored as given.
- `tables/CreatePresenca.js` declares columns and enum types that `models/Presenca.js` does not use. Its foreign keys cascade deletes from `USUARIO` and `ONIBUS` into `PRESENCA`. The model follows the columns the queries use and treats the three tables separately, so the cascade is not modelled.
- Calendario.PegarDataHoje has no contract of its own. What it promises is stated by `CamposDeHoje` and `PegarDataHojeIdaEVolta`, for four-digit years.
- Usuarios.TabelaUsuario.CadastrarAluno: does not model the 20-character limit of `NUMERO_CELULAR`, under which the database would refuse a longer number.
- Usuarios.TabelaUsuario.AtualizarAluno: does not model the 20-character limit of `NUMERO_CELULAR` either.
- Where the code and its description differ, the model follows the code:
  - `verificarDiaSemana` throws on a Saturday or Sunday instead of returning `false`, so the `if (!fimDeSemana)` branch of `registrarPresenca` never runs. The model returns a refusal (`FimDeSemana`) with the table unchanged, which has the same effect.
  - The weekend check comes after the duplicate check.
  - `deletarPresenca` reports success even when the student had no record.
  - `atualizarPresenca` returns `undefined` (here `None`) when no row has the id.
  - At exactly 18h, neither confirmation flag is set.
  - `mudarStatusPresenca` writes both flags as given, so a flag the caller leaves out becomes NULL.
  - `cadastrarAluno`'s `INSERT` has no `RETURNING`, so it returns no row.
