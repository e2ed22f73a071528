# calendario — a verified model of the agenda's core

The calendario application is a church agenda. It keeps events, churches,
resources, users and birthdays. It checks that two events of the same church do
not book the same space at the same time. It reminds members of coming
birthdays, and it lays calendars out for the screen and for PDF export.

This project models the calendar and record logic of that application in
Dafny. It does not model its screens, storage glue or drawing code. Each
Dafny module stands for one source file, except `ApiSimulada`, which covers
two handlers that share one shape. Shared modules underpin them:

- **Server, over the shared `db` (`server/data/store.ts`).**
  - `Store`: the database and the conflict rule.
  - `RotasEventos`: event routes with conflict checking.
  - `RotasRecursos`, `RotasIgrejas` and `RotasUsuarios`: routes with
    case-insensitive uniqueness and cascading deletes.
- **Server, over the JSON store (`server/data/database-temp.ts`).**
  - `BancoTemp`: the untyped tables, with records as maps.
  - `RotasAniversarios`: the birthday routes.
- **Server, PDF route.** `RotaPdf` models `POST /pdf/calendario`: request
  checks, file name, and the month and year grids with the content of each
  cell.
- **Serverless handlers.** `ApiSimulada` models `api/eventos.js` and
  `api/igrejas.js`: a module-level table and an id counter, as one class.
- **Client, birthdays.**
  - `AniversariantesMock`: the mock store.
  - `AniversariantesLista`: the birthday list.
  - `Lembretes`: the reminder card.
  - `Notificacoes`: the notification hook, with its seen-id bookkeeping.
  - `Estatisticas`: the statistics card.
  - `AniversarioModal`: the birthday dialog.
  - `Recorrencia`: the next-occurrence rule that four of these share.
- **Client, churches and views.**
  - `IgrejaModal`: the church dialog, with its colour and organ list.
  - `CalendarioPrincipal`: the main calendar screen.
  - `ExportarPdf`: the export dialog.
  - `DownloadUtils`: report file names.
- **Shared modules.**
  - `Api`: the exchanged records.
  - `Calendario`: the ECMA-262 `Date` arithmetic the code relies on.
  - `Grade`: the 6 x 7 month grid.
  - `Util`: filter, trim, lower-case, number to text, padStart.
  - `Ordenacao`: a stable sort.

Tables that the source changes in place are classes whose methods state the
exact new table. Everything else is functions, with lemmas for what the
source promises about them.

Instants are integer milliseconds in local time. A `new Date(y, m, d)`
follows MakeDay and MakeDate of section 21.4.1 of ECMA-262, including how
they normalise overflow: in a common year, 29 February becomes 1 March, so
a birthday on 29 February is shown on 1 March
(client/components/agenda/AniversariantesLista.tsx:66).

## Model

| member | source | states |
|---|---|---|
| Api.Publico | server/routes/usuarios.ts:8 | A user as the routes send it: every field of the stored user except `senhaHash` |
| Store.ChaveRecurso | server/data/store.ts:99 | An absent resource id is compared as `"__principal__"`; a present one as itself |
| Store.EncostadosNaoSobrepoem | server/data/store.ts:93-95 | Intervals that only touch (one ends where the other starts) do not overlap |
| Store.SobrepoeSimetrico | server/data/store.ts:93-95 | Overlap is symmetric in its two intervals |
| Store.ConflitoSimetrico | server/data/store.ts:97-102 | `ehConflito(a, b) == ehConflito(b, a)` |
| Store.IgrejasDiferentesNaoConflitam | server/data/store.ts:98 | Events of different churches never conflict |
| Store.RecursosDiferentesNaoConflitam | server/data/store.ts:99-100 | Same church, different resource identities: never a conflict, whatever the times |
| Store.SemRecursoConflitaSeSobrepoe | server/data/store.ts:99-101 | Two resource-less events of one church conflict exactly when their times overlap |
| Store.SentinelaEhPrincipal | server/data/store.ts:99 | A resource whose id is `"__principal__"` conflicts with an overlapping resource-less event of the same church |
| Store.ConflitoConsigo | server/data/store.ts:97-102 | An event conflicts with itself exactly when its start is before its end |
| Store.Db.constructor | server/data/store.ts:20-26 | The database starts with five empty tables |
| RotasEventos.PrimeiroConflito | server/routes/eventos.ts:5-13 | None exactly when no entry blocks the candidate; otherwise the index of an entry that blocks it, with no blocking entry before it |
| RotasEventos.ValidarConflitos | server/routes/eventos.ts:5-13 | The loop returns null exactly when no event (other than one whose id is a non-empty `ignorarId`) conflicts; otherwise the message naming the first conflicting event |
| RotasEventos.IgnoradoNuncaBloqueia | server/routes/eventos.ts:7 | With a non-empty `ignorarId`, the reported event never carries that id |
| RotasEventos.ErroSeAlgumBloqueia | server/routes/eventos.ts:6-10 | If entry k blocks, an error is reported, and it names an entry at or before k that blocks |
| RotasEventos.ListarEventos | server/routes/eventos.ts:15-24 | Without both bounds, all events; with both, only events overlapping [inicio, fim) |
| RotasEventos.ListarEventosExato | server/routes/eventos.ts:18-22 | With both bounds, an event is listed exactly when it is stored and overlaps the period |
| RotasEventos.NovoEvento | server/routes/eventos.ts:36-46 | The new event carries the fresh id, the body's fields, the caller as creator, `recursoId` or null, `diaInteiro` only when true |
| RotasEventos.CriarEvento | server/routes/eventos.ts:26-52 | 400 on a missing required field, 403 for a member or a leader of another church, 409 with the table unchanged on conflict, else 201 and exactly one event appended |
| RotasEventos.LiderDeOutraIgreja | server/routes/eventos.ts:62-64 | Never true for a non-leader, for a leader without a church, or for a leader of the target church |
| RotasEventos.Mesclar | server/routes/eventos.ts:65-70 | An empty body gives back the stored event; the church is the sent one or the stored one; each date is the sent one when given, else the stored one |
| RotasEventos.AtualizarEvento | server/routes/eventos.ts:54-76 | 404 exactly for an unknown id; 500 without a user; 403 exactly for a member or a leader of another church than the merged one; 200 exactly when allowed and the merged event conflicts with no other id, with only index `idx` replaced; else 409 |
| RotasEventos.EdicaoSemMudancaNaoConflitaConsigo | server/routes/eventos.ts:71 | An unchanged event never conflicts with itself when edited: any reported conflict is with another id |
| RotasEventos.RemoverEvento | server/routes/eventos.ts:78-90 | 404 exactly for an unknown id; 500 without a user; 403 exactly for a member or a leader of another church than the stored one; 204 exactly when allowed, and the table is then the stored events without that id, in order |
| RotasEventos.RemocaoExata | server/routes/eventos.ts:87 | After removal an event remains exactly when it was stored and has another id |
| BancoTemp.Ler | server/data/database-temp.ts:211 | A missing property reads as `undefined`, a present one as its value |
| BancoTemp.Espalhar | server/data/database-temp.ts:253 | `{ ...a, ...b }`: the keys of both, `b`'s value where `b` has the key, `a`'s elsewhere |
| BancoTemp.BuscarPorId | server/data/database-temp.ts:232-233 | None exactly when no record has the id; otherwise the first record with it |
| BancoTemp.BuscarPorEmail | server/data/database-temp.ts:136-137 | None exactly when no user has the email (exact match); otherwise the first user with it |
| BancoTemp.ComIdentidade | server/data/database-temp.ts:238-244 | The stored record: the input's properties, with the generated `id` and `criadoEm` overriding any input values |
| BancoTemp.NovoEvento | server/data/database-temp.ts:194-201 | As above, plus `responsavel`: the input's when defined and not null, else null |
| BancoTemp.NovoUsuario | server/data/database-temp.ts:139-148 | The input with the generated `id`, the hash and `criadoEm`, and no `senha` property |
| BancoTemp.AtualizacaoDeUsuario | server/data/database-temp.ts:158-161 | A truthy `senha` is replaced by `senhaHash`; otherwise the update is used as given |
| BancoTemp.ResponsavelJaEspalhado | server/data/database-temp.ts:210-213 | The second assignment of `responsavel` in `eventosDb.atualizar` changes nothing beyond the spread |
| BancoTemp.BuscarPorPeriodo | server/data/database-temp.ts:185-192 | Every event found overlaps the period, with its start and end read as `new Date` reads them (null is 0, a boolean 0 or 1, a number itself); nothing is found unless both bounds are given |
| BancoTemp.BuscarPorPeriodoExato | server/data/database-temp.ts:185-192 | An event is found exactly when it is stored, its start and end are valid instants under `new Date`, its start is before the period end and its end after the period start |
| BancoTemp.InicioNumericoNoPeriodo | server/data/database-temp.ts:187-191 | A start stored as the number 5 with an end at 100 is found in the period [0, 200] |
| BancoTemp.InicioNuloEhZero | server/data/database-temp.ts:187-191 | A start stored as null is the instant 0: an event whose end lies just past the end `fim > 0` of a period is found in that period |
| BancoTemp.BuscarPorMes | server/data/database-temp.ts:235-236 | Every record found has `mes == mes` |
| BancoTemp.BuscarPorMesCompleto | server/data/database-temp.ts:235-236 | Every stored record of that month is found |
| BancoTemp.BuscarPorIgreja | server/data/database-temp.ts:349-350 | Every department or organ found belongs to that church |
| BancoTemp.IgrejaParticiona | server/data/database-temp.ts:380-383 | The records of the church and those kept by `deletarPorIgreja` together are exactly the table |
| BancoTemp.DeletarPorIgrejaEsvazia | server/data/database-temp.ts:380-383 | After `deletarPorIgreja`, no record of that church remains |
| BancoTemp.Tabela.constructor | server/data/database-temp.ts:23-31 | A table starts empty |
| BancoTemp.Tabela.Criar | server/data/database-temp.ts:238-248 | Exactly one record is appended, the input with the new `id` and `criadoEm` |
| BancoTemp.Tabela.CriarEvento | server/data/database-temp.ts:194-205 | Exactly one event is appended, with `responsavel` defaulting to null |
| BancoTemp.Tabela.CriarUsuario | server/data/database-temp.ts:139-152 | Exactly one user is appended, holding the hash and not the password |
| BancoTemp.Tabela.Atualizar | server/data/database-temp.ts:250-256 | Null and no change for an unknown id; otherwise index `idx` becomes the spread of the stored record and the update, and no other index changes |
| BancoTemp.Tabela.AtualizarEvento | server/data/database-temp.ts:207-216 | The same for events: the result is the spread, `responsavel` included |
| BancoTemp.Tabela.AtualizarUsuario | server/data/database-temp.ts:154-166 | The same for users, with a supplied password turned into `senhaHash` |
| BancoTemp.Tabela.Deletar | server/data/database-temp.ts:258-264 | False and no change for an unknown id; otherwise true and only the first matching record is removed |
| BancoTemp.Tabela.DeletarPorIgreja | server/data/database-temp.ts:425-428 | The table becomes the records of other churches, in order |
| BancoTemp.AtualizarPreserva | server/data/database-temp.ts:253 | Keys absent from the update keep their stored values, and so does `id` |
| BancoTemp.DeletarUmSo | server/data/database-temp.ts:261 | `splice(index, 1)` loses exactly the one record at `index` |
| RotasAniversarios.CriadoPor | server/routes/aniversarios.ts:14 | The caller's id when it is a non-empty string, else `"anon"` |
| RotasAniversarios.IgrejaFinal | server/routes/aniversarios.ts:15 | The body's church when truthy, else the caller's church when present, else `"default"` |
| RotasAniversarios.PayloadCriacao | server/routes/aniversarios.ts:25-33 | Exactly seven properties: trimmed `nome`, `dia`, `mes`, `ano` or null when falsy, trimmed `observacoes` or null when empty, `criadoPor`, `igrejaId` |
| RotasAniversarios.CriarAniversario | server/routes/aniversarios.ts:10-36 | 400 with the first message when nome, dia or mes is falsy (dia 0 included); 400 with the second when dia is outside 1..31 or mes outside 1..12; else 201 and exactly the new record appended; no change on an error |
| RotasAniversarios.TrintaEUmDeAbrilAceito | server/routes/aniversarios.ts:21-23 | 31/04 passes both checks: there is no per-month length check |
| RotasAniversarios.CamposAtualizados | server/routes/aniversarios.ts:55-61 | The update holds a field exactly when the body sent it (not undefined), and no other field |
| RotasAniversarios.ValoresAtualizados | server/routes/aniversarios.ts:56-61 | Sent `nome` and `observacoes` are trimmed, a null `observacoes` becomes undefined, `dia` and `mes` are passed as sent |
| RotasAniversarios.AtualizarAniversario | server/routes/aniversarios.ts:38-65 | 404 for an unknown id; 400 with "Dia deve estar entre 1-31" for a truthy out-of-range dia, then with "Mês deve estar entre 1-12" for mes; 500 when `nome` is null (`trim` throws); else 200 and only index `idx` becomes the stored record spread with the update |
| RotasAniversarios.ZeroNaoEhVerificado | server/routes/aniversarios.ts:47-58 | `dia = 0` and `mes = 0` skip both range checks and are stored |
| RotasAniversarios.RemoverAniversario | server/routes/aniversarios.ts:67-77 | 404 and no change for an unknown id; else 204 and only the first record with the id removed |
| RotasAniversarios.ValorOuNulo | server/routes/aniversarios.ts:93-94 | `x \|\| null`: a truthy value is kept, anything else becomes null |
| RotasAniversarios.Projecao | server/routes/aniversarios.ts:87-95 | Exactly the seven listed properties; `departamentoId` and `orgaoId` null when falsy; `ano` and `observacoes` omitted |
| RotasAniversarios.AniversariosPorMes | server/routes/aniversarios.ts:79-98 | 400 exactly when the month is missing, zero or outside 1..12; otherwise 200 with the projection of each record of that month, in stored order |
| RotasRecursos.NovoRecurso | server/routes/recursos.ts:14 | The new resource: the fresh id, the name, `tipo` or null, `estaDisponivel` true unless false was sent |
| RotasRecursos.CriarRecurso | server/routes/recursos.ts:8-18 | 400 without a name; 409 when a stored name equals it ignoring case; else 201 and exactly the new resource appended; no change on an error |
| RotasRecursos.CriarPreservaNomesUnicos | server/routes/recursos.ts:11-15 | A successful create keeps resource names unique ignoring case |
| RotasRecursos.Atualizado | server/routes/recursos.ts:26 | Each field is replaced only when supplied (not null/undefined); the id is kept |
| RotasRecursos.AtualizarRecurso | server/routes/recursos.ts:20-29 | 404 and no change for an unknown id; else 200 and only index `idx` replaced by the merged resource |
| RotasRecursos.RenomearPodeDuplicar | server/routes/recursos.ts:26 | A rename makes no uniqueness check: two resources can end up with names equal ignoring case |
| RotasRecursos.Desvincular | server/routes/recursos.ts:36 | Same length; an event referencing the resource has `recursoId` set to null, every other event is unchanged |
| RotasRecursos.DesvincularCompleto | server/routes/recursos.ts:36 | Afterwards no event references the resource, events that did not are unchanged, and only `recursoId` ever changes |
| RotasRecursos.RemoverRecurso | server/routes/recursos.ts:31-39 | 404 and no change when no resource has the id; else 204, the resource table loses every record with the id, and events are unlinked from it |
| RotasIgrejas.NovaIgreja | server/routes/igrejas.ts:15 | The new church: the fresh id, the name, `endereco` and `codigoCor` or null, and no organs or departments |
| RotasIgrejas.CriarIgreja | server/routes/igrejas.ts:9-19 | 400 without a name; 409 when a stored name equals it ignoring case; else 201 and exactly the new church appended; no change on an error |
| RotasIgrejas.CriarPreservaNomesUnicos | server/routes/igrejas.ts:12-16 | A successful create keeps church names unique ignoring case |
| RotasIgrejas.Atualizada | server/routes/igrejas.ts:27 | Each field keeps its old value when the supplied one is null/undefined; id and the rest are kept |
| RotasIgrejas.AtualizadaSemCampos | server/routes/igrejas.ts:27 | An empty body leaves the church as it was |
| RotasIgrejas.AtualizarIgreja | server/routes/igrejas.ts:21-30 | 404 and no change for an unknown id; else 200 and only index `idx` replaced by the merged church |
| RotasIgrejas.RemoverIgreja | server/routes/igrejas.ts:32-41 | 404 and no change when no church has the id; else 204, the church removed and every event of that church removed, others in order; it may change only the church and event tables |
| RotasIgrejas.RemocaoEmCascata | server/routes/igrejas.ts:36-38 | A church remains exactly when it has another id; an event remains exactly when it belongs to another church |
| RotasUsuarios.ListarUsuarios | server/routes/usuarios.ts:6-9 | Every user, in order, each as its public projection |
| RotasUsuarios.ListarSoEscondeHash | server/routes/usuarios.ts:8 | The projection loses only the password hash: two users with the same projection differ at most in `senhaHash` |
| RotasUsuarios.NovoUsuario | server/routes/usuarios.ts:15-16 | The new user: the fresh id, the body's fields, the hash, `igrejaId` and `dataNascimento` or null |
| RotasUsuarios.CriarUsuario | server/routes/usuarios.ts:11-21 | 400 when nome, email, senha or perfil is missing; 409 when a stored e-mail equals it ignoring case; else 201, exactly the new user appended, and the answer without the hash; no change on an error |
| RotasUsuarios.CriarPreservaEmailsUnicos | server/routes/usuarios.ts:14-17 | A successful create keeps e-mails unique ignoring case |
| RotasUsuarios.AtualizadoComoEscrito | server/routes/usuarios.ts:31-39 | As written: a sent e-mail, even an empty one, replaces the stored one |
| RotasUsuarios.EmailVazioDuplica | server/routes/usuarios.ts:29-34 | Two updates sending `email: ""` pass the clash check and leave two users with the same e-mail |
| RotasUsuarios.Atualizado | server/routes/usuarios.ts:31-39 | Corrected: each field is kept when not supplied; the e-mail changes only when truthy; the hash changes only when a password is given; id kept |
| RotasUsuarios.AtualizadoDifereSoNoVazio | server/routes/usuarios.ts:34 | The corrected merge and the written one agree on every body that does not send an empty e-mail |
| RotasUsuarios.AtualizarPreservaEmailsUnicos | server/routes/usuarios.ts:29-39 | An update that passes the clash check, which ignores the user being updated, keeps e-mails unique ignoring case |
| RotasUsuarios.AtualizarUsuario | server/routes/usuarios.ts:23-43 | As written: 404 for an unknown id; 409 exactly when a truthy e-mail is used by another user; else 200, index `idx` replaced by the merge as written (an empty e-mail stored), the answer without the hash; no change on an error |
| RotasUsuarios.AtualizarComoEscritoPreservaEmailsUnicos | server/routes/usuarios.ts:29-39 | The update as written keeps e-mails unique whenever the body does not send an empty e-mail |
| RotasUsuarios.RemoverUsuario | server/routes/usuarios.ts:45-53 | 404 and no change when no user has the id; else 204, the user removed and exactly the events it created removed |
| RotasUsuarios.RemocaoEmCascata | server/routes/usuarios.ts:49-50 | An event remains exactly when another user created it |
| RotasUsuarios.AniversariantesDoDia | server/routes/usuarios.ts:55-65 | Every entry is `{id, nome, dataNascimento}` of a stored user born on the queried day and month, defaulting to today's; there are no more entries than users |
| RotasUsuarios.AniversariantesDoDiaCompleto | server/routes/usuarios.ts:59-63 | Every user born on that day and month is listed |
| RotasUsuarios.AniversariantesDoMes | server/routes/usuarios.ts:67-76 | Every entry is `{id, nome, dia, mes}` of a stored user born in the queried month, defaulting to the current one; there are no more entries than users |
| RotasUsuarios.AniversariantesDoMesCompleto | server/routes/usuarios.ts:70-74 | Every user born in that month is listed |
| ApiSimulada.FiltrarCrescente | api/eventos.js:46 | Filtering keeps ids strictly increasing and keeps only stored records |
| ApiSimulada.ApagarExato | api/eventos.js:44-47 | After DELETE a record remains exactly when its id differs from the body's |
| ApiSimulada.Simulada.constructor | api/eventos.js:2-3 | The table starts empty and `nextId` at 1 |
| ApiSimulada.Simulada.Atender | api/eventos.js:5-50 | OPTIONS and GET change nothing (GET lists the table); POST appends the record with `id = nextId++` and answers 201; PUT replaces the fields of the first record with the id and keeps its id and `created_at`, or answers 404 unchanged; DELETE drops every record with the id and answers 204; others 405; ids stay unique and below the counter |
| ApiSimulada.AcrescentarCrescente | api/igrejas.js:22-30 | Appending a record whose id exceeds every stored id keeps ids increasing and unique |
| AniversariantesMock.Aplicar | client/components/agenda/aniversariantes.ts:88-92 | Every field the partial update supplies overrides the stored one, every other field is kept, and `atualizadoEm` is the current instant |
| AniversariantesMock.AplicarVazio | client/components/agenda/aniversariantes.ts:88-92 | An empty partial update changes only `atualizadoEm` |
| AniversariantesMock.PorMes | client/components/agenda/aniversariantes.ts:62-64 | At most as many entries as the list, each of the queried month |
| AniversariantesMock.PorMesExato | client/components/agenda/aniversariantes.ts:62-64 | An entry is returned exactly when it is stored and of that month |
| AniversariantesMock.PorMesAcrescentar | client/components/agenda/aniversariantes.ts:79 | After a push, the month's list grows by the new entry exactly when it is of that month |
| AniversariantesMock.Mock.constructor | client/components/agenda/aniversariantes.ts:14-59 | The four sample entries, ids "1" to "4", with their names, days, months and years, phone and notes present, stamped with the current instant |
| AniversariantesMock.Mock.ObterTodos | client/components/agenda/aniversariantes.ts:67-69 | The whole list |
| AniversariantesMock.Mock.Adicionar | client/components/agenda/aniversariantes.ts:72-81 | The new entry carries the given fields, the id and both stamps, and is appended at the end |
| AniversariantesMock.Mock.Atualizar | client/components/agenda/aniversariantes.ts:84-95 | null and no change when no entry has the id; else the first entry with it is replaced by the merged entry, which is returned |
| AniversariantesMock.Mock.Remover | client/components/agenda/aniversariantes.ts:98-104 | false and no change when no entry has the id; else true and exactly the first entry with it removed |
| AniversariantesLista.Exibidos | client/components/agenda/AniversariantesLista.tsx:43-56 | The shown list is sorted by day within a chosen month, else by month then day, and is a permutation of that month's entries (or of all entries) |
| AniversariantesLista.ExibidoSe | client/components/agenda/AniversariantesLista.tsx:43-45 | An entry is shown exactly when it is loaded and, with a month chosen, of that month |
| AniversariantesLista.Idade | client/components/agenda/AniversariantesLista.tsx:58-61 | No age exactly when the year is missing or zero; else age plus year is the current year |
| AniversariantesLista.DiasParaAniversario | client/components/agenda/AniversariantesLista.tsx:63-81 | As written: never negative; the calendar days from today to the occurrence as written; 0 only at the birthday's exact midnight |
| AniversariantesLista.Rotulo | client/components/agenda/AniversariantesLista.tsx:184-188 | "🎉 Hoje!" exactly for 0, "Amanhã!" exactly for 1, otherwise "em n dias" |
| AniversariantesLista.RotuloDoDia | client/components/agenda/AniversariantesLista.tsx:183-188 | As written: "Hoje!" only at the birthday's exact midnight, "Amanhã!" exactly the day before the occurrence as written, highlight exactly within the seven days before it |
| AniversariantesLista.RotuloDoDiaCorrigido | client/components/agenda/AniversariantesLista.tsx:183-188 | Corrected: "Hoje!" exactly on the birthday's calendar day, "Amanhã!" exactly the day before the corrected occurrence |
| Recorrencia.InicioDoDia | client/components/agenda/AniversariantesLista.tsx:64 | Local midnight of the current day: at or before the instant, less than a day before, on the same day |
| Recorrencia.AnoSeguinteDepois | client/components/agenda/AniversariantesLista.tsx:68-70 | The same date a year later always lies after the current instant |
| Recorrencia.ProximaOcorrenciaComoEscrita | client/components/agenda/AniversariantesLista.tsx:63-74 | As written: a midnight never before now; this year's date exactly when that is not before now, else next year's |
| Recorrencia.DiasComoEscrito | client/components/agenda/AniversariantesLista.tsx:76-81 | As written: the difference of day numbers to that occurrence, never negative, and 0 only at the birthday's exact midnight |
| Recorrencia.AniversarioHojeViraAnoQueVem | client/components/agenda/AniversariantesLista.tsx:63-81 | One millisecond after midnight of 10 June 2024 the code reports 365 days to the birthday of 10 June; the corrected count is 0 |
| Recorrencia.DezDeJunho | client/components/agenda/AniversariantesLista.tsx:66 | Day numbers of 10 June 2024 and 2025 counted from 1 January 1970 |
| Recorrencia.TetoDias | client/components/agenda/AniversariantesLista.tsx:80 | Rounding up the milliseconds from now to a later midnight gives the difference of day numbers |
| Recorrencia.ProximaOcorrencia | client/components/agenda/AniversariantesLista.tsx:63-74 | Corrected: a midnight never before today's; this year's date exactly when that is not before today's midnight, else next year's |
| Recorrencia.DiasPara | client/components/agenda/AniversariantesLista.tsx:63-81 | Corrected: the difference of day numbers to that occurrence, never negative, and 0 exactly on the birthday's calendar day |
| Recorrencia.CorrecaoSoNoProprioDia | client/components/agenda/AniversariantesLista.tsx:68 | The corrected and the written occurrence differ exactly on the birthday itself after its midnight |
| Recorrencia.VinteENoveViraPrimeiroDeMarco | client/components/agenda/AniversariantesLista.tsx:66 | In a common year 29 February is built as 1 March, and both versions then celebrate on 1 March |
| Lembretes.CandidatosExato | client/components/agenda/LembretesAniversarios.tsx:49-70 | As written: a reminder is collected exactly when it is built from a loaded birthday and its `differenceInDays` count is at most 7 |
| Lembretes.CarregarProximos | client/components/agenda/LembretesAniversarios.tsx:41-75 | As written: the loop's result is the collected reminders sorted by days left: sorted, a permutation of them, each at most 7 by `differenceInDays`, and exactly the loaded birthdays within that bound |
| Lembretes.ProximosOrdenados | client/components/agenda/LembretesAniversarios.tsx:72-73 | Sorting the collected reminders gives a sorted permutation that keeps the 7-day bound and the membership |
| Lembretes.DiasRestantesComoEscrito | client/components/agenda/LembretesAniversarios.tsx:53-60 | As written: never negative; the calendar days to the occurrence as written, one less when the current instant is not a midnight |
| Lembretes.ProximoCorrigido | client/components/agenda/LembretesAniversarios.tsx:53-63 | Corrected: the days left are the calendar days to the corrected occurrence, never negative |
| Lembretes.DiferencaPerdeUmDia | client/components/agenda/LembretesAniversarios.tsx:60 | Truncating the gap from a non-midnight instant to a later midnight counts one day less than the calendar difference |
| Lembretes.VesperaContaComoHoje | client/components/agenda/LembretesAniversarios.tsx:60 | One millisecond after midnight of 10 June 2024, a birthday on 11 June is 0 days away as written, 1 day corrected |
| Lembretes.OnzeDeJunho | client/components/agenda/LembretesAniversarios.tsx:53 | Day numbers of 10 and 11 June 2024 |
| Lembretes.Dispensar | client/components/agenda/LembretesAniversarios.tsx:83-87 | The dismissed set gains the id and nothing else |
| Lembretes.DispensarIdempotente | client/components/agenda/LembretesAniversarios.tsx:83-87 | Dismissing the same reminder twice is the same as once |
| Lembretes.Ativos | client/components/agenda/LembretesAniversarios.tsx:93-95 | No shown reminder has been dismissed |
| Lembretes.AtivosExato | client/components/agenda/LembretesAniversarios.tsx:93-95 | A reminder is shown exactly when it is loaded and not dismissed; the shown list stays sorted; dismissing one more id filters only that id out of the shown list |
| Lembretes.FiltrarDuasVezes | client/components/agenda/LembretesAniversarios.tsx:93-95 | Filtering by a larger dismissed set equals filtering twice |
| Lembretes.RotuloLembrete | client/components/agenda/LembretesAniversarios.tsx:125-127 | "hoje" exactly for 0, "amanhã" exactly for 1, "em n dias" above 1, nothing below 0 |
| Notificacoes.Prefixo | client/hooks/use-notificacao-aniversarios.ts:61-75 | Each kind's id prefix ("hoje", "amanha", "semana") is at least four characters |
| Notificacoes.Classificar | client/hooks/use-notificacao-aniversarios.ts:58-80 | A notification exactly for 0, 1 or 7 days left, of kind "hoje" exactly for 0 and "amanha" exactly for 1, for that birthday, with id prefix-dash-birthday id |
| Notificacoes.IdDeterminaTipoEAniversario | client/hooks/use-notificacao-aniversarios.ts:61-75 | Two notifications with the same id have the same kind and the same birthday id |
| Notificacoes.Gerar | client/hooks/use-notificacao-aniversarios.ts:45-81 | As written: a birthday yields a notification exactly when the occurrence as written is 0, 1 or 7 calendar days away, of kind "hoje" only at its exact midnight |
| Notificacoes.GeradaSe | client/hooks/use-notificacao-aniversarios.ts:45-81 | A notification is among the generated ones exactly when some birthday of the list yields it |
| Notificacoes.GerarCorrigido | client/hooks/use-notificacao-aniversarios.ts:49-56 | Corrected: a notification exactly when the corrected occurrence is 0, 1 or 7 calendar days away, of kind "hoje" exactly on the birthday's calendar day |
| Notificacoes.NaoVistas | client/hooks/use-notificacao-aniversarios.ts:88-90 | No returned notification has an id already seen |
| Notificacoes.SegundaPassagemVazia | client/hooks/use-notificacao-aniversarios.ts:83-135 | Once the shown notifications' ids are recorded as seen, filtering again shows nothing |
| Notificacoes.GerarNotificacoes | client/hooks/use-notificacao-aniversarios.ts:43-81 | As written: the loop produces exactly the notifications the rule as written generates, in order |
| Notificacoes.Notificador.constructor | client/hooks/use-notificacao-aniversarios.ts:25-26 | No notifications; the last check and the seen ids are the saved ones |
| Notificacoes.Notificador.Verificar | client/hooks/use-notificacao-aniversarios.ts:31-142 | As written: nothing changes and no toast when today was already checked; else the notifications are the ones the rule as written generates, the toasts those not seen, the seen ids gain theirs, and today is recorded |
| Notificacoes.Notificador.LimparNotificacoesAntigas | client/hooks/use-notificacao-aniversarios.ts:165-171 | The seen ids are cleared and nothing else changes |
| Estatisticas.ProximoMes | client/components/agenda/EstatisticasAniversarios.tsx:42 | The month after, in 1..12, December wrapping to January |
| Estatisticas.ComData | client/components/agenda/EstatisticasAniversarios.tsx:38 | Every kept user has a birth date |
| Estatisticas.ParseIsoNaoImportado | client/components/agenda/EstatisticasAniversarios.tsx:57 | As written: one user born on 15 March 2000 leaves the card without statistics, though that user is one birthday in March |
| Estatisticas.PorMesPasso | client/components/agenda/EstatisticasAniversarios.tsx:57-60 | Counting one more user adds one to that user's month and changes no other counter; a birth date that is not a calendar day changes none of the twelve |
| Estatisticas.ContagensPasso | client/components/agenda/EstatisticasAniversarios.tsx:62-82 | Counting one more user adds one to this month's and next month's count exactly for a valid birthday in that month, and to the week's count exactly for a valid birthday whose days as written are at most 7 |
| Estatisticas.ContarUm | client/components/agenda/EstatisticasAniversarios.tsx:56-82 | One birth date: a valid one adds one to its month's counter and to each count whose test it passes; an Invalid Date changes nothing |
| Estatisticas.ContarAniversarios | client/components/agenda/EstatisticasAniversarios.tsx:44-83 | The loop's twelve counters are the per-month counts of users with a valid birth date, never negative, and the three other counts are those of this month, next month and the coming week by the rule as written; an Invalid Date counts in none of them |
| Estatisticas.EmSeteDiasSe | client/components/agenda/EstatisticasAniversarios.tsx:71-82 | As written: a user counts in the week exactly when the occurrence as written is at most 7 calendar days away |
| Estatisticas.MesComMais | client/components/agenda/EstatisticasAniversarios.tsx:85-100 | The month chosen has the largest counter, named after it, and is the first month with that count |
| Estatisticas.EstatisticasComoEscritas | client/components/agenda/EstatisticasAniversarios.tsx:34-60 | As written: statistics exist exactly when no user has a birth date, and then the total is that of users with a birth date |
| Estatisticas.CarregarEstatisticas | client/components/agenda/EstatisticasAniversarios.tsx:34-108 | Corrected: the total of users with a birth date, valid or not; this and next month's counts and the week's count (by the rule as written) over the valid ones; and the earliest month with the most birthdays |
| Estatisticas.SomaMesesCabeca | client/components/agenda/EstatisticasAniversarios.tsx:60 | Adding a user to the front raises the count up to month m by one exactly when that user's birth date is valid and in months 1..m |
| Estatisticas.SomaMesesVazia | client/components/agenda/EstatisticasAniversarios.tsx:45-48 | No users, no counts |
| Estatisticas.ContadoresSomamTotal | client/components/agenda/EstatisticasAniversarios.tsx:45-60 | The twelve month counters add up to the number of users with a valid birth date, which is the total when every stored date is valid |
| Estatisticas.TrintaDeFevereiro | client/components/agenda/EstatisticasAniversarios.tsx:57-82 | A birth date stored as 2000-02-30 counts in the total, in no month and not in the coming week |
| IgrejaModal.Digitos | client/components/agenda/IgrejaModal.tsx:10-12 | One hexadecimal digit per draw, the digit of that draw |
| IgrejaModal.ValorHex | client/components/agenda/IgrejaModal.tsx:8 | The draw that yields a given hexadecimal digit |
| IgrejaModal.GerarCorAleatoria | client/components/agenda/IgrejaModal.tsx:7-14 | The loop builds "#" followed by the six drawn digits, which is a colour of the form #RRGGBB |
| IgrejaModal.TodaCorAlcancavel | client/components/agenda/IgrejaModal.tsx:7-14 | Every #RRGGBB colour is produced by one and only one sequence of six draws |
| IgrejaModal.AdicionarOrgao | client/components/agenda/IgrejaModal.tsx:57-62 | A trimmed, non-empty, new name is appended and the input cleared; otherwise nothing changes |
| IgrejaModal.AdicionarMantemLimpa | client/components/agenda/IgrejaModal.tsx:57-62 | Adding keeps the list trimmed, free of empty names and free of duplicates |
| IgrejaModal.LimpaEntradaSoAoAdicionar | client/components/agenda/IgrejaModal.tsx:58-60 | The input is cleared exactly when the list grows by one |
| IgrejaModal.RemoverOrgao | client/components/agenda/IgrejaModal.tsx:64-66 | The name is gone and every other name stays |
| IgrejaModal.RemoverMantemOrdem | client/components/agenda/IgrejaModal.tsx:65 | Removal distributes over concatenation, leaves a list without the name as it is, and keeps a clean list clean |
| IgrejaModal.RemoverSubsequencia | client/components/agenda/IgrejaModal.tsx:65 | Removing from a clean list leaves it clean |
| IgrejaModal.RemoverDesfazAdicionar | client/components/agenda/IgrejaModal.tsx:57-66 | Removing a name just added gives back the list as it was |
| AniversarioModal.DiasNoMes2024 | client/components/agenda/AniversarioModal.tsx:78 | Month lengths of the leap year 2024: 29 for February, 30 for April, June, September and November |
| AniversarioModal.UltimoDiaEm2024 | client/components/agenda/AniversarioModal.tsx:78 | Day 0 of the following month is the last day of the month |
| AniversarioModal.HandleSalvar | client/components/agenda/AniversarioModal.tsx:58-97 | The checks run in order (name, then day and month, then the month's length), each with its message; a request is sent exactly when all pass, with the trimmed name, the day, the month, the year or null, and the trimmed notes or null |
| AniversarioModal.VinteENoveDeFevereiroAceito | client/components/agenda/AniversarioModal.tsx:78-79 | 29 February is accepted |
| AniversarioModal.DiasInexistentesRecusados | client/components/agenda/AniversarioModal.tsx:78-86 | 30 February and 31 April are refused |
| AniversarioModal.FormularioVazio | client/components/agenda/AniversarioModal.tsx:45-51 | The reset form is one the selects can produce |
| AniversarioModal.SalvarVazio | client/components/agenda/AniversarioModal.tsx:45-66 | Saving a reset form fails with "O nome é obrigatório" |
| AniversarioModal.ComoDTO | client/components/agenda/AniversarioModal.tsx:91-97 | The body the dialog sends has every required field exactly when the name, the day and the month are set |
| AniversarioModal.EnviadoEhAceito | client/components/agenda/AniversarioModal.tsx:91-97 | Every body the dialog sends passes the route's required-field and range checks, and the route stores the name and year as sent |
| AniversarioModal.AnosDisponiveis | client/components/agenda/AniversarioModal.tsx:118 | One hundred years, the current one first, each one less than the previous |
| AniversarioModal.AnosOferecidos | client/components/agenda/AniversarioModal.tsx:118 | A year is offered exactly when it is one of the last 100 up to the current one, newest first |
| DownloadUtils.Timestamp | client/lib/download-utils.ts:16 | A prefix of the ISO text, without a 'T', ending just before the first 'T' when there is one |
| DownloadUtils.TimestampEhAData | client/lib/download-utils.ts:16 | For an instant written YYYY-MM-DDTHH:mm:ss.sssZ the timestamp is YYYY-MM-DD |
| DownloadUtils.Partes | client/lib/download-utils.ts:18-36 | The part before the date starts with its kind's prefix ("calendario-mensal-", "calendario-anual-", "relatorio-" for the rest) and ends in a dash for the three named kinds |
| DownloadUtils.Formato | client/lib/download-utils.ts:14-37 | Every name starts with its kind's prefix and ends with the date part and ".pdf", after a dash for the three named kinds |
| DownloadUtils.FormatarNomeArquivo | client/lib/download-utils.ts:14-37 | Every name ends with the date part of the current instant and ".pdf" |
| DownloadUtils.MesNaFaixa | client/lib/download-utils.ts:20-26 | A month 1..12 is written with its lower-case ASCII name |
| DownloadUtils.AnualCompleto | client/lib/download-utils.ts:28-30 | The yearly name is "calendario-anual-", the year asked for (the current one when missing or zero), a dash, the date part and ".pdf" |
| DownloadUtils.AniversariosCompleto | client/lib/download-utils.ts:32-33 | The birthday report is "relatorio-aniversarios-", the date part and ".pdf" |
| DownloadUtils.OutroTipoCompleto | client/lib/download-utils.ts:35-36 | Any other kind is "relatorio-", the date part and ".pdf" |
| DownloadUtils.SemMesNemAnoUsaOAtual | client/lib/download-utils.ts:24-29 | A missing or zero month and year give the same name as the current month and year |
| DownloadUtils.MesForaDaFaixa | client/lib/download-utils.ts:24 | A non-zero month outside 1..12 is written "undefined" |
| Grade.PrimeiroDiaSemana | client/components/agenda/ExportarCalendarioPDF.tsx:419-423 | The weekday of the 1st is in 0..6 |
| Grade.InicioDaGrade | client/components/agenda/CalendarioPrincipal.tsx:654-655 | The grid starts on the Sunday on or before the 1st, less than a week before it |
| Grade.DomingoAnterior | client/components/agenda/CalendarioPrincipal.tsx:655 | Going back by the weekday lands on a Sunday |
| Grade.DiasMesAnterior | client/components/agenda/ExportarCalendarioPDF.tsx:424 | The previous month has 28 to 31 days |
| Grade.DiasSeguidos | client/components/agenda/CalendarioPrincipal.tsx:657-659 | Day d of a month is d - 1 days after its 1st |
| Grade.MesMenosUm | client/components/agenda/ExportarCalendarioPDF.tsx:424 | Month -1 of a year is December of the year before |
| Grade.MesDoze | client/components/agenda/ExportarCalendarioPDF.tsx:420 | Month 12 of a year is January of the year after |
| Grade.UltimoMaisUm | client/components/agenda/ExportarCalendarioPDF.tsx:420-422 | The day after a month's last day is the next month's 1st |
| Grade.DiaZeroEhUltimo | client/components/agenda/ExportarCalendarioPDF.tsx:424 | Day 0 of a month is the previous month's last day, the day before the 1st |
| Grade.CelulaDe | client/components/agenda/ExportarCalendarioPDF.tsx:430-445 | A cell shows the previous month exactly before the 1st's weekday, the current month exactly for the month's days after that, and the next month after them |
| Grade.CelulaEhODia | client/components/agenda/CalendarioPrincipal.tsx:654-659 | Cell i is the i-th day from the grid's Sunday, and its day of month is a real day of its month: 42 consecutive days with the current month's days in order |
| Calendario.DiasNoAno | client/components/agenda/AniversarioModal.tsx:78 | 365 or 366 days, 366 exactly in a Gregorian leap year |
| Calendario.DiasNoMes | client/components/agenda/ExportarCalendarioPDF.tsx:420-422 | 28 to 31 days; February has 29 exactly in a leap year |
| Calendario.TransbordaMes | client/components/agenda/ExportarCalendarioPDF.tsx:420 | A day past the month's end is the same day counted into the next month, as the Date constructor rolls it over |
| Calendario.VinteENoveDeFevereiro | client/components/agenda/AniversariantesLista.tsx:66 | In a common year 29 February is 1 March |
| Calendario.VinteENoveDeFevereiroBissexto | client/components/agenda/AniversariantesLista.tsx:66 | In a leap year 29 February is the day before 1 March |
| Calendario.DiaDoAnoSeguinte | client/components/agenda/AniversariantesLista.tsx:70 | A year later is as many days later as the year has |
| Calendario.NoAnoUnico | client/components/agenda/AniversariantesLista.tsx:65 | An instant lies in one calendar year only |
| Calendario.DiaDaSemana | client/components/agenda/ExportarCalendarioPDF.tsx:423 | The weekday is in 0..6 |
| Calendario.DiaDaMeiaNoite | client/components/agenda/AniversariantesLista.tsx:66 | The midnight built for a date lies on that date |
| Calendario.Teto | client/components/agenda/AniversariantesLista.tsx:80 | The least multiple count at or above the quotient, as Math.ceil rounds |
| Calendario.TetoZero | client/components/agenda/AniversariantesLista.tsx:80 | Rounding up a non-negative gap gives 0 exactly for no gap |
| Calendario.DiferencaEmDias | client/components/agenda/LembretesAniversarios.tsx:60 | The whole days between two instants, truncated toward zero |
| Util.Sobrescrever | client/components/agenda/aniversariantes.ts:88-91 | A property not sent keeps its value, a null one clears it, a sent one replaces it |
| Util.PrimeiraPosicao | client/components/agenda/aniversariantes.ts:85 | None exactly when no element matches; otherwise the first matching position |
| Util.SemPosicao | client/components/agenda/aniversariantes.ts:102 | One element fewer: the elements before the position kept, those after shifted down by one |
| Util.ApararEspec | client/components/agenda/AniversarioModal.tsx:59 | The trimmed text neither starts nor ends with white space, and is empty exactly when the text is all white space |
| Util.ApararIdempotente | client/components/agenda/IgrejaModal.tsx:58 | Trimming twice is trimming once |
| Util.Minusculas | server/routes/igrejas.ts:12 | Same length, each letter A-Z lowered and every other character kept |
| Util.MinusculasIdempotente | server/routes/igrejas.ts:12 | Lowering twice is lowering once |
| Util.AcrescentarUnico | server/routes/usuarios.ts:14 | Appending a name no stored name equals ignoring case keeps the names unique ignoring case |
| Util.TrocarUnico | server/routes/usuarios.ts:29 | Replacing one name by a name no other entry equals ignoring case keeps them unique |
| Util.NatParaTexto | server/routes/pdf.ts:34 | Decimal digits, without a leading zero, that read back as the number |
| Util.IntParaTexto | server/routes/pdf.ts:34 | Decimal digits without a leading zero, after a minus sign for a negative number, reading back as the number |
| Util.PadDois | server/routes/pdf.ts:34 | padStart(2, "0"): the text ends the result, which is at least two long and zero-filled in front |
| Ordenacao.Ordenar | client/components/agenda/LembretesAniversarios.tsx:73 | The sorted list has the input's length, is in ascending key order, and is a permutation of the input |
| Ordenacao.OrdenarEstavel | client/components/agenda/LembretesAniversarios.tsx:73 | The sort is stable: entries with equal keys keep their order |
| Ordenacao.FiltrarOrdenado | client/components/agenda/LembretesAniversarios.tsx:93-95 | Filtering a sorted list keeps it sorted |
| CalendarioPrincipal.ItemDeAniversario | client/components/agenda/CalendarioPrincipal.tsx:95-104 | An all-day birthday item placed on its day of the shown year, from its first to its last millisecond |
| CalendarioPrincipal.IdDeAniversarioInjetivo | client/components/agenda/CalendarioPrincipal.tsx:98 | Two birthday items share the id `bday-{id}-{ano}-{mes}-{dia}` exactly when they have the same birthday id, year, month and day (none negative) |
| CalendarioPrincipal.UltimoMilissegundo | client/components/agenda/CalendarioPrincipal.tsx:101 | 23:59:59.999 still belongs to the day |
| CalendarioPrincipal.ItensDeEventos | client/components/agenda/CalendarioPrincipal.tsx:85-93 | One item per event, in order, each built from its event |
| CalendarioPrincipal.ItensDeAniversarios | client/components/agenda/CalendarioPrincipal.tsx:95-105 | One birthday item per birthday of the month, in order |
| CalendarioPrincipal.ItensDoCalendario | client/components/agenda/CalendarioPrincipal.tsx:107-110 | Only the birthdays with the toggle on; else the events, then the birthdays |
| CalendarioPrincipal.ContagemPorDia | client/components/agenda/CalendarioPrincipal.tsx:113-118 | The map holds exactly the days on which some event starts, each with the number of events starting then |
| CalendarioPrincipal.MaiorValor | client/components/agenda/CalendarioPrincipal.tsx:119 | No value exceeds the maximum, which is 0 or one of the values |
| CalendarioPrincipal.MaxEventosEmUmDia | client/components/agenda/CalendarioPrincipal.tsx:112-121 | The largest number of events starting on one day: no day has more, some event's day has that many, 0 without events |
| CalendarioPrincipal.SobrepoeSe | client/components/agenda/CalendarioPrincipal.tsx:218-220 | An event is in a day's cell exactly when the day lies between its start and end days, unless it starts at a day's last millisecond or ends at a midnight |
| CalendarioPrincipal.TerminaAMeiaNoite | client/components/agenda/CalendarioPrincipal.tsx:220 | An event ending exactly at midnight is not in that day's cell |
| CalendarioPrincipal.Truncar | client/components/agenda/CalendarioPrincipal.tsx:235-253 | The first min(n, limit) items are drawn in order, "+N" appears exactly when more exist, and drawn plus N is all of them |
| CalendarioPrincipal.MesDaCelula | client/components/agenda/CalendarioPrincipal.tsx:221 | A cell's month is in 1..12, and is the shown month exactly for cells of that month |
| CalendarioPrincipal.DoMesNaCelula | client/components/agenda/CalendarioPrincipal.tsx:221 | With the month's birthdays, a cell of the month shows those of its day and a neighbouring month's cell shows none |
| CalendarioPrincipal.ItensDaCelula | client/components/agenda/CalendarioPrincipal.tsx:218-231 | A cell's items are the events overlapping its day, then the birthdays of its day and month |
| CalendarioPrincipal.CelulasDoPdfMensal | client/components/agenda/CalendarioPrincipal.tsx:201-254 | The loop produces the 42 cells of the grid, cell i for day i |
| CalendarioPrincipal.CelulaDoPdf | client/components/agenda/CalendarioPrincipal.tsx:235-254 | A PDF cell draws at most 4 items and announces exactly the rest; neighbouring months' cells draw no birthday and a month cell draws those of its day |
| CalendarioPrincipal.ContarEventosPorDia | client/components/agenda/CalendarioPrincipal.tsx:312-319 | The first loop makes one row per day on which some event starts, counting those events, with no birthdays yet |
| CalendarioPrincipal.AcrescentarAniversario | client/components/agenda/CalendarioPrincipal.tsx:321-325 | One birthday more adds one to the row of its date, created when missing |
| CalendarioPrincipal.PassoAte | client/components/agenda/CalendarioPrincipal.tsx:322-324 | Counting one more birthday adds one to exactly the day it falls on |
| CalendarioPrincipal.LimitesAte | client/components/agenda/CalendarioPrincipal.tsx:320-321 | Before a month's first birthday the count is that of the earlier months; after its last, that of the months up to it |
| CalendarioPrincipal.MesmasContagens | client/components/agenda/CalendarioPrincipal.tsx:312-326 | Rows built from equal counts per day are the same rows |
| CalendarioPrincipal.SomarMes | client/components/agenda/CalendarioPrincipal.tsx:321-326 | The inner loop adds one month's birthdays to the rows |
| CalendarioPrincipal.SomarAniversarios | client/components/agenda/CalendarioPrincipal.tsx:320-327 | The outer loop adds every month's birthdays to the rows |
| CalendarioPrincipal.LinhasIniciais | client/components/agenda/CalendarioPrincipal.tsx:312-319 | Before any month the rows are those of the events alone |
| CalendarioPrincipal.LinhasFinais | client/components/agenda/CalendarioPrincipal.tsx:320-327 | After the twelfth month a row exists exactly for a day with an event starting or a birthday falling on it, holding both counts |
| CalendarioPrincipal.ValoresDoMapa | client/components/agenda/CalendarioPrincipal.tsx:329 | Each row of the map exactly once |
| CalendarioPrincipal.DatasDistintas | client/components/agenda/CalendarioPrincipal.tsx:329 | Rows with distinct dates appear at most once each |
| CalendarioPrincipal.OrdemEstrita | client/components/agenda/CalendarioPrincipal.tsx:329-330 | Rows with distinct dates sorted by date are in strictly increasing order |
| CalendarioPrincipal.ResumoAnual | client/components/agenda/CalendarioPrincipal.tsx:294-335 | One row per day with an event starting or a birthday falling on it, holding both counts, dates strictly increasing |
| CalendarioPrincipal.MesmasLinhas | client/components/agenda/CalendarioPrincipal.tsx:329-330 | Sorting the rows keeps each row and each date |
| CalendarioPrincipal.Widget | client/components/agenda/CalendarioPrincipal.tsx:589-592 | The widget shows the 5 earliest birthdays in day order, none hidden is earlier than one shown, and "+N" appears exactly above 5 and counts exactly the hidden ones |
| CalendarioPrincipal.CorteOrdenado | client/components/agenda/CalendarioPrincipal.tsx:589 | Cutting a day-sorted list gives a sorted head, no later item earlier than a head item, and the two parts make up the list |
| CalendarioPrincipal.Marcas | client/components/agenda/CalendarioPrincipal.tsx:675 | Only birthday dots with the toggle on; else the event dots, then the birthday dots |
| CalendarioPrincipal.SegundaCelulaDeMarco2024 | client/components/agenda/CalendarioPrincipal.tsx:654-658 | Cell 1 of the March 2024 grid is 26 February |
| CalendarioPrincipal.NbComoEscritoMarcaMesVizinho | client/components/agenda/CalendarioPrincipal.tsx:674 | As written: a birthday on 26 March puts a dot on 26 February in the March mini month; the corrected count does not |
| CalendarioPrincipal.NbSoNoMes | client/components/agenda/CalendarioPrincipal.tsx:674 | Corrected: with the month's birthdays, cells of neighbouring months get no birthday dot, and cells of the month the written count |
| CalendarioPrincipal.DiasDaGrade | client/components/agenda/CalendarioPrincipal.tsx:656-659 | The loop builds 42 consecutive days from the grid's Sunday |
| CalendarioPrincipal.MiniMes | client/components/agenda/CalendarioPrincipal.tsx:653-692 | As written: 42 cells, cell i built for grid day i with the day-only birthday count |
| CalendarioPrincipal.MiniMesCelula | client/components/agenda/CalendarioPrincipal.tsx:670-690 | As written: a mini cell is grid day i in its month, draws at most 3 dots and shows "+N" for exactly the rest, counting birthdays by day of month only |
| CalendarioPrincipal.NbComoEscrito | client/components/agenda/CalendarioPrincipal.tsx:674 | As written: at most the number of birthdays, positive exactly when some birthday has the cell's day of month, in any month |
| CalendarioPrincipal.Nb | client/components/agenda/CalendarioPrincipal.tsx:674 | Corrected: at most the number of birthdays, positive exactly when some birthday has the cell's day and month |
| ExportarPdf.EtapaEhFiltro | client/components/agenda/ExportarCalendarioPDF.tsx:176 | An optional filter step is one filter by "the list is empty or the item passes" |
| ExportarPdf.CadeiaEhUmFiltro | client/components/agenda/ExportarCalendarioPDF.tsx:176-178 | The chain of church, department and organ filters keeps exactly the items every non-empty list admits, in order |
| ExportarPdf.Selecionar | client/components/agenda/ExportarCalendarioPDF.tsx:173-190 | Type 1 exports no events and type 0 no birthdays; otherwise the events of the period and the birthdays, narrowed to the month for a monthly export, pass the chain of filters |
| ExportarPdf.AniversarioExportadoSe | client/components/agenda/ExportarCalendarioPDF.tsx:182-190 | A birthday is exported exactly when birthdays are asked for, it is of the chosen month (monthly only), and every non-empty list admits it |
| ExportarPdf.EventoExportadoSe | client/components/agenda/ExportarCalendarioPDF.tsx:174-179 | An event is exported exactly when events are asked for, it is in the period's list, and every non-empty list admits it |
| ExportarPdf.SemFiltrosNadaSai | client/components/agenda/ExportarCalendarioPDF.tsx:176-178 | With no list ticked no event is filtered out |
| ExportarPdf.AchatarConcat | client/components/agenda/ExportarCalendarioPDF.tsx:160 | flatMap acts on each part of the church list separately, keeping church order |
| ExportarPdf.AchatarPertence | client/components/agenda/ExportarCalendarioPDF.tsx:160 | An entry of the flattened list comes from some church of the list |
| ExportarPdf.OferecidoSe | client/components/agenda/ExportarCalendarioPDF.tsx:158-164 | An entry is offered exactly when some chosen church, or any church when none is ticked, contributes it |
| ExportarPdf.DepartamentoDaIgreja | client/components/agenda/ExportarCalendarioPDF.tsx:160 | A church contributes exactly its own departments, tagged with its id and name |
| ExportarPdf.OrgaoDaIgreja | client/components/agenda/ExportarCalendarioPDF.tsx:164 | A church contributes exactly its own organs, tagged with its id and name |
| ExportarPdf.DepartamentoOferecidoSe | client/components/agenda/ExportarCalendarioPDF.tsx:158-160 | A department is offered exactly when it belongs to a chosen church, tagged with it |
| ExportarPdf.OrgaoOferecidoSe | client/components/agenda/ExportarCalendarioPDF.tsx:162-164 | An organ is offered exactly when it belongs to a chosen church, tagged with it |
| ExportarPdf.SemFiltroTodasAsIgrejas | client/components/agenda/ExportarCalendarioPDF.tsx:159-163 | With no church ticked every church contributes, in church order |
| ExportarPdf.IdadeEmAnos | client/components/agenda/ExportarCalendarioPDF.tsx:312-316 | An age exactly when the year is present and non-zero; age plus year is the current year |
| ExportarPdf.Idade | client/components/agenda/ExportarCalendarioPDF.tsx:326 | "-" exactly without an age, otherwise the age's digits |
| ExportarPdf.NomeDaIgreja | client/components/agenda/ExportarCalendarioPDF.tsx:321-325 | The name of the first church with the id, or "-" when that name is empty or no church has the id; never empty |
| ExportarPdf.LinhasAniversarios | client/components/agenda/ExportarCalendarioPDF.tsx:318-330 | One row per birthday, in the order of a sorted permutation by month then day |
| ExportarPdf.NomeArquivo | client/components/agenda/ExportarCalendarioPDF.tsx:207 | A yearly export is named calendario_anual_{ano}.pdf whatever the month; a monthly one calendario_mensal_{ano}_MM.pdf, the month written with exactly two digits |
| ExportarPdf.MesmoNomeQueARota | client/components/agenda/ExportarCalendarioPDF.tsx:207 | The dialog's PDF name and the server route's HTML name for the same request differ only in the extension |
| ExportarPdf.GradeLocal | client/components/agenda/ExportarCalendarioPDF.tsx:426-562 | The 6 x 7 loop with its day counter produces, cell by cell, the expected cell for each position |
| ExportarPdf.CelulaDaPosicao | client/components/agenda/ExportarCalendarioPDF.tsx:429-445 | One step: a blank cell before the 1st, a day cell while days remain, a blank cell after, and the counter moves exactly on day cells |
| ExportarPdf.NumerosDaGrade | client/components/agenda/ExportarCalendarioPDF.tsx:440-445 | Leading blank cells count up to the previous month's last day and trailing ones count 1, 2, ...: each is the day of month of its date |
| RotaPdf.NomeComExtensao | server/routes/pdf.ts:34 | The extension is appended to the same base name |
| RotaPdf.SufixoDoisDigitos | server/routes/pdf.ts:34 | For a month 1..12 the monthly suffix is exactly two digits, "0" then the digit below 10 |
| RotaPdf.GerarPdf | server/routes/pdf.ts:21-38 | 400 exactly when tipo or formato is missing or empty; otherwise the list view exactly for "lista", the monthly grid exactly for another format with tipo "mensal", named calendario_{tipo}_{ano}[_MM].html |
| RotaPdf.PedidoDeCalendario | server/routes/pdf.ts:29-34 | A calendar request gives the grid of its period, named with the base name and ".html" |
| RotaPdf.ListaDeAniversarios | server/routes/pdf.ts:72-76 | The birthday table is a permutation of the birthdays sorted by month, then day |
| RotaPdf.MontarGrade | server/routes/pdf.ts:310-371 | The nested loops emit whole weeks, at most six, covering the first weekday plus the month's days and less than a week more; cell k is blank before the 1st and after the last day and day k - p + 1 between |
| RotaPdf.CadaDiaUmaVez | server/routes/pdf.ts:310-371 | Every day of the month is in the grid once, at its place, and no other cell is a day |
| RotaPdf.Primeiros | server/routes/pdf.ts:333 | slice(0, n): the first min(n, length) items |
| RotaPdf.Mostrados | server/routes/pdf.ts:332-348 | A day cell draws at most 5 items, none beyond what it has |
| RotaPdf.MaisComoEscritoOmite | server/routes/pdf.ts:350-353 | As written: 4 events draw 3 and announce nothing; 6 events draw 3 and announce 1 more; 3 birthdays draw 2 and announce nothing |
| RotaPdf.Mais | server/routes/pdf.ts:350-353 | Corrected: "+N mais" exactly when an item is left out, N being the items left out |
| RotaPdf.MaisConcordaQuandoCheio | server/routes/pdf.ts:350-353 | The written and corrected counts agree exactly when both kinds fill their slots or neither overflows |
| RotaPdf.MesMostrado | server/routes/pdf.ts:302 | The month shown is 0-based and within 0..11; a given non-zero month m shows m - 1, a missing or zero month shows January |
| RotaPdf.CalendarioDoMes | server/routes/pdf.ts:300-372 | As written: the monthly grid is the laid-out grid of the month shown, each day cell with its content and the "+N mais" count as written |
| RotaPdf.ConteudoDoDia | server/routes/pdf.ts:321-353 | As written: a day cell draws at most 3 events, each starting on that date, and at most 2 birthdays, each with that day and the requested month; drawn plus announced never exceeds that day's items, and equals them exactly when both kinds fill their slots or neither overflows |
| RotaPdf.EventosDoDia | server/routes/pdf.ts:321-328 | Exactly the events that start on that date |
| RotaPdf.AniversariosDoDia | server/routes/pdf.ts:330 | Exactly the birthdays with that day and the requested month; none without a month |
| RotaPdf.MaisComoEscrito | server/routes/pdf.ts:350-353 | As written: N is positive; drawn plus N never exceeds the day's items, and equals them exactly when both kinds fill their slots or neither overflows |
| RotaPdf.ConteudoMensal | server/routes/pdf.ts:321-353 | Every day draws exactly the first min(n, 3) of its n events and the first min(m, 2) of its m birthdays, in order, with the "+N mais" of `MaisComoEscrito` over n and m |
| RotaPdf.MarcadoSe | server/routes/pdf.ts:581-594 | A mini day is marked exactly when some event starts on it or some birthday has its day and month |
| RotaPdf.CalendarioDoAno | server/routes/pdf.ts:559-606 | Twelve month grids, each laid out by the same rule with the marks of its days |

## Left out

- HTTP plumbing is not modelled: Express request and response objects, route wiring, CORS headers, JSON encoding, and the `try`/`catch` that turns an exception into 500. A handler is a function or method that returns a status code, a body and the new table.
- `autenticarToken` is never mounted. Each handler therefore takes the signed-in user as an explicit optional parameter.
- The SQLite layer, Electron, static serving and the fetch wrappers are not part of this model. The running server does not use the SQLite layer.
- Persistence of the JSON store to disk is not modelled. Its tables are class fields.
- `randomUUID`, `Date.now()`, `new Date()` and `Math.random()` are not modelled. Each becomes a parameter: a fresh id, the current instant with its year and month, and the random digits.
- bcrypt is not modelled. A user handler receives the hash of the submitted password.
- Time zones are not modelled. Local time is taken with offset 0, so an instant's day is its floor by 86 400 000 ms.
- Parsing and printing ISO text is not modelled. Instants are integers. A `yyyy-MM-dd` birth date is its decoded year, month and day. `format(...)` of date-fns is not modelled.
- `toLowerCase` is modelled for ASCII letters only, and `trim` for a fixed set of white-space characters. Unicode case tables are not modelled.
- Client-side effects are not modelled: `localStorage`, React state hooks, `setInterval`, toasts, `window.dispatchEvent`, `downloadBlob` and `mostrarNotificacao`. The notification hook's stored state is a class's fields instead.
- The PDF and HTML drawing is not modelled: jsPDF and autoTable calls, coordinates, fonts, colours, `hslToRgb` and `hexToRgb`, and the HTML and CSS text of `server/routes/pdf.ts`. What is modelled is which cells, items and counts those drawings show.
- The monthly PDF cell of `CalendarioPrincipal.tsx` stops early when its text runs out of room (line 249). That depends on font metrics and is not modelled: the model states the 4-item limit.
- The summary counts of `CalendarioPrincipal.tsx` group birthdays by day and add `nomes.length`. The model counts them one at a time, which gives the same totals.
- For the previous month's days, the PDF grid of `ExportarCalendarioPDF.tsx` computes with the column rather than the cell position. The two are equal on the first row, the only row where those days appear, and the model uses the column.
- `ExportarCalendarioPDF.tsx:207` pads the month with `padStart(2, "00")`. It behaves exactly as padding with `"0"`, and is modelled that way.
- The listing handlers that return a table unchanged (`listarRecursos`, `listarIgrejas`, `listarAniversarios`) are the identity on the table. They carry no model of their own.
- `formatarNomeArquivo` takes its kind as any text. Kinds other than `mensal`, `anual` and `aniversarios` are modelled as the source handles them, giving the `relatorio-` prefix.
- RotaPdf.CalendarioDoMes: accepts only a month from 0 to 12. The route takes any number, and `new Date` rolls other values into a neighbouring year. Those values are not modelled.
- ExportarPdf.NomeArquivo: the dialog's month selector only offers 1 to 12. The file name takes that range as a precondition.
- RotasEventos.Mesclar: an explicit `null` for `id`, `titulo`, `criadoPor`, `igrejaId` or `diaInteiro` is read as not sent. The event record has no null value for those properties, while the spread at lines 66-67 of `server/routes/eventos.ts` would store `null`.
- RotasIgrejas.NovaIgreja: the source stores no `orgaos` or `departamentos` property on a new church. The model stores empty lists, which is what the only reader, `(i.departamentos || [])` in `ExportarCalendarioPDF.tsx`, makes of a missing list.
- The screens are built on the rules as written, including the faults listed under Findings. The corrected rules are separate members, named in the last column there, with their properties proved alongside.
- The `+N` counters of `CalendarioPrincipal.tsx` are modelled as numbers. Their text is not.
- AniversariantesMock.Aplicar: the update record cannot hold a key sent explicitly as `undefined`. The spread `{...a, ...dados}` would copy that `undefined` over the stored value, while the model keeps the stored value.
- RotaPdf.GerarPdf: the request's `ano` is always a number. A body without `ano` gives "undefined" in the source's file name and an Invalid Date grid, and that case is not modelled.
- Stored text that is not an ISO instant is read by `new Date` as an Invalid Date. Date parsing of other text formats (which JavaScript engines accept in various forms) is not modelled.
- `CalendarioPrincipal.tsx` drops the sample churches "Igreja Central" and "Igreja Jardim" (line 53) and the sample events "Culto de Domingo" and "Ensaio Louvor" (line 62) as it loads them. That filter is not modelled: the churches and events the calendar members take are the lists after it.

## Findings

| source | as written | input that shows it | evidently intended | confidence | as-written member | corrected member |
|---|---|---|---|---|---|---|
| client/components/agenda/AniversariantesLista.tsx:63-81 (the same rule in LembretesAniversarios.tsx:50-58, use-notificacao-aniversarios.ts:49-56, EstatisticasAniversarios.tsx:71-82) | this year's date is kept only when it is not before the current instant | a birthday on 10 June, at 10 June 2024 00:00:00.001: next occurrence 10 June 2025, 365 days left, so "Hoje!" and the "hoje" notice never show after midnight | compare with today's midnight, giving 0 days on the birthday itself | high (not executed) | Recorrencia.AniversarioHojeViraAnoQueVem, Recorrencia.DiasComoEscrito | Recorrencia.DiasPara, Recorrencia.CorrecaoSoNoProprioDia |
| server/routes/pdf.ts:350-353 | "+N mais" when events + birthdays > 5, with N = total - 5, while the cell draws at most 3 events and 2 birthdays | 4 events and no birthday: 3 drawn, nothing announced, one event silently missing | announce exactly the items left out | high (not executed) | RotaPdf.MaisComoEscritoOmite | RotaPdf.Mais |
| client/components/agenda/LembretesAniversarios.tsx:60 | `differenceInDays` truncates the gap to whole 24-hour periods | a birthday on 11 June, at 10 June 2024 00:00:00.001: 0 days left, labelled "hoje" | calendar days to the occurrence, 1 here | medium (not executed) | Lembretes.VesperaContaComoHoje | Lembretes.ProximoCorrigido |
| client/components/agenda/EstatisticasAniversarios.tsx:57 | `parseISO` is called but not imported, so the first user with a birth date throws and the card keeps no statistics | one user born on 15 March 2000 | count that user's birthday in March | high (not executed) | Estatisticas.ParseIsoNaoImportado | Estatisticas.CarregarEstatisticas |
| server/routes/usuarios.ts:29-34 | the e-mail clash check runs only for a truthy e-mail, but `email ?? atual.email` stores an empty one | two users each updated with `email: ""` end up with the same e-mail | store the e-mail only under the condition it was checked | medium (not executed) | RotasUsuarios.EmailVazioDuplica | RotasUsuarios.AtualizarPreservaEmailsUnicos |
| client/components/agenda/CalendarioPrincipal.tsx:674 | the mini month's birthday count compares the day of month only, on every one of the 42 cells | a birthday on 26 March shows a dot on 26 February in the March mini month | count birthdays only in cells of the month shown | medium (not executed) | CalendarioPrincipal.NbComoEscritoMarcaMesVizinho | CalendarioPrincipal.NbSoNoMes |
