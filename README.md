# S.C.A.H. guest-register core in Dafny

S.C.A.H. is a hotel guest register. Its core is a spreadsheet importer. The importer reads a workbook of guest rows with free-text headers. It maps the headers onto the system's fields and turns each row into a guest record (persona and estadía). Each row ends up valid, skipped, rejected with a message, or marked as a duplicate within the file.

This project models that core and proves properties of it. It covers two versions of the importer:

- the current `ExcelParser` of `utils/excel_parser.py`: header normalisation and mapping, row processing, the batch loop, and sheet selection and row tagging;
- the earlier importer, whose source is embedded as text in `_rebuild_phase2.py`: what `leer_archivo` does with the frame it read, `_normalize`, `_map_column`, `detectar_mapeo`, the required-column check, the value parsers, `_procesar_fila` and `procesar_dataframe`.

It also models the smaller cores around the importer:

- the field validators of `utils/validators.py` and their earlier versions in `_rebuild_phase1.py`, including `limpiar_dni`;
- the pydantic rules of `PersonaSchema`, `EstadiaSchema` and `UsuarioSchema`;
- the whitelist-driven UPDATE builders and the `buscar_completa` condition builder, proved to emit exactly one `?` per parameter;
- the role table and the login-lockout state machine of `controllers/auth_controller.py`;
- the password-strength rules of `utils/encryption.py`;
- the exception constructors of `utils/exceptions.py`;
- the paging and sort state of the `DataTable` widget.

Each piece takes the form its source has:

- Pure code is written as datatypes, functions and lemmas.
- Objects whose fields change are classes: `ExcelParser`, the `AuthController` over its user rows, and `DataTable`.
- Loops that build lists and dictionaries step by step are methods. Each method is proved against the specification function of its stage. The methods are the header mapping, `_process_row`, the batch loop, the sheet loop, `detectar_mapeo`, `procesar_dataframe`, the UPDATE builders and `buscar_completa`.

Python built-ins are modelled where the code relies on them:

- `str.strip`, `split` and `join`, `lower` and `upper`, `replace`;
- `int()` and `int(float())`;
- `str(date)`;
- `datetime.strptime` for the directives the code uses;
- NFKD accent folding.

Each built-in is modelled in the module that uses it (`Text`, `CharMaps`, `Numerals`, `PyNum`, `Dates`).

## Where the code and its description differ

The model follows the code in each of these cases. Where the code is evidently wrong, the importers are still built from the functions as written, and the corrected function is a separate member (see Findings).

- **Name split.** The current importer takes the first word of a comma-free combined name as the surname and the rest as the given name (`utils/excel_parser.py:409-412`). The documented heuristic, "last word is the given name", is what the earlier importer does (`_rebuild_phase2.py:281-293`). Both are modelled.
- **Row numbers.** A row's number is said to be its row in the sheet. Both importers number the rows that survive blank-row removal 2, 3, …: the current one in `_fila_original` (`utils/excel_parser.py:245-291`), the earlier one in `procesar_dataframe` after `leer_archivo` renumbered the frame (`_rebuild_phase2.py:124`, `:317`). See Findings.
- **Float document cells.** A document read from a float cell (`35123456.0`) is said to lose its `.0`. In every version the dots are removed first, so the suffix test never fires. See Findings.
- **Normalisation idempotence.** The header normalisation of `utils/excel_parser.py:332-338` is not idempotent. A non-breaking space, or a dot after a trailing blank, changes on a second pass. It is idempotent on ASCII headers whose only blank is the space. The earlier `_normalize` is idempotent everywhere.
- **Short digit documents.** Digit strings of 5 or 6 characters are classified as passports by both importers: the passport test comes before the "too short" test.
- **`limpiar_dni`.** The shipped `utils/validators.py` has no `limpiar_dni`, though `models/persona.py:14` imports it. The model uses the one embedded at `_rebuild_phase1.py:690-697`.
- **Stoplist and aliases.** The shipped `config/settings.py` has no `COLUMNAS_IGNORAR` and a smaller `COLUMNAS_MAPEO`. The column mapping takes both as parameters. `ImportConfig` instantiates it with the tables of `_rebuild_phase1.py:87-173`.

## Model

| member | source | states |
|---|---|---|
| Auth.PermisosNested | controllers/auth_controller.py:41-55 | every operador permission is a supervisor permission and every supervisor permission an admin one; a role outside the table has no permission; only admin holds `admin`, `eliminar`, `configurar` |
| Auth.MinutesLeftBounds | controllers/auth_controller.py:118-119 | while the lock runs the announced minutes are at least 1 and cover the remaining seconds to within one minute |
| Auth.LoginReachesPassword | controllers/auth_controller.py:94-131 | for a known, active user with no running lock, login is the password check on the row after an expired lock is cleared |
| Auth.LogoutStep | controllers/auth_controller.py:173-182 | logout leaves no session and the user rows untouched; without a session it changes nothing |
| Auth.AuthController.constructor | controllers/auth_controller.py:61-64 | a new controller has no session |
| Auth.AuthController.Login | controllers/auth_controller.py:76-171 | the new rows, session and outcome are those of the login state machine on the old state |
| Auth.AuthController.CheckPassword | controllers/auth_controller.py:130-171 | the password branch of login updates rows and session as the password step says |
| Auth.AuthController.CountFailure | controllers/auth_controller.py:131-152 | one more failed attempt on the row, and the lock with its error once the count reaches the maximum |
| Auth.AuthController.Logout | controllers/auth_controller.py:173-182 | the new state is the logout step of the old one |
| Auth.LoginKeepsConsistent | controllers/auth_controller.py:94-171 | login keeps every row's counter and lock in agreement (fewer than three failures and no lock, or a lock) and changes no other user's row |
| Auth.UnlockConsistent | controllers/auth_controller.py:127-128 | clearing an expired lock keeps every row consistent and leaves the row unlocked |
| Auth.PasswordStepConsistent | controllers/auth_controller.py:131-163 | the password check keeps every row consistent and touches only the looked-up row |
| Auth.UnknownUserRefused | controllers/auth_controller.py:94-103 | an unknown user name gets `InvalidCredentialsError` and nothing changes |
| Auth.DisabledCheckedFirst | controllers/auth_controller.py:105-113 | a disabled account is refused with `AccountDisabledError` before lock and password are looked at, whatever the password and the time |
| Auth.LockedRefusesAnyPassword | controllers/auth_controller.py:115-126 | while `now < bloqueado_hasta`, login raises `AccountLockedError` with `(remaining // 60) + 1` minutes, for any password, and changes nothing |
| Auth.WrongPasswordCounts | controllers/auth_controller.py:127-152 | a wrong password on an active, unlocked account counts one failure (from zero after an expired lock); at the third the lock is set to `now + 15 min` and reported, earlier ones give invalid credentials; only that row changes and the session stays |
| Auth.FailedAttemptRow | controllers/auth_controller.py:132-143 | one failure changes only the counter of that row, and sets the lock exactly when the count reaches `MAX_LOGIN_ATTEMPTS` |
| Auth.RightPasswordLogsIn | controllers/auth_controller.py:154-171 | the right password resets the counter and the lock and opens a session with the row's id, username, full name and role |
| Auth.FailedLoginKeepsSession | controllers/auth_controller.py:158-163 | the session changes only on a successful login |
| Auth.PasswordStepSession | controllers/auth_controller.py:131-163 | the password check sets a session only when it logs in |
| Auth.ThreeFailuresLock | controllers/auth_controller.py:115-152 | three wrong passwords in a row on a fresh account: invalid credentials twice, then the 15-minute lock; a fourth attempt within the lock is refused even with the right password and changes nothing |
| Busqueda.Condition | models/estadia.py:157-159 | a condition `column op ?` has exactly one placeholder when the column and operator have none |
| Busqueda.LikesMarks | models/estadia.py:162-163 | the any-field group holds one placeholder per searched column |
| Busqueda.AnyFieldGroupMarks | models/estadia.py:162-165 | the five-column OR group has exactly five placeholders, matching the five parameters |
| Busqueda.TermWhereSpec | models/estadia.py:152-165 | a blank term adds nothing; otherwise one condition, with one `%term%` parameter when `campo` is one of the six recognised columns and five otherwise, and as many placeholders as parameters |
| Busqueda.IntOf | models/estadia.py:192 | `int(v)` is the integer itself for an integer, 1 or 0 for a boolean, and Python's `int()` of the text for text (so failing on text of more than 4300 digits), failing for a date and for `None` |
| Busqueda.FilterParam | models/estadia.py:169-195 | making a filter's parameter fails exactly for an integer filter whose value `int()` rejects |
| Busqueda.Present | models/estadia.py:168-195 | the filters that apply are exactly the listed ones whose value is truthy, and no more than were listed |
| Busqueda.FilterErrorPersists | models/estadia.py:190-195 | once a filter's `int()` raises, the later filters do not matter: the search fails with that error |
| Busqueda.FilterWhereErr | models/estadia.py:168-195 | the filters fail exactly when some set integer filter holds a value `int()` rejects |
| Busqueda.FilterWhereAligned | models/estadia.py:168-195 | otherwise each set filter, in order, adds its own condition and the parameter made from its value, and nothing else is added |
| Busqueda.FilterWhereMarks | models/estadia.py:168-195 | every condition the filters add has exactly one placeholder, so conditions and parameters stay aligned |
| Busqueda.AddFilters | models/estadia.py:168-195 | the filter block appends to the lists built so far exactly what the filter specification gives, or stops with its error |
| Busqueda.BuscarCompleta | models/estadia.py:135-212 | the statements and parameter lists built step by step are those of the search specification |
| Busqueda.WhereTextMarks | models/estadia.py:197-199 | joining the conditions with the operator inside one parenthesised group adds no placeholder when the operator has none |
| Busqueda.SearchSpecMarks | models/estadia.py:197-212 | both the count and the page statement have one placeholder per parameter; the page statement ends with `por_pagina` and the offset `(pagina - 1) * por_pagina` |
| Busqueda.SearchSpecOutcome | models/estadia.py:144-199 | the search fails exactly when the filters do; a blank term and no set filter leave `base` unchanged |
| Consultas.PageTailMarks | models/estadia.py:207-212 | the `LIMIT ? OFFSET ?` tail of the page statement has exactly two placeholders |
| Consultas.FramedMarks | models/estadia.py:197-212 | text without placeholders around the conditions adds none to them |
| Consultas.BaseClauseMarks | models/estadia.py:144-148 | the fixed `FROM … WHERE e.activo = 1 AND p.activo = 1` clause has no placeholder |
| Consultas.GroupedMarks | models/estadia.py:197-199 | without conditions `base` has no placeholder; with them exactly those of the joined conditions |
| Consultas.QueryMarks | models/estadia.py:202-211 | the COUNT statement has the placeholders of `base`, the page statement two more |
| Consultas.FiltersClean | models/estadia.py:169-195 | the column and operator text of every advanced filter holds no placeholder |
| DataTableState.TotalPagesIsCeiling | views/components/data_table.py:183 | the page count is at least 1 and is the ceiling of `total / page_size` |
| DataTableState.Slice | views/components/data_table.py:164-166 | the slice `all_data[start:start + size]` holds at most `size` rows, each the data row at its offset, clamped at the end of the data |
| DataTableState.RowPage | views/components/data_table.py:164-166 | row `k` of `total` falls on page `k // size + 1`, which is within the page count |
| DataTableState.EveryRowOnItsPage | views/components/data_table.py:164-189 | with the count taken from the data, every row is displayed on page `k // size + 1` at position `k % size`, and that page is reachable |
| DataTableState.LexLeTotal | views/components/data_table.py:216-219 | any two sort keys compare one way or the other under Python's string order |
| DataTableState.LexLeTransitive | views/components/data_table.py:216-219 | Python's string order is transitive |
| DataTableState.InOrderTotal | views/components/data_table.py:216-219 | the sort order, ascending or reversed, relates any two rows |
| DataTableState.InOrderTransitive | views/components/data_table.py:216-219 | the sort order, ascending or reversed, is transitive |
| DataTableState.InsertPermutes | views/components/data_table.py:216-219 | inserting a row into a list adds exactly that row |
| DataTableState.InsertSorted | views/components/data_table.py:216-219 | inserting a row into a sorted list keeps it sorted |
| DataTableState.SortRowsSorted | views/components/data_table.py:216-219 | `list.sort(key=str(x.get(col, "")).lower(), reverse=…)` leaves the rows ordered by that key, descending when reversed |
| DataTableState.SortRowsPermutes | views/components/data_table.py:216-219 | the sort only reorders: the sorted rows are a permutation of the old ones |
| DataTableState.DataTable.constructor | views/components/data_table.py:48-53 | a new table is empty, on page 1 of 1, with no sort column and ascending order |
| DataTableState.DataTable.Displayed | views/components/data_table.py:157-166 | the displayed rows number at most `page_size` |
| DataTableState.DataTable.Pages | views/components/data_table.py:178-189 | the page count is at least 1 and never below the current page |
| DataTableState.DataTable.Load | views/components/data_table.py:145-155 | `load_data` stores the rows, takes the given total or else the row count, goes back to page 1 and keeps the sort settings |
| DataTableState.DataTable.PrevPage | views/components/data_table.py:191-195 | `_prev_page` moves back exactly one page when past page 1, and otherwise changes nothing |
| DataTableState.DataTable.NextPage | views/components/data_table.py:197-202 | `_next_page` moves forward exactly one page when before the last page, and otherwise changes nothing |
| DataTableState.DataTable.SortByColumn | views/components/data_table.py:204-221 | the same column again flips the direction and a new column sorts ascending; the rows become a sorted permutation of the old ones, and the page goes back to 1 |
| DataTableState.DataTable.Clear | views/components/data_table.py:252-260 | `clear` leaves no rows, a count of 0 and page 1, keeping the sort settings |
| Dates.DaysInMonth | utils/validators.py:157 | every month has 28 to 31 days, the calendar `datetime.date` checks against |
| Dates.BeforeIsDayOrder | utils/validators.py:187-190 | date comparison (`salida < entrada`) is exactly the order of day numbers |
| Dates.BeforeTotalOrder | utils/validators.py:187-190 | date comparison is irreflexive, transitive and total |
| Dates.Padded | models/estadia.py:56 | a number written with exactly `width` digits, all digits, whose value is the number |
| Dates.Iso | models/estadia.py:56-57 | `str(date)` is ten characters with dashes at positions 4 and 7 |
| Dates.ParseYear4 | utils/excel_parser.py:564 | `%Y` accepts only years from 0 to 9999 |
| Dates.ParseYear2 | _rebuild_phase2.py:196 | `%y` reads two digits as a year from 1969 to 2068 |
| Dates.ParseMonth | utils/excel_parser.py:564 | `%m` accepts only months from 1 to 12 |
| Dates.ParseDay | utils/excel_parser.py:564 | `%d` accepts only days from 1 to 31 |
| Dates.Fields | utils/excel_parser.py:564 | the three fields around the first two separators rebuild the text, and the first two hold no separator |
| Dates.Strptime | utils/excel_parser.py:562-566 | `datetime.strptime(text, fmt).date()` yields only valid calendar dates, with no value where it raises `ValueError` |
| Dates.FieldsOfJoined | utils/excel_parser.py:564 | splitting text built from separator-free parts gives the parts back |
| Dates.ParseMonthPadded | utils/excel_parser.py:564 | `%m` reads back every zero-padded month |
| Dates.ParseDayPadded | utils/excel_parser.py:564 | `%d` reads back every zero-padded day |
| Dates.IsoRoundTrip | utils/validators.py:157 | `strptime(str(d), "%Y-%m-%d")` gives back every valid date, so dates stored as text parse back unchanged |
| Encryption.Messages | utils/encryption.py:90-101 | one error message per failed rule, in the same order |
| Encryption.ValidatePasswordStrength | utils/encryption.py:72-107 | the password is valid exactly when the error list is empty |
| Encryption.FailedRulesExact | utils/encryption.py:90-101 | a rule is reported exactly when the password breaks it |
| Encryption.FailedRulesOrdered | utils/encryption.py:90-101 | each failed rule is reported once, in checking order, so there are at most five errors |
| Encryption.MessageInjective | utils/encryption.py:90-101 | distinct rules have distinct messages |
| Encryption.StrengthValidIff | utils/encryption.py:72-107 | a password is valid exactly when it has at least 8 characters, an upper-case letter, a lower-case letter, a digit and one of `!@#$%^&*.,_-` |
| Encryption.HashPassword | utils/encryption.py:15-39 | `ValueError` exactly for an empty password; otherwise bcrypt's hash of it, or the `RuntimeError` "Error al procesar la contraseña" when `hashpw` raises |
| Encryption.VerifyPassword | utils/encryption.py:42-69 | `ValueError` exactly when the password or the hash is empty, otherwise bcrypt's verdict |
| Encryption.HashThenVerify | utils/encryption.py:15-69 | a non-empty password that bcrypt hashes verifies against that hash, given that bcrypt's check accepts its own hashes |
| Estadia.HabitacionErrors | models/estadia.py:23 | `habitacion` fails only when a given room is longer than 20 characters |
| Estadia.EdadErrors | models/estadia.py:24 | an age is accepted exactly when absent or strictly between 0 and 150 |
| Estadia.FieldErrors | models/estadia.py:20-30 | no field error exactly when every field constraint holds |
| Estadia.EstadiaSchema | models/estadia.py:18-36 | a stay is accepted exactly when its fields pass and the exit date, if any, is not before the entry date; failing fields are reported with their errors alone; the date error is reported alone once the fields pass; an accepted stay is the one given, with the room defaulting to "S/N" |
| Estadia.EstadiaSchemaByDayNumber | models/estadia.py:32-36 | on real dates a stay is accepted exactly when it has no exit date or leaves on or after its entry day, so a same-day exit is accepted |
| Estadia.Actualizar | models/estadia.py:94-122 | `actualizar` builds the update from the allowed keys in the fixed column order, or nothing when no allowed key is present |
| Estadia.ActualizarSpec | models/estadia.py:111-119 | nothing is sent exactly when no allowed key is present, and the statement has one placeholder per parameter |
| Estadia.ActualizarParams | models/estadia.py:106-110 | the vehicle flag is sent as 1 or 0 by its truthiness, and a date as text or `None` |
| ExcelBatch.ItemsOf | utils/excel_parser.py:112-115 | one labelled outcome per row of the table |
| ExcelBatch.TaggedKey | utils/excel_parser.py:122-127 | tagging a record with its sheet leaves its document key alone |
| ExcelBatch.TallyCounts | utils/excel_parser.py:112-137 | every row ends up in exactly one of valid rows, errors, duplicates or skipped |
| ExcelBatch.KeysOfMembers | utils/excel_parser.py:126-132 | a document is in `seen_docs` exactly when it is non-empty and some accepted row carried it |
| ExcelBatch.TallyMatchesReference | utils/excel_parser.py:112-137 | the loop's lists are the reference lists: the valid rows are the rows first with their document (and every row without one), the duplicates the later rows whose document was taken, the errors and skips the rejected and skipped rows |
| ExcelBatch.FirstOccurrenceValid | utils/excel_parser.py:126-134 | the first accepted row with a document stays among the valid rows |
| ExcelBatch.FirstsKeep | utils/excel_parser.py:126-134 | the reference list keeps every row that is first with its document |
| ExcelBatch.StepKeepsInv | utils/excel_parser.py:116-137 | one pass of the loop keeps the invariant: valid documents are seen, seen documents are valid, valid rows have distinct documents, duplicates repeat a seen document |
| ExcelBatch.AddValidKeepsInv | utils/excel_parser.py:131-134 | a row with an unseen document joins the valid rows without breaking the invariant |
| ExcelBatch.AddValidCovers | utils/excel_parser.py:131-134 | after a valid row is added, every document of a valid row is seen |
| ExcelBatch.AddValidBacked | utils/excel_parser.py:131-134 | after a valid row is added, every seen document belongs to a valid row |
| ExcelBatch.AddValidDistinct | utils/excel_parser.py:128-134 | adding a row whose document was not seen keeps the valid rows' documents distinct |
| ExcelBatch.AddValidDuplicates | utils/excel_parser.py:131-134 | adding a valid row keeps every duplicate's document seen |
| ExcelBatch.TallyOfInv | utils/excel_parser.py:112-137 | the invariant holds after any number of rows |
| ExcelBatch.ValidKeysDistinct | utils/excel_parser.py:126-134 | no two valid rows share a document, and every duplicate's document belongs to a valid row |
| ExcelBatch.Truncate | utils/excel_parser.py:96-100 | the table is cut to at most `MAX_IMPORT_ROWS` rows |
| ExcelBatch.ParseAccounts | utils/excel_parser.py:87-137 | an empty table gives the short result; otherwise `total_rows` is the full count and each of the first `MAX_IMPORT_ROWS` rows is counted exactly once |
| ExcelBatch.LabelOfSheetRow | utils/excel_parser.py:289-291 | each stacked row is labelled with its sheet's name and, as written, with its place among that sheet's kept rows plus two, which is its spreadsheet row only when no blank row came before it |
| ExcelBatch.TallyRows | utils/excel_parser.py:105-137 | the row loop produces exactly the reference lists and counts |
| ExcelBatch.TallyOfSnoc | utils/excel_parser.py:112-137 | one more row through the loop is one more step of the fold |
| ExcelBatch.RowItem | utils/excel_parser.py:113-117 | the loop body's sheet, row label and outcome for one row |
| ExcelBatch.TallyStep | utils/excel_parser.py:116-137 | one pass of the loop body: the row is skipped, reported as an error, a duplicate, or valid |
| ExcelBatch.SelectLoop | utils/excel_parser.py:213-227 | the loop over the workbook keeps exactly the sheets `SelectSheets` chooses |
| ExcelBatch.PrepareSheetStep | utils/excel_parser.py:233-296 | the sheet-loop body prepares one sheet as `PrepareSheet` says, or raises "cannot insert Hoja, already exists" when a kept column of a sheet with data title-cases to `Hoja` |
| ExcelBatch.PrepareAll | utils/excel_parser.py:229-296 | the sheet loop raises exactly when some selected sheet does; otherwise it prepares every selected sheet and merges their column mappings |
| ExcelBatch.PreviewTitles | utils/excel_parser.py:268-283 | the preview columns, neither internal nor on the stoplist, include one whose title-cased name is `Hoja` exactly when the sheet's insert of `Hoja` raises |
| ExcelBatch.HojaColumnFailsRead | utils/excel_parser.py:270-283 | with the configured tables, a selected sheet with data and a column headed `hoja` makes the whole read fail |
| ExcelBatch.ExcelParser.constructor | utils/excel_parser.py:23-37 | a new parser keeps the selected sheets, with no mapping and no sheets yet |
| ExcelBatch.ExcelParser.ReadFile | utils/excel_parser.py:182-319 | `_read_file` stacks the prepared sheets and sets the merged mapping, the count and the names of the sheets with data; when a sheet raises, it fails with "No se pudo leer el archivo: " and the pandas message, leaving the mapping as it was and the count and names of the whole workbook |
| ExcelBatch.ExcelParser.Parse | utils/excel_parser.py:74-178 | `parse` returns the reference result of the stacked table and updates the sheet attributes, or passes on the error of `_read_file` |
| ExcelBatch.FirstOfKeyIff | utils/excel_parser.py:126-132 | an accepted row is first with its key exactly when it has none or its key is not yet among the seen keys |
| ExcelBatch.DuplicateBacked | utils/excel_parser.py:126-134 | a duplicate's key is non-empty and is the key of a valid row |
| ExcelRow.CellIsFirst | utils/excel_parser.py:534-535 | `row[field]` on a header at most one column bears: a cell is found exactly when some column has the header, and it is that column; a repeated header is `Lookup`'s error case |
| ExcelRow.GetValueSpec | utils/excel_parser.py:534-538 | on a header at most one column bears, `_get_value` gives a non-empty stripped text exactly when the cell is there and not blank |
| ExcelRow.HeaderCountSpec | utils/excel_parser.py:534-535 | the count of columns under a header is 0 exactly when none bears it, and at least 2 exactly when two columns bear it |
| ExcelRow.LookupSpec | utils/excel_parser.py:534-538 | `_get_value` raises pandas' "truth value of a Series is ambiguous" error exactly when two columns bear the header; otherwise it gives nothing when every such column is blank, and else the stripped text of the only such column |
| ExcelRow.DistinctHeadersLookup | utils/excel_parser.py:534-538 | on a row whose headers are distinct `_get_value` never raises |
| ExcelRow.NameFields | utils/excel_parser.py:399-412 | the combined column sets only surname and given names, and sets them exactly when it has text |
| ExcelRow.SplitNameAtComma | utils/excel_parser.py:402-406 | with a comma, the surname is the sanitized text left of the first comma and the given names the sanitized text right of it |
| ExcelRow.SanitizarOfClean | utils/validators.py:197-210 | sanitizing text free of control characters joins its words with single spaces |
| ExcelRow.SanitizarWord | utils/validators.py:197-210 | a single word sanitizes to itself |
| ExcelRow.SplitWordsSpec | utils/excel_parser.py:407-410 | `texto.split(None, 1)` then sanitizing gives the first word and the remaining words single-spaced |
| ExcelRow.SplitNameByWords | utils/excel_parser.py:407-410 | without a comma the first word is the surname and the remaining words, single-spaced, the given names |
| ExcelRow.TextFieldLocal | utils/excel_parser.py:415-425 | a text-field step touches its own key only and reads nothing else of the record |
| ExcelRow.TextFieldsAt | utils/excel_parser.py:415-425 | in the field loop each field is set once, from the record as it was before the loop |
| ExcelRow.TextFieldsKeys | utils/excel_parser.py:415-425 | the field loop adds no key but the text fields |
| ExcelRow.TextFieldsDistinct | utils/excel_parser.py:416-417 | the loop's text fields are listed once each |
| ExcelRow.NamedAt | utils/excel_parser.py:399-425 | after the text steps a text field holds what its own step made of it |
| ExcelRow.NamedKeys | utils/excel_parser.py:399-425 | after the text steps every key is a text field |
| ExcelRow.NamedLacks | utils/excel_parser.py:399-425 | the text steps set no document and no age |
| ExcelRow.TextFieldsAbsent | utils/excel_parser.py:415-425 | a key neither in the record nor among the loop's fields stays out |
| ExcelRow.TextFieldsCheckedSpec | utils/excel_parser.py:415-425 | the field loop, reading each cell with `_get_value`, raises exactly when it reads a field whose header is repeated, and otherwise gives the record of the text steps |
| ExcelRow.TextStageSpec | utils/excel_parser.py:399-425 | the combined column and the field loop raise exactly when the combined column or a field the loop reads has a repeated header, and otherwise give the record of the text steps |
| ExcelRow.NameFieldSource | utils/excel_parser.py:418-425 | a non-empty name from the combined column is not overridden; otherwise the separate column, sanitized, is used when it has text |
| ExcelRow.OtherFieldSource | utils/excel_parser.py:420-425 | the other text fields hold the column's text, sanitized for nationality and origin and stripped otherwise, exactly when it has text |
| ExcelRow.FallbackDni | utils/excel_parser.py:456-466 | the fallback scan yields only 7 or 8 digits |
| ExcelRow.WithFallback | utils/excel_parser.py:456-466 | the fallback scan sets only a DNI of 7 or 8 digits, and changes nothing else |
| ExcelRow.FallbackDniIsFirst | utils/excel_parser.py:458-466 | the scan finds the first column not starting with `_` whose cell, cleaned by `limpiar_dni` as written, is 7 or 8 digits, and finds nothing only when there is none |
| ExcelRow.ClassifyCombinedShape | utils/excel_parser.py:435-443 | in the combined column 7 or 8 digits is a DNI, otherwise 5 to 15 letters and digits an upper-cased passport, otherwise nothing |
| ExcelRow.DocumentsOfShape | utils/excel_parser.py:431-453 | the document step sets a DNI only in DNI shape and a passport only in passport shape, and touches no other key |
| ExcelRow.FloatDniAsWrittenIsPassport | utils/excel_parser.py:436-443 | as written, a DNI from a float cell such as `35123456.0` loses its dot before the `.0` test and becomes the passport `351234560` |
| ExcelRow.FloatDniIsDni | utils/excel_parser.py:436-443 | with the `.0` dropped before the dots are removed, the same cell gives the DNI back |
| ExcelRow.FloatDniAsWrittenGainsZero | utils/excel_parser.py:436-443 | as written, a 7-digit DNI from a float cell in the combined column becomes the wrong 8-digit DNI `d0` |
| ExcelRow.FirstFormat | utils/excel_parser.py:562-566 | the first format that parses yields a valid date |
| ExcelRow.FirstFormatIsFirst | utils/excel_parser.py:562-566 | the date comes from the earliest format that parses, and there is none when no format parses |
| ExcelRow.ParseDateEmpty | utils/excel_parser.py:550-551 | missing or empty text gives no date |
| ExcelRow.ParseDateIso | utils/excel_parser.py:553-566 | `str(d)` parses back to `d` with the first format |
| ExcelRow.StrptimeDayFirst | utils/excel_parser.py:555 | `dd/mm/yyyy` text parses day first with the second format |
| ExcelRow.ParseDateDayFirst | utils/excel_parser.py:553-566 | day first wins: `01/02/2024` is the first of February, never the second of January |
| ExcelRow.InfinityOverflows | utils/excel_parser.py:491 | `int(float("inf"))` raises `OverflowError` |
| ExcelRow.InfiniteEdad | utils/excel_parser.py:488-495 | as written an age cell `inf` rejects the whole row; the corrected step just leaves the age out |
| ExcelRow.OverflowingEdad | utils/excel_parser.py:488-495 | an overflowing age rejects the row as written and is left out by the corrected step |
| ExcelRow.EdadStepsAgree | utils/excel_parser.py:488-495 | the written and corrected age steps agree on every value that is not infinite |
| ExcelRow.WithDocKeeps | utils/excel_parser.py:427-466 | the document steps touch only the two document keys |
| ExcelRow.WithDocShape | utils/excel_parser.py:427-466 | a document in the record has its shape: 7 or 8 digits, or 5 to 15 letters and digits |
| ExcelRow.DefaultsAt | utils/excel_parser.py:480-485 | missing nationality, origin and room get "Argentina", "Sin especificar" and "S/N"; present values are kept |
| ExcelRow.EdadStepAt | utils/excel_parser.py:488-495 | the age step sets nothing but an age strictly between 0 and 150 |
| ExcelRow.DatesStepAt | utils/excel_parser.py:497-511 | the date step always sets the entry date, `today` when the column gives none, and touches only the date keys |
| ExcelRow.VehicleStepAt | utils/excel_parser.py:513-519 | the vehicle text becomes the flag, and the vehicle data exactly when there was text |
| ExcelRow.FinishKeeps | utils/excel_parser.py:479-519 | the steps after the checks keep the names and documents as the checks saw them |
| ExcelRow.FinishFails | utils/excel_parser.py:479-519 | the steps after the checks fail exactly when the age overflows, with the overflow's message; otherwise they are the defaults, age, date and vehicle steps in that order |
| ExcelRow.FinishSpec | utils/excel_parser.py:479-511 | the steps after the checks raise on a repeated age header, then on an overflowing age with the overflow's message, then on a repeated date header; otherwise they give the defaults, age, date and vehicle steps |
| ExcelRow.FinishShape | utils/excel_parser.py:479-519 | after the checks: the three mandatory fields, an entry date, the vehicle flag instead of the text, and an age only strictly between 0 and 150 |
| ExcelRow.DecideOutcome | utils/excel_parser.py:427-477 | the checks in order: no name skips the row; no document reports it when both names are there and skips it otherwise; an empty name rejects it; a row that passes them is accepted with the later steps' record, or rejected with the later steps' own error exactly when it passes them and they fail |
| ExcelRow.ProcessRowOutcome | utils/excel_parser.py:388-538 | as written: a row is rejected with pandas' ambiguity error exactly when `_process_row` reads a repeated header before returning; otherwise it is accepted exactly when it has a document, both names and an age whose `int(float())` does not overflow, rejected with the overflow's message when the age overflows, reported "Sin documento válido" exactly when it has no document but both names, and skipped otherwise |
| ExcelRow.SkipWithoutNames | utils/excel_parser.py:427-429 | a row without any name is not a data row: it is skipped, unless a repeated header in the name or text columns raises first |
| ExcelRow.RepeatedDocumentRejects | utils/excel_parser.py:431-432 | a row with a surname whose DNI or passport header is borne by two columns (`DNI` and `dni` both cleaned to `dni`) is rejected with pandas' ambiguity error |
| ExcelRow.DistinctHeadersReachNothing | utils/excel_parser.py:534-538 | on a row whose headers are distinct no lookup raises, and the text stage gives the record of the text steps |
| ExcelRow.AcceptedIsFinish | utils/excel_parser.py:388-538 | an accepted row has a document and both names, and its record is what the age, date and vehicle steps make of the record with its documents |
| ExcelRow.AcceptedShape | utils/excel_parser.py:388-538 | an accepted record, as written, has a well-shaped document, both names, the three mandatory fields, an entry date, the vehicle flag, and an age only strictly between 0 and 150 |
| ExcelRowMethod.SplitCombinedName | utils/excel_parser.py:399-412 | the combined column's branch raises exactly when its header is repeated, with pandas' message, and otherwise sets exactly the surname and given names `NameFields` describes |
| ExcelRowMethod.TextFieldsLoop | utils/excel_parser.py:415-425 | the loop over the text fields computes the fold of the text steps, stopping at the first lookup that raises |
| ExcelRowMethod.TextFieldStep | utils/excel_parser.py:418-425 | one text field: a name already taken from the combined column is skipped; otherwise the cell is read, which raises on a repeated header, and its text stored |
| ExcelRowMethod.TextFieldsSnoc | utils/excel_parser.py:415-425 | one more field through the loop is one more text step, once the fields before it have passed |
| ExcelRowMethod.CheckedErrPersists | utils/excel_parser.py:415-425 | once a lookup in the loop has raised, the later fields change nothing: the loop ends with that error |
| ExcelRowMethod.DocumentsStep | utils/excel_parser.py:431-453 | the document cells are classified in the combined mode or checked one by one |
| ExcelRowMethod.FallbackScan | utils/excel_parser.py:456-466 | the scan stops at the first cell holding a DNI, as `FallbackDni` says |
| ExcelRowMethod.RequiredCheck | utils/excel_parser.py:475-477 | the loop reports no field exactly when both names are filled, otherwise the first empty one, surname first |
| ExcelRowMethod.FinishSteps | utils/excel_parser.py:479-519 | defaults, age, dates and vehicle, in the source's order; a repeated age header or an overflowing age ends the steps before the dates are read, and a repeated date header before the vehicle step |
| ExcelRowMethod.DefaultsStep | utils/excel_parser.py:480-485 | the defaults for the mandatory fields still missing |
| ExcelRowMethod.EdadAssign | utils/excel_parser.py:488-495 | the age step as written: an overflowing age fails with the overflow's message; otherwise the age is stored only when strictly between 0 and 150 |
| ExcelRowMethod.DatesAssign | utils/excel_parser.py:497-511 | the birth date when it parses, the entry date or `today`, the exit date when it parses |
| ExcelRowMethod.VehiclePop | utils/excel_parser.py:513-519 | `data.pop("vehiculo")` becomes the flag and the vehicle data |
| ExcelRowMethod.ProcessRowMethod | utils/excel_parser.py:388-521 | `_process_row` as written skips, rejects with the source's message (the uncaught `OverflowError` of an `inf` age and pandas' error on a repeated header included, which `parse` reports), or returns the record, exactly as `ProcessRow` says |
| ExcelRowMethod.CheckAndFinish | utils/excel_parser.py:468-521 | once a data row has its names and documents: without a document it is reported when both names are there and skipped otherwise, an empty name rejects it, and the steps after the checks accept it or reject it with their own error, as `Decide` says |
| ExcelSheets.StripAll | utils/excel_parser.py:215 | every selected sheet name, stripped, in order |
| ExcelSheets.ChosenMembers | utils/excel_parser.py:213-222 | a sheet is processed exactly when it is in the workbook and its stripped name was selected |
| ExcelSheets.ChosenOnlySelected | utils/excel_parser.py:216-218 | every processed sheet is a selected sheet of the workbook |
| ExcelSheets.ChosenAllSelected | utils/excel_parser.py:216-218 | every selected sheet of the workbook is processed |
| ExcelSheets.SelectSheetsMembers | utils/excel_parser.py:213-227 | without a selection every sheet is processed; with one, a sheet exactly when its stripped name matches a stripped entry |
| ExcelSheets.CleanHeaders | utils/excel_parser.py:239-242 | each header stripped, lower-cased and with spaces turned into `_` |
| ExcelSheets.DataColumnsMembers | utils/excel_parser.py:256 | the column mapping sees every header not starting with `_`, and no other |
| ExcelSheets.RenameAll | utils/excel_parser.py:285 | a renamed header takes its mapped name, the others stay |
| ExcelSheets.HeaderIndexSpec | utils/excel_parser.py:307-309 | the stacked table's lookup by column name finds the first column of that name, and none only when there is none |
| ExcelSheets.HeaderIndexAt | utils/excel_parser.py:307-309 | in the stacked table, a position holding the name with no earlier one is the one found |
| ExcelSheets.Padded | utils/excel_parser.py:245-250 | a row cut or padded to the width of the header row |
| ExcelSheets.KeptRows | utils/excel_parser.py:245-250 | dropping blank rows keeps at most all rows, each at the width of the header row |
| ExcelSheets.KeptRowsSource | utils/excel_parser.py:245-250 | every kept row is a non-blank row of the sheet, unchanged, at the position it records |
| ExcelSheets.KeptRowsOrdered | utils/excel_parser.py:245-250 | the kept rows stay in sheet order |
| ExcelSheets.KeptRowIndex | utils/excel_parser.py:245-250 | no non-blank row is lost |
| ExcelSheets.FilaNumbersAsWritten | utils/excel_parser.py:291 | as written, `range(2, len(sheet_df) + 2)` numbers the kept rows, not the spreadsheet rows |
| ExcelSheets.FilaNumbers | utils/excel_parser.py:290-291 | as intended, one spreadsheet row number per kept row |
| ExcelSheets.FilaAsWrittenMisnumbers | utils/excel_parser.py:245-291 | as written, a blank first data row makes the guest in spreadsheet row 3 be labelled row 2 |
| ExcelSheets.FilaNumbersLocateRow | utils/excel_parser.py:290-291 | with the intended numbering the number in a row's tag leads back to that very spreadsheet row |
| ExcelSheets.WithValue | utils/excel_parser.py:289-291 | assigning a column keeps the row as wide as the headers |
| ExcelSheets.WithValueLookup | utils/excel_parser.py:289-291 | after `df[name] = v` the column holds `v` and every other column is unchanged |
| ExcelSheets.TagRow | utils/excel_parser.py:289-291 | a tagged row is as wide as the tagged headers |
| ExcelSheets.TagRowLookup | utils/excel_parser.py:289-291 | a tagged row carries its sheet name, its row number, and otherwise the cells it had |
| ExcelSheets.TagRows | utils/excel_parser.py:289-291 | one tagged row per kept row |
| ExcelSheets.PrepareSheetUsed | utils/excel_parser.py:233-252 | a sheet is used exactly when it has a header row and at least one non-blank row |
| ExcelSheets.PrepareSheetMapping | utils/excel_parser.py:256-258 | a used sheet is mapped on its own cleaned headers, without the `_` columns |
| ExcelSheets.TaggedRowOf | utils/excel_parser.py:285-291 | every kept row of a used sheet carries the sheet name and, as written, its place among the kept rows plus two |
| ExcelSheets.TagRowsAt | utils/excel_parser.py:289-291 | with the numbers as written, the `k`-th tagged row carries the sheet name and `k + 2` |
| ExcelSheets.PrepareSheetShape | utils/excel_parser.py:233-292 | a used sheet is its kept rows tagged with the numbers 2, 3, … as written, under its renamed headers and the tag columns |
| ExcelSheets.PreparedRowTags | utils/excel_parser.py:285-291 | every row of a used sheet carries the sheet name and, as written, `k + 2` for its place `k` among the kept rows, its spreadsheet row only when no blank row came before it |
| ExcelSheets.TagHeadersHaveTags | utils/excel_parser.py:289-291 | the tag columns are columns of every prepared sheet |
| ExcelSheets.FramesPrepared | utils/excel_parser.py:233-292 | every prepared sheet comes from a processed sheet |
| ExcelSheets.ColumnMapOfLast | utils/excel_parser.py:258 | `all_mappings.update`: a column is mapped exactly when some sheet mapped it, and the last such sheet's binding wins |
| ExcelSheets.NamesOf | utils/excel_parser.py:300 | `_sheet_names` holds the name of every prepared sheet, in order |
| ExcelSheets.AddHeadersMembers | utils/excel_parser.py:307 | adding headers keeps those already there and takes in the new ones |
| ExcelSheets.UnionHeadersMembers | utils/excel_parser.py:307 | the stacked table has every column of every sheet, and no other |
| ExcelSheets.Aligned | utils/excel_parser.py:307-309 | a sheet row laid out on the stacked table's columns |
| ExcelSheets.AlignedCell | utils/excel_parser.py:307-309 | a laid-out row holds the sheet's own cell, or `""` for a column only other sheets have |
| ExcelSheets.FrameRows | utils/excel_parser.py:307 | one stacked row per row of the sheet |
| ExcelSheets.StackLength | utils/excel_parser.py:307 | the stacked table has one row per kept row of every sheet |
| ExcelSheets.RowTotalPrefix | utils/excel_parser.py:307 | the rows before a sheet are at most all the rows |
| ExcelSheets.StackRowAt | utils/excel_parser.py:307 | row `k` of sheet `i` follows the rows of the sheets before it |
| ExcelSheets.CombinedTags | utils/excel_parser.py:289-309 | every stacked row carries its sheet's name and its row number |
| ExcelSheets.StackedRowTags | utils/excel_parser.py:289-309 | each stacked row comes from a used sheet and carries that sheet's name and, as written, its place among that sheet's kept rows plus two |
| ExcelSheets.ReadFailedMsg | utils/excel_parser.py:317-319 | the read error is "No se pudo leer el archivo: " followed by the message of the exception it wraps |
| ExcelSheets.TitleCaseHoja | utils/excel_parser.py:279-281 | `str.title()` gives `Hoja` exactly for four-letter text whose lower case is `hoja` |
| ExcelSheets.PreviewTitleOfHoja | utils/excel_parser.py:279-281 | the column `hoja` is renamed `Hoja` in the preview copy |
| ExcelSheets.ReadRaisesSnoc | utils/excel_parser.py:233-319 | the sheets up to `n` raise exactly when those before `n` do or sheet `n` does |
| ExcelSheets.HojaHeaderRaises | utils/excel_parser.py:240-283 | a sheet with a non-blank row and a column that cleans to `hoja`, not on the stoplist, raises on the insert of `Hoja` |
| HeaderMapping.ValidColumnsMembers | utils/excel_parser.py:346-353 | a column survives the stoplist pass exactly when it is a file column whose normalised name is not on the stoplist |
| HeaderMapping.ValidColumnsSnoc | utils/excel_parser.py:348-353 | one more column through the stoplist pass |
| HeaderMapping.FirstMatch | utils/excel_parser.py:357-383 | the column a field's pass takes is a file column not mapped yet |
| HeaderMapping.FirstMatchIsFirst | utils/excel_parser.py:357-383 | the column taken is an unmapped matching column with no unmapped match before it; none is taken only when no unmapped column matches |
| HeaderMapping.FirstMatchFoundFrom | utils/excel_parser.py:357-383 | the scan resumed at a column finds the first unmapped match from there on |
| HeaderMapping.FirstMatchNoneFrom | utils/excel_parser.py:357-383 | the scan resumed at a column finds nothing only when no unmapped column from there on matches |
| HeaderMapping.FirstMatchStep | utils/excel_parser.py:357-383 | one column of the scan: it is taken, or the scan goes on with the rest |
| HeaderMapping.ExactTest | utils/excel_parser.py:360-367 | the exact test on the cleaned and the normalised header |
| HeaderMapping.MapFieldsBindings | utils/excel_parser.py:355-383 | the field passes keep earlier bindings, bind only given columns, and bind each new column to a field whose aliases it matches |
| HeaderMapping.FieldsDistinctTail | _rebuild_phase1.py:92-173 | the field names after the first are distinct and do not repeat it |
| HeaderMapping.MapFieldsInjective | utils/excel_parser.py:355-383 | no column is bound twice and no field is bound to two columns |
| HeaderMapping.AutoMapSound | utils/excel_parser.py:321-386 | `_auto_map_columns` is one-to-one, maps only file columns off the stoplist, and maps each to a field whose aliases it matches |
| HeaderMapping.FirstFieldTakesEarliest | utils/excel_parser.py:357-383 | the first field takes the earliest valid column that matches it, so an earlier partial match beats a later exact one |
| HeaderMapping.FirstMatchAt | utils/excel_parser.py:357-383 | the scan returns a matching unmapped column when no unmapped column before it matches |
| HeaderMapping.FirstMatchFrom | utils/excel_parser.py:357-383 | the same, for the scan resumed at any column up to the matching one |
| HeaderMapping.AutoMapColumns | utils/excel_parser.py:321-386 | the loops of `_auto_map_columns` compute `AutoMap` |
| HeaderMapping.MapAllFields | utils/excel_parser.py:355-383 | the field passes, in configuration order |
| HeaderMapping.ValidColumnsOf | utils/excel_parser.py:346-353 | the stoplist loop computes `ValidColumns` |
| HeaderMapping.BindField | utils/excel_parser.py:356-383 | one field's pass binds the first unmapped column that matches exactly or partially, or nothing |
| HeaderMapping.PartialScan | utils/excel_parser.py:369-378 | the partial test over the aliases in order: an alias of at least five characters inside the header, or the header inside it |
| HeaderMapping.ValuesAfterInsert | utils/excel_parser.py:365 | binding a new column adds exactly its field to the bound fields |
| HeaderMapping.FieldNames | _rebuild_phase1.py:92-173 | every field of the configuration is among its names |
| HeaderMapping.FieldNamesSnoc | _rebuild_phase1.py:92-173 | one more field adds its name |
| HeaderMapping.FieldNotEarlier | _rebuild_phase1.py:92-173 | with distinct keys no field repeats an earlier name |
| HeaderNormalize.CleanHeader | utils/excel_parser.py:240 | a cleaned header holds no space |
| HeaderNormalize.NormalizeAll | utils/excel_parser.py:356 | every alias normalised, in order |
| HeaderNormalize.NormalizeShape | utils/excel_parser.py:332-338 | a normalised header is ASCII without dots; removing `°` and `º` never changes anything, because NFKD and the ASCII encoding already did |
| HeaderNormalize.NormalizeNotIdempotentNbsp | utils/excel_parser.py:332-338 | a non-breaking space becomes a space only after the spaces were replaced, so normalising `a b` twice differs from once |
| HeaderNormalize.NormalizeNotIdempotentDot | utils/excel_parser.py:332-338 | a dot is removed after `strip()`, so `a\t.` keeps a trailing tab that a second pass strips |
| HeaderNormalize.CleanHeaderUnchanged | utils/excel_parser.py:240 | text with blank-free ends, no space and no capital is its own cleaned header |
| HeaderNormalize.CleanHeaderPlain | utils/excel_parser.py:240 | with blank-free ends and no capital, cleaning only turns spaces into underscores |
| HeaderNormalize.CleanHeaderOfPlainAscii | utils/excel_parser.py:240 | cleaning plain ASCII leaves nothing for another cleaning or folding to change |
| HeaderNormalize.NormalizeOfSettled | utils/excel_parser.py:332-338 | settled text without dots is its own normal form |
| HeaderNormalize.NormalizeIdempotentOnPlainAscii | utils/excel_parser.py:332-338 | on ASCII headers whose only blank is the space, normalising twice is normalising once |
| ImportConfig.ColumnasMapeoDistinct | _rebuild_phase1.py:92-173 | the alias table names each system field once |
| ImportConfig.ConfiguredMappingSound | utils/excel_parser.py:344-386 | with the configured tables the column mapping is one-to-one and binds only file columns off the stoplist, each to a field whose aliases it matches |
| ImportConfig.HojaNotIgnored | utils/excel_parser.py:263-274 | no configured stoplist entry normalises to `hoja`, so a column of that name stays in the preview copy |
| LegacyMapping.FirstHit | _rebuild_phase2.py:78-88 | the first field with a hit is a position of the configuration, or none |
| LegacyMapping.FirstHitSpec | _rebuild_phase2.py:78-88 | no field before the one found has a hit, and the one found has |
| LegacyMapping.MapColumnIgnored | _rebuild_phase2.py:73-75 | a header that normalises like a stoplist entry resolves to nothing |
| LegacyMapping.MapColumnExactFirst | _rebuild_phase2.py:77-81 | an exact alias wins over every partial one: the header resolves to the first field, in dictionary order, with an alias equal to it |
| LegacyMapping.MapColumnPartialFirst | _rebuild_phase2.py:83-88 | with no exact alias anywhere, the first field with a partial hit is taken |
| LegacyMapping.ResolvePartialFirst | _rebuild_phase2.py:83-88 | the same, on the normalised header |
| LegacyMapping.MapColumnUnmapped | _rebuild_phase2.py:68-92 | a header no alias hits, exactly or partially, resolves to nothing |
| LegacyMapping.EmptyAliasHitsEveryHeader | _rebuild_phase2.py:83-88 | the partial pass has no length limit: an alias that normalises to nothing lies inside every header |
| LegacyMapping.ShortAliasHits | _rebuild_phase2.py:83-88 | a short alias inside the header hits, where the current importer would require five characters |
| LegacyMapping.PutNew | _rebuild_phase2.py:144 | assigning a key not present yet appends it |
| LegacyMapping.GetAppended | _rebuild_phase2.py:144 | after a new key goes last, looking it up gives its value |
| LegacyMapping.GetAppendedOther | _rebuild_phase2.py:144 | appending another key leaves a lookup unchanged |
| LegacyMapping.GetFound | _rebuild_phase2.py:144 | a key that is found is the key of some item |
| LegacyMapping.Resolved | _rebuild_phase2.py:140-142 | one resolved column per column |
| LegacyMapping.DetectOfSnoc | _rebuild_phase2.py:140-146 | one more column is one more step of the loop |
| LegacyMapping.TakenKeyIsNew | _rebuild_phase2.py:143-145 | a column taking an unused field brings a header not mapped yet, so the assignment appends |
| LegacyMapping.StepKeepsDetectInv | _rebuild_phase2.py:140-146 | one column keeps the invariant: every item is a resolved column with its field, the used fields are the values, and no key or value occurs twice |
| LegacyMapping.DetectOfInv | _rebuild_phase2.py:140-146 | the invariant holds after any number of columns |
| LegacyMapping.ResolvedFunctional | _rebuild_phase2.py:141-142 | the same stripped header always resolves to the same field |
| LegacyMapping.DetectSound | _rebuild_phase2.py:134-151 | `detectar_mapeo` is a one-to-one table from stripped headers to the fields they resolve to |
| LegacyMapping.FieldUnused | _rebuild_phase2.py:143-145 | a field none of the first columns resolves to is not used after them |
| LegacyMapping.FirstWinsResolved | _rebuild_phase2.py:143-145 | the first column resolving to a field keeps it, and no other header is mapped to it |
| LegacyMapping.DetectFirstWins | _rebuild_phase2.py:134-151 | the first column resolving to a field keeps it, and later columns resolving to the same field are dropped |
| LegacyMapping.DetectarMapeo | _rebuild_phase2.py:134-151 | the loop builds exactly the table `Detect` describes |
| LegacyMapping.FaltantesSpec | _rebuild_phase2.py:154-172 | nothing is missing exactly when the names, a document and the entry date are mapped; each message appears exactly when its group is missing, in the groups' order |
| LegacyNormalize.DropLeading | _rebuild_phase2.py:52 | `lstrip("_")` leaves a suffix not starting with `_` |
| LegacyNormalize.DropTrailing | _rebuild_phase2.py:52 | `rstrip("_")` leaves a prefix not ending with `_` |
| LegacyNormalize.SubRunsShape | _rebuild_phase2.py:52 | `re.sub(r"[^a-z0-9]+", "_", …)` leaves only `[a-z0-9_]`, never two `_` in a row, and ends in `_` exactly when the text ends in another character |
| LegacyNormalize.SliceNoDouble | _rebuild_phase2.py:52 | a piece of such text has the same shape |
| LegacyNormalize.StripShaped | _rebuild_phase2.py:52 | stripping `_` from both ends of such text leaves the normalised shape |
| LegacyNormalize.SlugIsShaped | _rebuild_phase2.py:44-54 | `_normalize` yields only `[a-z0-9_]`, with no `_` at either end and no `__` |
| LegacyNormalize.SubRunsOfShaped | _rebuild_phase2.py:52 | shaped text passes the substitution unchanged |
| LegacyNormalize.FoldLowerOfShaped | _rebuild_phase2.py:49-52 | folding and lowering leave shaped text unchanged |
| LegacyNormalize.SlugIdempotent | _rebuild_phase2.py:44-54 | `_normalize` is idempotent |
| LegacyNormalize.SlugOfShaped | _rebuild_phase2.py:44-54 | shaped text is its own normalisation |
| LegacyNormalize.SubRunsKeepsSlugChars | _rebuild_phase2.py:52 | the substitution keeps a character of `[a-z0-9]` exactly when the text has one |
| LegacyNormalize.StripKeepsSlugChars | _rebuild_phase2.py:52 | stripping `_` keeps every other character |
| LegacyNormalize.StripKeepsSlugChar | _rebuild_phase2.py:52 | a `[a-z0-9]` character survives the stripping |
| LegacyNormalize.StripTakesSlugChar | _rebuild_phase2.py:52 | a character of the stripped text is a character of the text |
| LegacyNormalize.LeadingKeeps | _rebuild_phase2.py:52 | `lstrip("_")` keeps everything from the first character that is not `_` |
| LegacyNormalize.TrailingKeeps | _rebuild_phase2.py:52 | `rstrip("_")` keeps everything up to the last character that is not `_` |
| LegacyNormalize.SlugEmptyIff | _rebuild_phase2.py:44-54 | the normalised name is empty exactly when the folded, lowered text has no `[a-z0-9]` |
| LegacyNormalize.IsIgnorableSpec | _rebuild_phase2.py:57-65 | a header is ignorable exactly when a stoplist entry normalises to it, or it is empty or all digits |
| LegacyNormalize.PatternHitSpec | _rebuild_phase2.py:58-60 | the stoplist loop hits exactly when some entry normalises to the header |
| LegacyRows.InvertKeys | _rebuild_phase2.py:315 | the inverted mapping has exactly the mapped fields as keys |
| LegacyRows.InvertLastWins | _rebuild_phase2.py:315 | a field is sent to the last column mapped to it |
| LegacyRows.InvertOfDistinct | _rebuild_phase2.py:315 | when no two columns share a field, as `detectar_mapeo` guarantees, every pair is recovered |
| LegacyRows.GetVal | _rebuild_phase2.py:338-345 | `get_val` never returns NaN: a missing column and NaN are both `None` |
| LegacyRows.Optional | _rebuild_phase2.py:393-419 | an optional field is sanitized exactly when its value is truthy; an empty value stays empty and a missing one `None` |
| LegacyRows.AgeAtWholeYears | _rebuild_phase2.py:399-404 | the computed age is the number of whole years: the birthday has come by the reference date and the next one has not |
| LegacyRows.ProcesarFilaCases | _rebuild_phase2.py:336-448 | a combined name that cannot be split raises `IndexError`; otherwise a row is skipped exactly when both names are empty; then the missing-document error, then the missing-entry-date error, then the age error, in that order, or the record |
| LegacyRows.NombresErr | _rebuild_phase2.py:351-360 | the name stage fails exactly when the combined column is mapped and its split raises, and then with the `IndexError`'s text |
| LegacyRows.MessagesDiffer | _rebuild_phase2.py:378-384 | the two row messages differ from each other, from the age error and from the text of the `IndexError` |
| LegacyRows.ParseEdadErr | _rebuild_phase2.py:213-221 | the age parser fails only with the infinity overflow |
| LegacyRows.IsoReadsBack | _rebuild_phase2.py:443 | the stored text of a valid date reads back as that date |
| LegacyRows.RegistroIdentity | _rebuild_phase2.py:348-377 | a record's names are those the name stage gives, not both empty; its documents are those the document stage gives, a DNI or a truthy passport slot, which may be the tuple `(None, None)`; its DNI, when there is one, has 7 or 8 digits |
| LegacyRows.RegistroEntrada | _rebuild_phase2.py:380-384 | a record's entry date text is the `str()` of the parsed entry cell: text that parsed reads back as its date, while a date cell keeps ` 00:00:00`, which `validar_fecha_entrada` would refuse |
| LegacyRows.RegistroDefaults | _rebuild_phase2.py:418-445 | a record's room is never empty, and its vehicle flag says whether vehicle data is there |
| LegacyRows.RegistroEdad | _rebuild_phase2.py:393-404 | an age column strictly between 0 and 150 is kept; without one, a birth date gives the whole years up to the entry date; otherwise there is none |
| LegacyRows.DashDocumentPasses | _rebuild_phase2.py:365-379 | as written, a DNI cell `-` with no passport column leaves the tuple `(None, None)` in the passport slot, which passes the document check |
| LegacyRows.Outcomes | _rebuild_phase2.py:316-319 | one outcome per frame row, numbered by its position plus two |
| LegacyRows.CollectAccounts | _rebuild_phase2.py:316-327 | every outcome is a record, an error or a skip |
| LegacyRows.ProcesarAccounts | _rebuild_phase2.py:299-333 | every row is accounted for once: as a record, as an error, or as skipped |
| LegacyRows.CollectErrors | _rebuild_phase2.py:321-327 | each error names a row by number and carries its cells and message |
| LegacyRows.CollectIncreasing | _rebuild_phase2.py:316-327 | the errors' row numbers increase |
| LegacyRows.ErrorsLocateRows | _rebuild_phase2.py:316-327 | each error names a row of the frame by its position plus two and carries that row's cells and its one message |
| LegacyRows.ErrorsOrdered | _rebuild_phase2.py:316-327 | errors come in increasing row order |
| LegacyRows.CollectReportsFailure | _rebuild_phase2.py:321-327 | an outcome that failed is among the errors |
| LegacyRows.FailedRowReported | _rebuild_phase2.py:321-327 | a row that raises is reported under its own number |
| LegacyRows.CollectRecordSource | _rebuild_phase2.py:319-320 | every collected record is some row's outcome |
| LegacyRows.RecordSource | _rebuild_phase2.py:319-320 | every record comes from a row of the frame that gives it |
| LegacyRows.CollectKeepsRecord | _rebuild_phase2.py:319-320 | every record outcome is collected |
| LegacyRows.RecordKept | _rebuild_phase2.py:319-320 | every record a row gives is returned |
| LegacyRows.RecordsHaveShape | _rebuild_phase2.py:299-333 | every returned record comes from a row of the frame, has a name and a document, and its entry text is the `str()` of that row's parsed entry cell, which reads back as that date when the cell held text |
| LegacyRows.ProcesarDataframe | _rebuild_phase2.py:299-333 | the loop over the frame returns exactly `Procesar`'s records and errors |
| LegacyRead.LeerArchivoErrors | _rebuild_phase2.py:117-121 | the frame is refused exactly when it has no column or no row, with "El archivo Excel está vacío", or more than 10000 rows counted before blank rows go, with the limit's message |
| LegacyRead.LeerArchivoClean | _rebuild_phase2.py:117-126 | a frame read back has no `Unnamed` column, in its header or in any row, and at most 10000 rows; its `i`-th row is a read row with some non-NaN cell, without its unnamed columns, at a position that increases with `i` |
| LegacyRead.LeerArchivoKeepsRows | _rebuild_phase2.py:123-124 | every read row with a cell that is not NaN is returned, without its unnamed columns |
| LegacyRead.KeptLocates | _rebuild_phase2.py:124 | `dropna(how="all")` keeps the rows with some non-NaN cell, in order, each at a recorded position of the read frame |
| LegacyRead.KeepNamed | _rebuild_phase2.py:126 | the header keeps exactly the columns not starting with `Unnamed` |
| LegacyRead.DropUnnamed | _rebuild_phase2.py:126 | a row keeps exactly its cells of columns not starting with `Unnamed`, unchanged |
| LegacyRead.FilaAfterBlankRowMisnumbered | _rebuild_phase2.py:316-317 | as written, after `reset_index(drop=True)` a row below a blank row, spreadsheet row 3, is numbered 2 by `procesar_dataframe` |
| LegacyRead.FilaLeidaLocatesRow | _rebuild_phase2.py:123-124 | numbered from its position before the blank rows went, each returned row points back at the spreadsheet row it came from, and the numbers increase |
| LegacyValidators.RemoveSeparators | _rebuild_phase1.py:694 | removing dots, dashes and spaces leaves none of them, nothing longer, and no new character |
| LegacyValidators.RemoveSeparatorsOfDigits | _rebuild_phase1.py:694 | text made of digits only has no separator to remove |
| LegacyValidators.LimpiarDniAsWritten | _rebuild_phase1.py:690-697 | as written, `limpiar_dni` leaves no dot, dash or space |
| LegacyValidators.DropFloatSuffix | _rebuild_phase1.py:696 | `t[:-2]` drops the last two characters |
| LegacyValidators.LimpiarDniSuffixBranchDead | _rebuild_phase1.py:694-697 | the `.0` branch of `limpiar_dni` can never be taken, since every dot is already gone |
| LegacyValidators.LimpiarDniAsWrittenKeepsZero | _rebuild_phase1.py:690-697 | as written, a number read from a float cell, `35123456.0`, comes out with an extra `0` |
| LegacyValidators.LimpiarDniAsWrittenOfFloatText | _rebuild_phase1.py:690-697 | as written, float-cell text is only stripped of its separators |
| LegacyValidators.LimpiarDniAsWrittenOfTrimmed | _rebuild_phase1.py:690-697 | as written, trimmed text is only stripped of its separators |
| LegacyValidators.RemoveSeparatorsOfFloatText | _rebuild_phase1.py:694 | removing the separators from `d.0` leaves `d0` |
| LegacyValidators.FloatTextTrimmed | _rebuild_phase1.py:694 | float-cell text has no blank at either end |
| LegacyValidators.RemoveSeparatorsAppend | _rebuild_phase1.py:694 | separator removal works piece by piece |
| LegacyValidators.LimpiarDni | _rebuild_phase1.py:690-697 | the corrected cleaning leaves no dot, dash or space and nothing longer |
| LegacyValidators.CleanStripped | _rebuild_phase1.py:694-697 | the cleaning after `strip()` leaves no dot, dash or space and nothing longer |
| LegacyValidators.LimpiarDniOfFloatCell | _rebuild_phase1.py:690-697 | the corrected cleaning gives back the number written in a float cell |
| LegacyValidators.LimpiarDniOfFloatText | _rebuild_phase1.py:690-697 | the corrected cleaning of `d.0` is the cleaning of `d` |
| LegacyValidators.FloatTextSuffix | _rebuild_phase1.py:695 | `d.0` ends in `.0`, and dropping it gives `d` |
| LegacyValidators.LimpiarDniOfTrimmedSuffixed | _rebuild_phase1.py:690-697 | on trimmed text ending in `.0`, the suffix goes before the separators |
| LegacyValidators.LimpiarDniUnfold | _rebuild_phase1.py:690-697 | on trimmed text the cleaning is the part after `strip()` |
| LegacyValidators.LimpiarDniVersionsAgree | _rebuild_phase1.py:690-697 | without the float suffix both versions clean alike |
| LegacyValidators.ValidarDniLegacy | _rebuild_phase1.py:677-687 | blank is accepted; otherwise a DNI is accepted exactly when its text cleaned by `limpiar_dni` as written is 7 or 8 digits, optionally followed by one newline, which `$` lets through; the message on rejection |
| LegacyValidators.ValidarDniLegacyAcceptsNewline | _rebuild_phase1.py:677-687 | a 7- or 8-digit DNI followed by a newline and a dot is accepted by the earlier validator and refused by the current one |
| LegacyValidators.LimpiarDniOfNewline | _rebuild_phase1.py:690-697 | cleaning a DNI followed by a newline and a dot keeps the newline and drops the dot |
| LegacyValidators.ValidarDniLegacyAcceptsDotted | _rebuild_phase1.py:678-687 | a DNI written with thousands dots, `35.123.456`, is accepted |
| LegacyValidators.ValidarDniLegacyOfFloatText | _rebuild_phase1.py:678-697 | as written, a DNI from a float cell `d.0` is accepted exactly when `d` has 6 or 7 digits, since the `0` of the suffix stays |
| LegacyValidators.LimpiarDniOfDotted | _rebuild_phase1.py:690-697 | cleaning dotted digits joins the digit groups |
| LegacyValidators.DottedTrimmed | _rebuild_phase1.py:690-697 | dotted digits need no stripping and do not end in `.0` |
| LegacyValidators.LimpiarDniNoSuffix | _rebuild_phase1.py:690-697 | trimmed text without the suffix is only stripped of its separators |
| LegacyValidators.DottedSeparators | _rebuild_phase1.py:694 | removing the dots of dotted digits joins the groups |
| LegacyValidators.ValidarDniLegacyWeaker | _rebuild_phase1.py:678-687 | the earlier validator accepts every DNI the current one accepts |
| LegacyValidators.AgeFitsStr | _rebuild_phase1.py:759 | an age in 0..150 always has a decimal text |
| LegacyValidators.ValidarEdadLegacy | _rebuild_phase1.py:754-763 | `None` and blank text are accepted; an integer of more than 4300 digits, whose `str()` raises `ValueError`, is rejected as not an integer; any other integer is accepted exactly when in 0..150, and raises when its magnitude reaches `2^1024 - 2^970`, where `float(str(n))` is infinite; text is read with `int(float(...))`, a `ValueError` becomes a rejection and an infinite value raises |
| LegacyValidators.EdadInRangeLegacy | _rebuild_phase1.py:761-763 | accepted exactly in 0..150, with the message otherwise |
| LegacyValidators.ValidarEdadLegacyWeaker | _rebuild_phase1.py:754-763 | every age the current validator accepts, the earlier one accepts too |
| LegacyValidators.ValidarEdadLegacyTruncates | _rebuild_phase1.py:754-763 | text such as `30.9` that the current validator rejects is accepted here, truncated to 30 |
| LegacyValidators.ValidarEdadLegacyOfValue | _rebuild_phase1.py:754-763 | text read as an in-range number is accepted |
| LegacyValidators.FractionText | _rebuild_phase1.py:758 | the facts about `ip.fp` the number parsers look at |
| LegacyValidators.PyIntOfFraction | _rebuild_phase1.py:758 | `int()` refuses text with a fraction |
| LegacyValidators.PyIntOfFloatOfFraction | _rebuild_phase1.py:758 | `int(float("ip.fp"))` is the integer part |
| LegacyValidators.DecimalTruncOfFraction | _rebuild_phase1.py:758 | truncating `ip.fp` gives the integer part |
| LegacyValidators.FractionValue | _rebuild_phase1.py:758 | the truncated value of digits with a fraction is the integer part |
| LegacyValidators.TruncValueOfDigits | _rebuild_phase1.py:758 | the same, from the digit values |
| LegacyValidators.DecimalTruncOfPoint | _rebuild_phase1.py:758 | truncating a literal with a point and no exponent |
| LegacyValidators.IndexOfAfterDot | _rebuild_phase1.py:758 | the point of `ip.fp` sits after the integer part |
| LegacyValidators.FractionTruncates | _rebuild_phase1.py:758 | dropping `k` digits from `ipv` followed by a `k`-digit fraction leaves `ipv` |
| LegacyValidators.SkippableMigrationErrorIff | _rebuild_phase1.py:280-297 | a migration error is skipped exactly when its text says "already exists" or "duplicate column"; the column-name marker adds nothing |
| LegacyValues.ParseDateText | _rebuild_phase2.py:187-210 | text gives only valid dates, none for empty text and the null words |
| LegacyValues.ParseDateLegacy | _rebuild_phase2.py:178-210 | corrected `_parse_date`, with a date cell turned into its date, gives only valid dates |
| LegacyValues.ParseDateVersionsAgree | _rebuild_phase2.py:180-186 | the written and corrected date parsers agree on every cell that is not a date cell |
| LegacyValues.ParseDateOfDigitEnds | _rebuild_phase2.py:187-207 | text with digits at both ends is read by the format search alone |
| LegacyValues.StrptimeWithoutSep | _rebuild_phase2.py:203-205 | no format whose separator is missing from the text parses it |
| LegacyValues.DayFieldTooLong | _rebuild_phase2.py:193-199 | day first fails when the first field has four characters |
| LegacyValues.MonthFieldNoMonth | _rebuild_phase2.py:193-199 | day first fails when the middle field is no month |
| LegacyValues.ShortYearTooLong | _rebuild_phase2.py:196-199 | a two-digit year fails on a four-character last field |
| LegacyValues.YearFieldShort | _rebuild_phase2.py:195 | year first fails when the first field has two characters |
| LegacyValues.DayFieldLong | _rebuild_phase2.py:195 | year first fails when the last field is longer than a day |
| LegacyValues.IsoShape | _rebuild_phase2.py:443 | `str(d)` has its three fields around `-`, no other separator, digits at both ends |
| LegacyValues.JoinedDigits | _rebuild_phase2.py:192-201 | digits joined by a separator have digits at both ends and no other separator |
| LegacyValues.IsoSearch | _rebuild_phase2.py:192-207 | text both day-first formats fail on and the ISO format reads is read by the third format |
| LegacyValues.ParseDateLegacyIso | _rebuild_phase2.py:178-210 | `str(d)` reads back as `d`: the two day-first formats before it fail |
| LegacyValues.ParseDateLegacyDayFirst | _rebuild_phase2.py:178-210 | `dd/mm/yyyy` reads day first with the first format |
| LegacyValues.SlashedMonthFirstShape | _rebuild_phase2.py:201 | `mm/dd/yyyy` has its three fields around `/`, no other separator, digits at both ends |
| LegacyValues.NoMonth | _rebuild_phase2.py:193-200 | two digits from 13 to 31 are no month |
| LegacyValues.StrptimeMonthFirst | _rebuild_phase2.py:201 | month first on `mm/dd/yyyy` gives the date |
| LegacyValues.MonthFirstSearch | _rebuild_phase2.py:192-207 | text every format but the last fails on, and the last reads, is read month first |
| LegacyValues.MonthFirstFailsBefore | _rebuild_phase2.py:192-207 | on `mm/dd/yyyy` text whose day exceeds 12 every format but the last fails |
| LegacyValues.ParseDateLegacyMonthFirst | _rebuild_phase2.py:178-210 | the US order is the last resort: `mm/dd/yyyy` with a day above 12 is read month first |
| LegacyValues.StampTextUnreadable | utils/validators.py:153-164 | the text of a `Timestamp` at midnight is trimmed and no ISO date |
| LegacyValues.UnreadableEntry | utils/validators.py:153-164 | trimmed text that is no ISO date is refused by `validar_fecha_entrada` as badly formatted |
| LegacyValues.StampAsWrittenKeepsClock | _rebuild_phase2.py:182-183 | as written, a date cell comes back as a `Timestamp`, so the record's entry text carries ` 00:00:00`, which `validar_fecha_entrada` would refuse |
| LegacyValues.StampTextRejected | utils/validators.py:153-164 | the text of a `Timestamp` at midnight is refused by `validar_fecha_entrada` |
| LegacyValues.StampIsDate | _rebuild_phase2.py:182-185 | with `.date()` taken, a date cell gives the date, whose text `validar_fecha_entrada` reads back |
| LegacyValues.IsoTrimmed | _rebuild_phase2.py:443 | `str(d)` has no blank at either end |
| LegacyValues.ParseEdad | _rebuild_phase2.py:213-221 | an age is kept only strictly between 0 and 150 |
| LegacyValues.ParseEdadOfNumber | _rebuild_phase2.py:213-221 | a whole number is the age from 1 to 149, and no age otherwise |
| LegacyValues.ParseEdadOfValue | _rebuild_phase2.py:213-221 | text read as `n` gives `n` when it is a plausible age, and nothing otherwise |
| LegacyValues.ParseEdadOfOverflow | _rebuild_phase2.py:213-221 | text whose `int(float(...))` overflows raises the overflow |
| LegacyValues.ParseEdadInfinite | _rebuild_phase2.py:213-221 | an infinite age is an error, not a missing age |
| LegacyValues.ClassifyDocumento | _rebuild_phase2.py:240-257 | at most one document; a DNI is 7 or 8 digits; a passport is the upper-cased non-empty text |
| LegacyValues.ClassifyDocumentoTable | _rebuild_phase2.py:240-257 | digit strings of 1-4 give nothing, 5-6 a passport, 7-8 a DNI, 9-15 a passport, 16 or more a DNI of their first 8 digits; other non-empty text is a passport |
| LegacyValues.ClassifyVersionsAgree | _rebuild_phase2.py:240-257 | the written and corrected classifications differ only on empty cleaned text |
| LegacyValues.ParseDocumentoShape | _rebuild_phase2.py:224-257 | corrected, a cell giving a DNI gives 7 or 8 digits and no passport; a passport is upper-case text |
| LegacyValues.ParseDocumentoAsWrittenShape | _rebuild_phase2.py:224-257 | as written, a cell giving a DNI gives 7 or 8 digits and an empty passport slot; a passport text is the upper-cased cleaned text and never empty |
| LegacyValues.ToUpperDigits | _rebuild_phase2.py:252 | upper-casing digits changes nothing |
| LegacyValues.ParseDocumentoOfText | _rebuild_phase2.py:231-238 | a cell whose stripped text is no null word is classified on its cleaned text |
| LegacyValues.ParseDocumentoAsWrittenOfText | _rebuild_phase2.py:231-238 | the same, as written |
| LegacyValues.FloatTextNotNull | _rebuild_phase2.py:231-233 | float-cell digits are no null word |
| LegacyValues.DigitStartNotNull | _rebuild_phase2.py:232-233 | text starting with a digit is no null word |
| LegacyValues.ClassifyNineDigits | _rebuild_phase2.py:247-248 | as written, nine digits are a passport |
| LegacyValues.FloatDniAsWrittenIsPassport | _rebuild_phase2.py:235-248 | as written, an 8-digit DNI from a float cell, `35123456.0`, comes out as the passport `351234560` |
| LegacyValues.FloatShortDniAsWrittenIsWrongDni | _rebuild_phase2.py:235-245 | as written, a 7-digit DNI from a float cell becomes the wrong 8-digit DNI `d0` |
| LegacyValues.FloatTextAsWritten | _rebuild_phase2.py:235-240 | as written, float-cell digits are classified with the `0` of the suffix kept |
| LegacyValues.ZeroAppended | _rebuild_phase2.py:235 | digits with a `0` appended are digits, one longer |
| LegacyValues.FloatDniIsDni | _rebuild_phase2.py:235-245 | with the suffix dropped first, a DNI from a float cell is that DNI |
| LegacyValues.DashCell | _rebuild_phase2.py:231-235 | the cell `-` is no null word and cleans to nothing |
| LegacyValues.SeparatorsAsWrittenPassCheck | _rebuild_phase2.py:257 | as written, a cell that cleans to nothing leaves the true tuple `(None, None)` in the passport slot, so the row passes the document check |
| LegacyValues.SeparatorsGiveNothing | _rebuild_phase2.py:257 | corrected, such a cell gives no document |
| LegacyValues.DashCellPassesAsWritten | _rebuild_phase2.py:257 | the cell `-` passes the document check as written and gives no document corrected |
| LegacyValues.SurnameAndGivenByLast | _rebuild_phase2.py:288-293 | with two words or more, surname, a space and given name join back to all the words, and the given name is the last word |
| LegacyValues.JoinSnoc | _rebuild_phase2.py:292 | the last word is appended after a space to the join of the rest |
| LegacyValues.SanitizedWords | utils/validators.py:197-210 | control-free text sanitizes, as written, to the join by single spaces of its own words |
| LegacyValues.SplitNameByLastWord | _rebuild_phase2.py:281-293 | without a comma and with two words or more, surname, a space and given name are the text, and the given name is its last word |
| LegacyValues.SplitNameGivenIsWord | _rebuild_phase2.py:281-293 | in that case the given name is a single word |
| LegacyValues.SplitApellidoNombreOneWord | _rebuild_phase2.py:284-285 | a single control-free word is the surname, with no given name |
| LegacyValues.SplitApellidoNombreAtComma | _rebuild_phase2.py:273-278 | with a comma, the stripped text on its left is the surname and on its right the given name |
| LegacyValues.SplitApellidoNombreEmpty | _rebuild_phase2.py:267-271 | a missing cell or one that sanitizes to nothing gives two empty names |
| LegacyValues.SplitOfControlsRaises | _rebuild_phase2.py:260-292 | as written, two non-blank control characters around a space sanitize to a lone space, which has no words, so `palabras[-1]` raises `IndexError` |
| LegacyValues.SplitOfCorrectedNeverRaises | _rebuild_phase2.py:260-292 | on text from the corrected sanitizer the split never raises |
| Persona.ValidarFormatoDni | models/persona.py:43-51 | blank gives no DNI, and only blank does; any DNI kept is 7 or 8 digits after `limpiar_dni` as written |
| Persona.ValidarFormatoPasaporte | models/persona.py:53-61 | blank gives no passport, and only blank does; any passport kept is 5 to 15 letters or digits |
| Persona.ResultErrors | models/persona.py:43-61 | a field whose validator may raise reports an error exactly when it raises |
| Persona.OptDocErrors | models/persona.py:26-27 | a document field passes exactly when its raw text is within its length limit and its validator does not raise |
| Persona.PersonaSchema | models/persona.py:19-61 | accepted exactly when every field meets its length limit and its validator and a non-blank DNI or passport is given; otherwise rejected with the field errors, or with the no-document error when only that fails; an accepted person has the four text fields sanitized, the DNI cleaned and the passport upper-cased when given (blank ones dropped), the other fields as given, a DNI of 7 or 8 digits, a passport of 5 to 15 letters or digits, and names without control characters, also single-spaced and trimmed when the given names had none |
| Persona.PersonaFieldErrors | models/persona.py:22-30 | no field error exactly when every length limit and document validator passes, and then both document validators have accepted |
| Persona.PersonaNeedsDocument | models/persona.py:32-36 | a person with neither document, blank ones included, is rejected |
| Persona.DottedDniRejected | models/persona.py:26 | the 8-character limit applies to the raw `dni`, so `35.123.456`, which `limpiar_dni` would clean to a valid DNI, is rejected |
| Persona.PlainDniAccepted | models/persona.py:19-61 | a plain 7-8 digit DNI with valid other fields is accepted and kept as typed |
| Persona.LimpiarDniOfDigits | _rebuild_phase1.py:690-697 | `limpiar_dni` as written leaves a 7-8 digit DNI as it is |
| Persona.SanitizedCleanWhenNoControl | utils/validators.py:197-210 | control-free text sanitizes, as written, to single-spaced text with no blank at either end |
| Persona.Actualizar | models/persona.py:125-150 | the statement sent is the whitelist update of `datos` with the birth date stringified and the id last |
| Persona.PersonaColumnsWithoutMarks | models/persona.py:127-130 | no whitelisted column name holds a `?` |
| Persona.ActualizarSpec | models/persona.py:125-150 | nothing is sent exactly when no whitelisted key is present; otherwise the statement has one `?` per parameter |
| Usuario.ValidarRol | models/usuario.py:31-37 | a role is accepted exactly when it is one of the configured roles, and kept as given |
| Usuario.ValidarUsername | models/usuario.py:39-43 | the username is stripped and lower-cased, never longer |
| Usuario.RolErrors | models/usuario.py:28-37 | the role reports an error exactly when it is unknown |
| Usuario.UsuarioSchemaAcceptsIff | models/usuario.py:22-43 | accepted exactly when the raw username has 3-50 characters, the hash is non-empty, the full name has 2-200 characters and the role is known; the kept username is stripped and lower-cased |
| Usuario.UsernameCheckedBeforeStrip | models/usuario.py:25-43 | the length limit is checked before stripping, so a two-letter name with a trailing blank is kept as a two-letter username |
| Usuario.StripTrailingBlank | models/usuario.py:43 | stripping trimmed text with one blank appended gives the text back |
| Usuario.ValidarUsernameIdempotent | models/usuario.py:39-43 | normalising a username twice changes nothing more |
| Usuario.LowerKeepsTrimmed | models/usuario.py:43 | lower-casing trimmed text keeps it trimmed |
| Usuario.LowerKeepsSpace | models/usuario.py:43 | lower-casing keeps blanks blank and nothing else |
| Usuario.LowerIdempotent | models/usuario.py:43 | lower-casing twice is lower-casing once |
| Usuario.ActualizarUsuarioSpec | models/usuario.py:216-258 | nothing is sent exactly when every argument is `None`; otherwise the statement has one `?` per parameter and `user_id` is the last parameter |
| Usuario.GivenArgsKeys | models/usuario.py:236-247 | a column is set exactly when its argument is not `None` |
| Usuario.ColumnsWithoutMarks | models/usuario.py:236-247 | no column name it sets holds a `?` |
| Schema.LengthErrors | models/persona.py:22-25 | a string field passes exactly when its length is within its limits, with one error at most |
| Schema.MinLengthErrors | models/usuario.py:26 | a string field passes exactly when it is at least the minimum length |
| Schema.OptLengthErrors | models/persona.py:26-30 | an optional string passes when missing, or when within its maximum length |
| Sql.MarksAppend | models/persona.py:137-146 | the `?` marks of joined text add up |
| Sql.NoMarks | models/persona.py:146 | text without `?` has no marks |
| Sql.TotalMarksAppend | models/persona.py:137-146 | the marks of one more piece add to the total |
| Sql.MarksJoin | models/persona.py:146 | joining with `, ` adds no marks |
| Sql.Assignment | models/persona.py:140 | `campo = ?` has one mark when the column name has none |
| Sql.KeyWhereMarks | models/persona.py:146 | the WHERE clause holds the one mark of the row key |
| Sql.UpdateMarks | models/persona.py:146 | the UPDATE text has one mark per parameter when each assignment has one and the WHERE clause the key's |
| Sql.Selected | models/persona.py:135-138 | the columns set are exactly the whitelisted keys present in `datos`, no more of them than the whitelist |
| Sql.SelectedInOrder | models/persona.py:135-138 | the columns set keep the whitelist order |
| Sql.SubsequenceDrop | models/persona.py:135-138 | dropping the last entry of an ordered selection keeps it ordered |
| Sql.SubsequenceWeaken | models/persona.py:135-138 | an ordered selection stays one when the whitelist grows |
| Sql.Assignments | models/persona.py:140-141 | the `i`-th assignment is that of the `i`-th column |
| Sql.Values | models/persona.py:137-142 | the `i`-th parameter is the converted value of the `i`-th column |
| Sql.WhitelistUpdate | models/persona.py:135-146 | nothing is sent exactly when no whitelisted key is present; otherwise one parameter per assignment, then the row key |
| Sql.BuildUpdate | models/persona.py:135-146 | the loop builds exactly the whitelist update |
| Sql.BuildStep | models/persona.py:135-142 | one loop step appends the assignment and value of the key when it is present, and nothing otherwise |
| Sql.AppendColumn | models/persona.py:140-142 | appending a column appends its assignment and its converted value |
| Sql.TotalMarksOfAssignments | models/persona.py:140 | assignments for mark-free columns hold one mark each |
| Sql.WhitelistUpdateMarks | models/persona.py:135-150 | with mark-free column names, the statement has exactly one `?` per parameter |
| Sql.WhitelistUpdateAligned | models/persona.py:135-146 | the `i`-th assignment names a whitelisted key present in `datos`, the `i`-th parameter is its converted value, and the keys keep whitelist order |
| Exceptions.ScahBaseError | utils/exceptions.py:8-14 | the base error keeps its message and code |
| Exceptions.Simple | utils/exceptions.py:20-146 | a class built from a message alone keeps that message and its kind |
| Exceptions.AccountLockedError | utils/exceptions.py:61-69 | keeps the minutes; without minutes left the message is kept |
| Exceptions.ValidationError | utils/exceptions.py:91-98 | keeps the field; without a field the message is kept |
| Exceptions.DuplicateRecordError | utils/exceptions.py:101-106 | keeps the field |
| Exceptions.MissingColumnsError | utils/exceptions.py:127-136 | keeps the missing columns; without any the message is kept |
| Exceptions.CodeIsOwnClass | utils/exceptions.py:20-146 | every constructor leaves the code of the class it builds, not its parent's |
| Exceptions.CodesDistinct | utils/exceptions.py:20-146 | different classes have different codes |
| Exceptions.DuplicateKeepsMessage | utils/exceptions.py:91-106 | a duplicate-record error reads like the validation error for the same field and message, is one, and differs only in its code |
| Exceptions.ValidationNamesField | utils/exceptions.py:94-98 | a non-empty field is named in front of the message |
| Exceptions.MissingColumnsNamed | utils/exceptions.py:130-136 | every missing column is named in the message |
| Exceptions.JoinContains | utils/exceptions.py:133 | each part occurs in the `, ` join of the parts |
| Exceptions.LockedNamesMinutes | utils/exceptions.py:64-69 | with minutes left the message names them, whatever message was passed |
| Validators.ValidarDni | utils/validators.py:23-37 | blank is accepted; otherwise accepted exactly when the stripped text is 7 or 8 digits, with the message on rejection |
| Validators.ValidarPasaporte | utils/validators.py:40-54 | blank is accepted; otherwise accepted exactly when the stripped text is 5 to 15 letters or digits, with the message on rejection |
| Validators.ValidarDniOPasaporte | utils/validators.py:57-85 | two blank documents are rejected with their message; otherwise the result is accepted, and its message joins the errors of the documents given, DNI first |
| Validators.ValidarTelefono | utils/validators.py:88-101 | blank is accepted; otherwise accepted exactly when the stripped text is 6 to 20 of `+ - ( )`, digits and blanks |
| Validators.ValidarNombre | utils/validators.py:104-121 | blank is refused as missing, one character as too short; accepted exactly when the stripped text matches the name pattern |
| Validators.ValidarEdad | utils/validators.py:124-141 | a missing or blank age is accepted; text `int()` refuses, including more than 4300 digits, is rejected as not an integer; an integer is accepted exactly when in 1..149; accepted exactly when the message is empty |
| Validators.EdadInRange | utils/validators.py:139-141 | accepted exactly in 1..149, with the message otherwise |
| Validators.ReadDate | utils/validators.py:155-159 | text is read as `%Y-%m-%d` after stripping |
| Validators.ValidarFechaEntrada | utils/validators.py:144-164 | a missing date is refused as missing, unreadable text as badly formatted; accepted exactly when readable and not after today |
| Validators.ValidarFechaSalida | utils/validators.py:167-194 | a missing exit is accepted; unreadable dates are refused as badly formatted; accepted exactly when the message is empty |
| Validators.SameDayExitAccepted | utils/validators.py:189-192 | leaving the day of entry is accepted |
| Validators.SanitizarTextoAsWritten | utils/validators.py:197-210 | as written, the result has no control character |
| Validators.JoinWordsClean | utils/validators.py:208 | clean words joined by single spaces hold no control character and no blank but the spaces |
| Validators.WordsAllClean | utils/validators.py:208 | the words of control-free text are clean words |
| Validators.StripNoControl | utils/validators.py:208 | stripping keeps text control-free |
| Validators.SanitizarTextoClean | utils/validators.py:197-210 | corrected, the result has no control character, single spaces and no blank at either end |
| Validators.SanitizarTextoIdempotent | utils/validators.py:197-210 | corrected (the written steps, then blanks collapsed once more), sanitizing again changes nothing; the version as written is not idempotent |
| Validators.SanitizarVersionsAgree | utils/validators.py:197-210 | on text without control characters both versions agree |
| Validators.RemoveLoneControl | utils/validators.py:209 | removing a control character between two blanks leaves both blanks |
| Validators.SanitizarAsWrittenDoubleSpace | utils/validators.py:208-209 | as written, `a \x00 b` becomes `a  b`, which is not single-spaced |
| Validators.SanitizarFixesDoubleSpace | utils/validators.py:208-209 | corrected, `a \x00 b` becomes `a b` |
| Validators.SanitizarAsWrittenOfNoControl | utils/validators.py:197-210 | as written, control-free text gives its words joined by single spaces |
| Validators.SanitizarBlankControl | utils/validators.py:208-209 | a tab or line break between two words becomes one space, in both versions |
| PyNum.GroupOfDigits | utils/validators.py:136 | plain digits are a digit group of the same value |
| PyNum.Sign | utils/validators.py:136 | removing the sign never lengthens the text |
| PyNum.PyInt | utils/validators.py:136 | `int()` accepts no blank text and no text of more than 4300 digits |
| PyNum.StrTooLongIff | _rebuild_phase1.py:759 | `str(n)` raises exactly when the magnitude of `n` reaches `10^4300` |
| PyNum.ShiftUp | _rebuild_phase1.py:758 | shifting left by decimal digits never decreases |
| PyNum.ShiftDown | _rebuild_phase1.py:758 | dropping decimal digits never increases |
| PyNum.SpecialWords | _rebuild_phase1.py:758 | the infinity and NaN spellings are exactly `inf`, `infinity` and `nan` |
| PyNum.PyIntOfFloat | _rebuild_phase1.py:758 | `int(float())` accepts no blank text |
| PyNum.ToLowerDigits | _rebuild_phase1.py:758 | a digit group has no letter to lower-case, no `e` and no point |
| PyNum.DecimalTruncOfGroup | _rebuild_phase1.py:758 | a digit group read as a decimal is its value |
| PyNum.IntOfFloatAgrees | _rebuild_phase1.py:758 | where `int()` accepts the text and its value lies strictly inside the float range, `int(float())` gives the same number |
| PyNum.PyIntOfGroup | utils/validators.py:136 | `int()` accepts the text exactly when it is a signed digit group of at most 4300 digits, and reads it with its sign |
| PyNum.PyIntOfFloatOfDecimal | _rebuild_phase1.py:758 | `int(float())` of a decimal below the overflow bound `2^1024 - 2^970` is its truncated value, with its sign |
| PyNum.HugeDecimalOverflows | _rebuild_phase1.py:758 | a decimal of at least `2^1024 - 2^970`, which `float()` rounds to infinity, makes `int()` raise `OverflowError` |
| PyNum.NotSpecialWord | _rebuild_phase1.py:758 | text starting with a digit is no infinity or NaN and has no sign |
| PyNum.PyIntOfNatToString | utils/validators.py:136 | `int(str(n))` is `n` below `10^4300` and raises from there |
| PyNum.PyIntOfFloatOfNatToString | _rebuild_phase1.py:758 | `int(float(str(n)))` is `n` below `2^1024 - 2^970` and raises `OverflowError` from there |
| PyNum.PyIntOfPlainGroup | utils/validators.py:136 | `int()` reads a plain digit group of at most 4300 digits as its value, and refuses a longer one |
| Text.StripLeft | utils/validators.py:208 | `lstrip()` returns a suffix that does not start with a blank |
| Text.StripLeftBlanks | utils/validators.py:208 | what `lstrip()` drops is blank |
| Text.StripRight | utils/validators.py:208 | `rstrip()` returns a prefix that does not end with a blank |
| Text.StripRightBlanks | utils/validators.py:208 | what `rstrip()` drops is blank |
| Text.StripSpec | utils/validators.py:208 | `strip()` returns an infix with no blank at either end, empty exactly for blank text |
| Text.StripOfTrimmed | utils/validators.py:208 | `strip()` leaves trimmed text unchanged |
| Text.StripIdempotent | utils/validators.py:208 | stripping twice is stripping once |
| Text.WordsAreWords | utils/validators.py:208 | every piece `split()` yields is non-empty and blank-free |
| Text.WordsEmptyIffBlank | utils/validators.py:208 | `split()` yields nothing exactly for blank text |
| CharMaps.RemoveChar | _rebuild_phase1.py:694 | `replace(c, "")` leaves no `c`, nothing longer and no new character, and changes nothing without a `c` |
| CharMaps.RemoveControls | utils/validators.py:209 | the control-character substitution leaves none, nothing longer, and changes nothing without one |
| CharMaps.RemoveControlsAppend | utils/validators.py:209 | the substitution works piece by piece |
| CharMaps.Fold | utils/excel_parser.py:335-336 | NFKD followed by dropping non-ASCII leaves ASCII only |
| CharMaps.FoldAppend | utils/excel_parser.py:335-336 | folding works piece by piece |
| CharMaps.FoldAscii | utils/excel_parser.py:335-336 | folding leaves ASCII text untouched |
| Numerals.NatToStringRoundTrip | _rebuild_phase2.py:215 | reading back `str(n)` gives `n` |
| Numerals.DigitsValueBound | _rebuild_phase2.py:215 | `k` digits stand for less than `10^k` |
| Numerals.NatToStringLength | _rebuild_phase1.py:759 | `str(n)` has at most `k` digits exactly when `n < 10^k` |
| Text.SplitFirstWordSpec | utils/excel_parser.py:410 | `split(None, 1)` gives nothing exactly for blank text; its first part is the first word, and the rest splits into exactly the remaining words |
| Text.WordsOfJoin | utils/validators.py:208 | splitting words joined by single spaces gives the words back: `split()` undoes `" ".join` |
| Text.JoinWordsSingleSpaced | utils/validators.py:208 | words joined by `" "` never hold two spaces in a row |

## Left out

- Workbook reading: `pd.read_excel`, `openpyxl` and `xlrd` in `list_sheets` and `_read_file` are file I/O and foreign libraries. A workbook is given as a list of sheets, each with a name, a header row and rows of cell text.
- `preview_archivo` and `list_sheets` only read files and wrap the parser, so they are not modelled. In `leer_archivo`, the existence and extension checks and `pd.read_excel` are file I/O and are not modelled. What it does with the frame it read is modelled in `LegacyRead`.
- The `raw_preview` sample in `ExcelParser.parse` (`utils/excel_parser.py:139-161`) and the title-cased copies of `_raw_frames` it is built from (`utils/excel_parser.py:260-284`) are pandas plumbing and are not modelled. Only the one way building a copy can fail is: the insert of a `Hoja` column that already exists, which fails the whole read. The other counts of the result are modelled. `str.title()` is modelled over ASCII and Latin-1 letters.
- Cells are given by their text. The current importer reads every sheet with `dtype=str`, so a numeric cell arrives as pandas' text of it: an integral number is `35123456`, and `35123456.0` comes only from a text cell holding it. The earlier importer reads without `dtype`, and a numeric cell is the text `str()` makes of its float, such as `35123456.0`; pandas' type inference itself is not modelled. A date cell is a separate case only for the earlier importer, whose `_parse_date` tests the type. Python truthiness of a numeric cell, where `0` is false, is not modelled: the text of a number is never empty, so it is true.
- The `pd.to_datetime` fallback of `_parse_date` (`utils/excel_parser.py:569-572`) is a function parameter `toDatetime`, about which nothing is assumed.
- Clocks are parameters: `date.today()` is `today`, and `datetime.now()` is `now`, in whole seconds. The `date.today()` of `_rebuild_phase2.py:400` is never reached, because a row without an entry date has already raised.
- bcrypt's `hashpw` and `checkpw` are foreign cryptography, passed in as functions. `hashpw` gives no value where bcrypt raises, which `hash_password` turns into its `RuntimeError`. `verify_password` turns an exception of `checkpw` into `False`, so the parameter returns a plain boolean.
- `unicodedata.normalize("NFKD", …)` followed by `encode("ascii", "ignore")` is a table over Latin-1 (U+00A0 to U+00FF). Characters above U+00FF are dropped by the folding rather than decomposed.
- `isdigit`, `isalnum`, `isupper` and `islower` are modelled over ASCII. `lower()` covers ASCII and Latin-1 capitals, `upper()` ASCII. `isspace` is Python's full set.
- `float()` is modelled by exact decimal truncation below `2^1024 - 2^970`. From that bound up it gives infinity, and `int()` raises `OverflowError`, as the model says. Binary rounding of literals with more than 15 significant digits is not modelled.
- SQL execution, transactions, `rowcount` and the rows a query returns are not modelled. Only the statement text and the parameter lists are, as the DAO builders hand them over. The same holds for `AuditoriaDAO.registrar` and the other DAO calls of the login controller, whose user rows are a map field of `AuthController`.
- Logging is not modelled. It changes no value the code returns.
- `_rebuild_phase2.py:317` numbers a row from its pandas index (`idx + 2`). The model takes the frame's index to be 0, 1, 2, …, which is what `reset_index(drop=True)` in `leer_archivo` leaves. After a blank row, that index is not the spreadsheet row: see Findings.
- The row dictionaries whose order nothing observes are maps: the record of a row (`ExcelRow.Record`), a row of the data table (`DataTableState.Row`) and a row of the earlier importer (`LegacyRows.Row`). Every other dictionary, such as the alias table and the column mapping that is built in order, is modelled by its items in insertion order. Where the source builds one from another dictionary (`campo_a_col`, the `datos` of an error row), the keys of the given items are taken to be distinct, as a dictionary's are.
- The UI of `DataTable` (Treeview, scrollbars, buttons) is not modelled, only its paging and sort state. The in-place `list.sort` is modelled on the `seq` field the method reassigns.
- `LegacyValidators.ValidarEdadLegacy` and `LegacyValues.ParseEdad`: an infinite age raises `OverflowError`, which neither catches; for `ValidarEdadLegacy` that includes an integer argument of magnitude `2^1024 - 2^970` or more. Both contracts state that as an error result, and no corrected version is given, because the intended handling is not evident from the code.
- PyInt: reads ASCII digits only; Python's `int()` also accepts other Unicode decimal digits (such as full-width `３５`), which the model refuses.
- PyIntOfFloat: reads ASCII digits only; Python's `float()` also accepts other Unicode decimal digits, which the model refuses.
- IntOf: text of non-ASCII Unicode decimal digits, which `int()` accepts, is refused as in `PyInt`.
- ValidarEdad: an age given as non-ASCII Unicode decimal digits, which `int()` accepts, is rejected as not an integer, as in `PyInt`.
- ValidarEdadLegacy: an age given as non-ASCII Unicode decimal digits, which `float()` accepts, is rejected as not an integer, as in `PyIntOfFloat`.
- ParseEdad: text of non-ASCII Unicode decimal digits gives no age, as in `PyIntOfFloat`.
- MaxStrDigits: the 4300-digit limit is CPython's default since 3.11; changing it with `sys.set_int_max_str_digits` or `PYTHONINTMAXSTRDIGITS`, or an older interpreter without it, is not modelled.
- PersonaSchema: the names are stated to be single-spaced and trimmed only when the given names have no control character. With one, `sanitizar_texto` as written can leave two spaces in a row (see Findings).
- SplitApellidoNombreOneWord: stated only for cell text without control characters, on which the written sanitizer is the plain collapse of blanks.
- ExcelSheets.HeaderIndexSpec, ExcelSheets.HeaderIndexAt, ExcelSheets.ValueOf and ExcelSheets.Combined: the stacked table keeps one column per header, so a lookup on it finds the one column. pandas keeps two sheet columns that clean or rename to the same header, or `pd.concat` refuses to align them, depending on the pandas version. The batch lemmas therefore see only rows with distinct headers. `ExcelRow.ProcessRow` itself handles a row with a repeated header as `_get_value` does: the lookup raises.
- IntOfFloatAgrees: stated only for values strictly inside the float range. Beyond it `int(float())` overflows where `int()` does not (`PyNum.HugeDecimalOverflows`).
- Dates.ParseYear4: `%Y` reads four ASCII digits; Python's `strptime` matches `\d`, so it also accepts other Unicode decimal digits (`"٢٠٢٤-01-15"` is 2024-01-15), which the model refuses.
- Dates.ParseYear2: `%y` reads two ASCII digits; `strptime` also accepts other Unicode decimal digits, which the model refuses.
- Dates.ParseDay: `%d` reads ASCII digits; `strptime` also accepts another Unicode decimal digit in its second place, which the model refuses. `%m` is ASCII-only in Python as in the model.
- Dates.Strptime: refuses dates whose year, or day, uses non-ASCII Unicode decimal digits, which Python accepts, as in `ParseYear4`, `ParseYear2` and `ParseDay`.
- ExcelRow.FirstFormat: a date cell with non-ASCII Unicode digits in its year or day is unreadable in the model, as in `Strptime`.
- LegacyValues.ParseDateText: the same restriction to ASCII digits as `Strptime`.
- LegacyValues.ParseDateLegacy: the same restriction to ASCII digits as `Strptime`.
- Validators.ValidarDni: the pattern `^\d{7,8}$` also matches other Unicode decimal digits in Python; the model accepts only ASCII digits.
- Validators.ValidarTelefono: the pattern's `\d` also matches other Unicode decimal digits in Python; the model accepts only ASCII digits.
- Validators.ReadDate: the same restriction to ASCII digits as `Strptime`.
- Validators.ValidarFechaEntrada: a date with non-ASCII Unicode digits in its year or day is refused as badly formatted, as in `Strptime`.
- Validators.ValidarFechaSalida: a date with non-ASCII Unicode digits in its year or day is refused as badly formatted, as in `Strptime`.
- LegacyValidators.ValidarDniLegacy: the pattern's `\d` also matches other Unicode decimal digits in Python; the model accepts only ASCII digits.

## Findings

| source | as written | input that shows it | evidently intended | confidence | as-written member | corrected member |
|---|---|---|---|---|---|---|
| utils/validators.py:208-209 | blanks are collapsed before control characters are removed | `"a \x00 b"` gives `"a  b"`, with two spaces | single-spaced text with no control character | high, not executed | Validators.SanitizarAsWrittenDoubleSpace | Validators.SanitizarFixesDoubleSpace |
| _rebuild_phase1.py:690-697 | the `.0` of a float cell is looked for after every dot is removed, so it is never found | `limpiar_dni("35123456.0")` gives `"351234560"` | `"35123456"` | high, not executed | LegacyValidators.LimpiarDniAsWrittenKeepsZero | LegacyValidators.LimpiarDniOfFloatCell |
| utils/excel_parser.py:436-443 | the same order in `_process_row` | a text cell `35123456.0` becomes the passport `351234560` | the DNI `35123456` | high, not executed | ExcelRow.FloatDniAsWrittenIsPassport | ExcelRow.FloatDniIsDni |
| _rebuild_phase2.py:236-240 | the same order in `_parse_documento` | `35123456.0` becomes the passport `351234560`; `3512345.0` becomes the DNI `35123450` | the DNI `35123456`, and `3512345` | high, not executed | LegacyValues.FloatDniAsWrittenIsPassport | LegacyValues.FloatDniIsDni |
| _rebuild_phase2.py:257 | `None, x if c else (None, None)` puts the tuple in the passport slot | the cell `-` gives the passport `(None, None)`, which is true, so the row passes the document check | no document, `(None, None)` | high, not executed | LegacyValues.SeparatorsAsWrittenPassCheck | LegacyValues.SeparatorsGiveNothing |
| _rebuild_phase2.py:182-183 | a `Timestamp` is a `date`, so it is returned unchanged and the `.date()` branch is dead | a date cell for 2024-03-01 gives the record the entry text `2024-03-01 00:00:00` instead of `2024-03-01`, text `validar_fecha_entrada` would refuse as badly formatted | the date 2024-03-01 | medium, not executed | LegacyValues.StampAsWrittenKeepsClock | LegacyValues.StampIsDate |
| utils/excel_parser.py:488-495 | `int(float("inf"))` raises `OverflowError`, which is not caught | an age cell `inf` rejects the whole row | the age is left out, as for any other unreadable age | medium, not executed | ExcelRow.InfiniteEdad | ExcelRow.EdadStepAt |
| utils/excel_parser.py:245-291 | `_fila_original` counts the rows kept after blank rows are dropped | a sheet whose first data row is blank: the guest in sheet row 3 is labelled row 2 | the row's own number in the sheet | medium, not executed | ExcelSheets.FilaAsWrittenMisnumbers | ExcelSheets.FilaNumbersLocateRow |
| _rebuild_phase2.py:260-292 | text that `sanitizar_texto` turns into a lone space has no words, and `palabras[-1]` raises `IndexError` | a combined-name cell `"\x00 \x01"`: the row is reported with "list index out of range" | two empty names, so the row is skipped as empty | medium, not executed | LegacyValues.SplitOfControlsRaises | LegacyValues.SplitOfCorrectedNeverRaises |
| _rebuild_phase2.py:124 | `dropna(how="all").reset_index(drop=True)` renumbers the frame, so `idx + 2` at `:317` counts the rows kept | a file whose first data row is blank: the guest in spreadsheet row 3 is reported as row 2 | the row's own number in the sheet | medium, not executed | LegacyRead.FilaAfterBlankRowMisnumbered | LegacyRead.FilaLeidaLocatesRow |
