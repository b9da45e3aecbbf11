# Maintenance dashboard: merge, classification and persistence gateway

This project models the business logic of a maintenance-operations dashboard
in Dafny. The dashboard handles work orders ("OS") and their cost detail lines.
The model covers two parts.

**The dashboard's data pipeline (`dashboard2.py`).**
- The processing block of `fetch_api_data` takes the history response (the
  work-order headers) and the per-order detail responses. From them it builds
  the merged table (`df_merged`) and the cleaned detail table (`df_detalhes`).
- The steps are: flatten the detail payloads, drop the lines without an order
  number, coerce the amounts, group and sum by `numeroos`, left-join the sums
  onto the headers, and parse the dates.
- `classify_os_status` gives each merged row one of six situations.
- The "em andamento" page keeps the started, unfinished rows and computes
  `TEMPO (D)` for each.

**The MySQL persistence gateway (`database.py`).**
- It holds two tables: `ultimaatualizacao`, keyed by `numeroos`, and
  `detalhesOS`, whose rows have an auto-increment id and a foreign key to a
  header.
- `os_atende_criterios` decides which orders qualify for persistence.
- The upsert batch (`inserir_os_lote`) and the delete-then-insert replace
  (`inserir_detalhes_os`) are methods of a `Store` class that update the two
  tables in place.
- Each write runs as one transaction. When MySQL raises inside it, the store
  is left exactly as it was.
- The `listar_*` and `buscar_*` reads are functions over the store's state.

The model takes these things as parameters:
- Date parsing (`pd.to_datetime(errors='coerce')`) is a function
  `string -> Option<Instant>`.
- Number coercion (`pd.to_numeric(errors='coerce')`) is a function
  `string -> Option<real>`.
- The HTTP responses are input values.
- "Today" is an input value.

Amounts are `real`.

Behaviour of the code that shapes the model:
- `dashboard2.py` merges only the headers and details it fetched in the
  current run. It never reads back the rows `database.py` stores (it does not
  import it), so the two halves of the model share records but no state.
- Pandas raises in three cases, and then the processing block fails:
  - the history is empty (the empty DataFrame has no `numeroos` column);
  - a header has no order number;
  - a kept detail payload holds a null entry after its first one.

  When the block fails, the error is logged and the previous tables stay in
  the session. `Merge.Process` returns `None` in exactly these cases and when
  the history has no `data` key.
- `max(NaN, 0)` is NaN in Python. So a row without a parsable opening date
  gets no `TEMPO (D)` value, and the "never negative" property holds for the
  values that are present.

Files: `wrappers.dfy` (Option, Result), `pytext.dfy` (`strip`, `upper`),
`records.dfy` (API records), `merge.dfy`, `classifier.dfy`, `andamento.dfy`,
`criteria.dfy`, `ordering.dfy` (ascending key lists), `tables.dfy` (table
semantics as values), `database.dfy` (the `Store` class).

## Model

| member | source | states |
|---|---|---|
| `PyText.Strip` | dashboard2.py:171 | `strip()` gives the empty string exactly when the input is all whitespace (Python's `isspace` set); otherwise the result starts and ends with a non-whitespace character |
| `PyText.StripTrims` | dashboard2.py:171 | the result of `strip()` is an infix of the input whose cut-off prefix and suffix are all whitespace |
| `PyText.Upper` | dashboard2.py:171 | `upper()` keeps the length and upper-cases each character |
| `Merge.Flatten` | dashboard2.py:125 | a detail entry is in `detalhes_list` exactly when it belongs to a payload whose `data` is non-empty and whose first entry is not null |
| `Merge.CleanLines` | dashboard2.py:129-134 | the cleaned lines are exactly the items that carry an order number, with amounts coerced (invalid or null becomes 0); items without a number are dropped |
| `Merge.GroupTotals` | dashboard2.py:135 | the group-by has one entry for each order number that has lines, holding the sum of their amounts |
| `Merge.SumForWithoutLines` | dashboard2.py:136-141 | an order with no detail line sums to 0, which is the value the left join's `fillna(0)` gives it |
| `Merge.CleanLinesKeepTotals` | dashboard2.py:130-134 | dropping and coercing lines keeps each order's sum equal to the sum of its coerced raw amounts |
| `Merge.LeftJoin` | dashboard2.py:136-141 | one merged row per header, in header order, with the header's number and columns; the total is the group's sum when the order has lines and 0 (`fillna(0)`) when it has none |
| `Merge.Process` | dashboard2.py:124-154 | processing fails exactly when the history is missing or empty, a header lacks its number, or a kept payload holds a null entry; otherwise the merged table has one row per header, in header order, with the header's number, columns and parsed dates, and the stored detail table is the cleaned lines of the kept detail items |
| `Merge.MergedTotals` | dashboard2.py:130-141 | each merged row's `valortotal` is the sum of the coerced `valortotal` of the detail items with its number: 0 when there are none, and unparsable amounts count as 0 |
| `Classifier.Classify` | dashboard2.py:169-178 | each of the six situations is characterised on its own: VALORIZADO E FINALIZADO iff total > 0, completion present and status FINALIZADA; ANDAMENTO iff start present and completion absent; EXECUTADO iff both dates absent and total > 0; FINALIZADA iff completion present, status FINALIZADA and total <= 0; EM BRANCO iff both dates absent and total <= 0; OUTRO iff completion present and status not FINALIZADA |
| `Classifier.StatusKey` | dashboard2.py:171 | the status key reads FINALIZADA exactly when a status is present and its stripped, upper-cased form is FINALIZADA |
| `Classifier.NullStatusKey` | dashboard2.py:171 | a null or missing status never normalises to FINALIZADA; an explicit null is compared as `str(None)` normalised, "NONE" |
| `Classifier.LabelsDistinct` | dashboard2.py:173-178 | distinct situations carry distinct labels |
| `Andamento.Tempo` | dashboard2.py:238-240 | `TEMPO (D)` is present iff the opening date is; when present it is >= 0, equal to the floored day count since opening when that count is not negative, and 0 when it is negative (`max(x, 0)`) |
| `Andamento.AndamentoTable` | dashboard2.py:236-240 | the table keeps only rows whose start date is present and whose completion date is absent; every present `TEMPO (D)` is >= 0 |
| `Andamento.AndamentoIsClassifiedAndamento` | dashboard2.py:236 | the in-progress table holds exactly the rows the classifier labels ANDAMENTO, in their original order |
| `Andamento.RowsOfAt` | dashboard2.py:236-240 | the in-progress table keeps each merged row unchanged and only adds `TEMPO (D)` beside it: its i-th row is the i-th row of the table with that column dropped |
| `Criteria.MeetsCriteria` | database.py:136-149 | an order qualifies iff its status (null read as "") is FINALIZADA after strip and upper-casing, and both dates are non-null and not blank; a whitespace-only completion date disqualifies |
| `Criteria.QualifyingOrderSituation` | database.py:140-149 | a qualifying order whose completion date parses is classified VALORIZADO E FINALIZADO when its total is positive and FINALIZADA otherwise |
| `Tables.Upsert` | database.py:166-180 | the `ON DUPLICATE KEY UPDATE` loop keeps every existing header, adds every batch number, and adds nothing else (`UpsertOverrides`, `UpsertLastWins` and `UpsertUntouched` give the values) |
| `Tables.UpsertOverrides` | database.py:166-180 | an upsert batch overrides the table with the table the batch alone builds |
| `Tables.UpsertIdempotent` | database.py:166-180 | applying the same batch twice leaves the same header table as applying it once |
| `Tables.UpsertLastWins` | database.py:176-180 | every order number of the batch is present afterwards, holding the columns of the batch's last item with that number |
| `Tables.UpsertUntouched` | database.py:170-180 | headers whose number is not in the batch are unchanged, and no other header appears |
| `Tables.Without` | database.py:193 | the delete keeps exactly the rows of other orders |
| `Tables.Replaced` | database.py:193-215 | delete then insert: other orders' rows are exactly kept; every row of the order is a new one whose id lies in the inserted range and which carries that item's columns; one row per item |
| `Tables.ReplaceSemantics` | database.py:191-215 | after a replace, the rows of the order carry exactly the items' columns, in order, tagged with the parameter's number; other orders' rows are unchanged; an empty list leaves the order without rows |
| `Tables.OsColumnsDistinct` | database.py:55-60 | the header column names are pairwise distinct, so each column's dict entry is its own |
| `Tables.RowToDict` | database.py:129-133 | no row gives the empty dict; a row gives one key per zipped column, holding that position's value unless a later column repeats the name |
| `Tables.Zip` | database.py:129-133 | `dict(zip(columns, row))` has one key per column of the shorter length, holding that position's value, with a later duplicate column winning |
| `Tables.HeaderDictRoundTrip` | database.py:257-263 | the dict built for a header row reads back as that row's number and columns |
| `Tables.DetailDictRoundTrip` | database.py:266-275 | the dict built for a detail row reads back as that row's number and columns |
| `Tables.SortRows` | database.py:270-273 | the detail rows in `ORDER BY numeroos, id` order are ordered by that key and are a permutation of the table |
| `Tables.SortKeepsOrderRows` | database.py:270-273 | when ids increase with insertion order, sorting by `(numeroos, id)` leaves the rows of each order in insertion order |
| `Ordering.SortedKeys` | database.py:253 | a key list is strictly ascending, holds exactly the given numbers, and has one entry per number |
| `Database.Store.constructor` | database.py:84-124 | freshly created tables are empty and satisfy the key, foreign-key and id constraints |
| `Database.Store.InsertOsBatch` | database.py:152-182 | an empty batch returns 0 and changes nothing; otherwise it succeeds iff every item has a number, returns the batch length and leaves the upserted table; on failure (null key) the whole batch is rolled back; details never change |
| `Database.Store.InsertDetails` | database.py:185-215 | it fails iff there are items and the order has no header (foreign key); on failure the delete is rolled back too; on success it returns the item count and the detail table is the old one minus the order's rows plus one new row per item with fresh ascending ids; headers never change |
| `Database.Store.InsertRows` | database.py:203-214 | the insert loop, for an order that has a header: the detail table gains one row per item, in item order, tagged with the order number, with consecutive ids starting at the old next id; the constraints still hold and headers never change |
| `Database.WithoutConsistent` | database.py:193 | deleting an order's detail rows keeps the foreign-key and id-order constraints |
| `Database.AppendConsistent` | database.py:113-123 | inserting a row with the next id under an existing header keeps the constraints |
| `Database.ReplacedReadsBackInItemOrder` | database.py:185-215 | after a successful replace, the detail query returns the order's rows with exactly the items' columns, in item order |
| `Database.Store.DetailsReadInInsertionOrder` | database.py:266-275 | in a valid store, the detail query returns each order's rows in insertion order |
| `Database.Store.DetailedOrdersHaveHeaders` | database.py:113-123 | by the foreign key, every number listed as having details is also listed among the headers |
| `Database.Store.NumbersWithDetails` | database.py:218-223 | the distinct numbers are duplicate-free and are exactly the numbers appearing in the details |
| `Database.Store.OsWithoutDetails` | database.py:237-246 | the anti-join returns exactly the header numbers with no detail row, without duplicates |
| `Database.Store.OsNeedsDetails` | database.py:226-234 | true iff the number is in the anti-join's result; false for a number without a header |
| `Database.Store.AllOsNumbers` | database.py:249-254 | the header numbers, strictly ascending, one per header |
| `Database.Store.OsForDashboard` | database.py:257-263 | one dict per header, in ascending number order, each reading back as the stored header |
| `Database.Store.OrderedDetails` | database.py:270-273 | the detail rows ordered by `(numeroos, id)`, a permutation of the table |
| `Database.Store.DetailsForDashboard` | database.py:266-275 | one dict per detail row, in `(numeroos, id)` order, each reading back as that row's number and columns |

## Left out

- HTTP I/O is not modelled. This covers `_get_token`, the history request, and the per-order detail requests with their `time.sleep` throttle and progress callbacks (dashboard2.py:61-121). The model takes the history's `data` and the successful detail responses as inputs.
- `scheduler_loop`, the background thread, the stop flag and `join(timeout=2)` are not modelled: they are concurrency and wall-clock behaviour.
- `load_config`, `save_config` and `_get_database_config` are not modelled: they read and write files, secrets and environment variables.
- The Streamlit pages are not modelled: widgets, filters, the filter-reset key pruning, the countdown, charts, metrics, and the andamento table's column selection, renaming and sort by opening date.
- Real date parsing and number parsing are parameters. Pandas' per-column format inference is not modelled, and neither is IEEE float rounding in the sums.
- `PyText.Upper`: only ASCII letters are upper-cased. Python's full Unicode mapping (for example, the dotless i becomes `I`, and ligatures such as `ﬁ` expand to two letters) is not modelled.
- `Merge.Process`: a null value and a missing key are treated alike. Pandas raises a KeyError when no detail line at all has one of the columns `numeroos`, `quantidade`, `valorunit` or `valortotal`, or when no header at all has one of the date columns `datahoraos`, `datahorainicio` or `datahorafim` (dashboard2.py:142-143); the model returns a result in those cases, with the missing columns null. The model also ignores a clash between a header column named `valortotal` and the aggregate.
- Merge.DetailLine keeps only the order number and the three coerced amounts. `fillna(0)` also replaces nulls in the text columns of `df_detalhes`, but those columns do not affect the merged table.
- `Database.Store.NumbersWithDetails` and `Database.Store.OsWithoutDetails` return their numbers in ascending order. SQL leaves the order of `SELECT DISTINCT` and of the anti-join unspecified; the model fixes one.
- Connection, commit and network errors are not modelled. Of the errors MySQL raises because of the data, the model has two: a null primary key and a foreign-key violation. Range and length errors are not modelled (see the next three lines).
- `Database.Store.InsertOsBatch`: `numeroos` is an unbounded integer and text cells have no length limit. MySQL's signed 32-bit `INT` range for `numeroos` (database.py:92) and the 65,535-byte `TEXT` limit (database.py:93-107) are not modelled. Under strict SQL mode, exceeding either raises and rolls the batch back; otherwise MySQL clamps or truncates the value. The model reports success in those cases.
- `Database.Store.InsertDetails`: `numeroos` and the auto-increment `id` are unbounded integers and text cells have no length limit. MySQL's `INT` range for `numeroos` and `id` (database.py:114-115), id exhaustion past 2^31-1, and the `TEXT` limit (database.py:116-120) are not modelled. The model reports success in those cases.
- `Merge.Process`: order numbers are unbounded integers. `astype(int)` (dashboard2.py:128 and 131) casts to 64-bit integers, which raises or wraps outside that range; the model returns a result there.
- InnoDB can consume an auto-increment value on a rolled-back insert. The model leaves the id counter unchanged on failure.
- `init_db`'s DDL is modelled only through its constraints. These are the primary key (map keys), the foreign key (the `Consistent` invariant and the insert error) and the auto-increment ids. `ON DELETE CASCADE` is never exercised, because no operation deletes a header.
- MySQL stores every non-key column as TEXT. Every such field is modelled as a nullable string, so converting non-string JSON values to text is not modelled.
