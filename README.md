# Weight-Manager: fingerprints, re-keying migration and the entry table

This project models two parts of the Weight-Manager application in Dafny.

- `utils/migrate.py`:
  - the entry fingerprint `compute_hash`;
  - the body of `main`, which backfills blank buildings, recomputes every row's fingerprint, salts a fingerprint that is already in use until it is free, and then applies the staged updates or rolls back.
- `app.py`, the handlers that change the `entries` table:
  - `/add` upserts by name and room;
  - `/add_weight/{id}` appends a reading by id;
  - `/delete` removes rows by id;
  - `/report` would list each entry's last weight. As written, the handler fails before that loop runs (see Left out).

  Both append handlers keep only the last five readings of an entry, stored as one comma-joined string.

The files are:

- `pytext.dfy` (module `PyText`): the Python built-ins the code relies on.
  - `None` is an `Option`.
  - `str.strip()` is stripped with the full `str.isspace()` set.
  - `str(int)` and `int(str)` are in base 10.
  - It also covers `split(",")` and `",".join`.
- `fingerprint.dfy` (module `Fingerprint`): `compute_hash`.
  - SHA-256 (FIPS 180-4) is a parameter `digest`, any function from the key to 64 lowercase hexadecimal characters.
  - Nothing is assumed about it.
- `migration.dfy` (module `Migration`): `main` from `BEGIN` on.
  - The table is a sequence of `(rowid, hash, name, room, building)` rows, with SQL NULL as `None`.
  - The per-row planning is a function (`PlanRows`) over a choice of salt loop (`SaltLoop`). `AsWritten` is the salt loop of lines 79-82 as the source has it. `StopAtOwn` is the corrected loop described under Findings.
  - The methods `SearchSalt`, `PlanUpdates`, `ApplyStaged` and `Migrate` run the source's loops, with the salt loop as written. `SearchSalt` and `PlanUpdates` are proved equal to `Decide(AsWritten, ...)` and `PlanRows(AsWritten, ...)`, and `ApplyStaged` to applying the plan.
  - The planning lemmas hold for both salt loops and for any fingerprint function. `Migrate` uses `compute_hash` over the given digest.
- `weight_history.dfy` (module `WeightHistory`): the keep-last-5 policy over the comma-joined `weights` column, and the report's last weight.
- `entries.dfy` (module `Entries`): the `entries` table of `app.py`.
  - The SQL statements are functions over the table.
  - The class `EntryTable` holds the table and runs the handlers in place.

## Model

| member | source | states |
|---|---|---|
| PyText.TrimStart | utils/migrate.py:11-13 | `lstrip()` never returns more than it was given, and its result does not start with whitespace |
| PyText.TrimEnd | utils/migrate.py:11-13 | `rstrip()` never returns more than it was given, and its result does not end with whitespace |
| PyText.TrimStartRemovesSpace | utils/migrate.py:11-13 | `lstrip()` returns a suffix of its input, and what it drops is all whitespace |
| PyText.TrimEndRemovesSpace | utils/migrate.py:11-13 | `rstrip()` returns a prefix of its input, and what it drops is all whitespace |
| PyText.Strip | utils/migrate.py:11-13 | the result of `strip()` is empty or has no whitespace at either end |
| PyText.StripOfPadded | utils/migrate.py:11-13 | whitespace added on either side of a string does not change its `strip()` |
| PyText.StripEmptyIffSpace | utils/migrate.py:11-12 | `strip()` gives "" exactly when the string is whitespace only, which is when `or "N/A"` / `or "Unassigned"` take over |
| PyText.StripTrimmed | utils/migrate.py:11-13 | a string with no whitespace at either end is its own `strip()` |
| PyText.NatToString | utils/migrate.py:15 | the decimal digits of a natural number are a non-empty run of ASCII digits |
| PyText.IntToString | utils/migrate.py:15 | `str(i)` is non-empty, ends in a digit, and starts with '-' exactly for a negative `i` |
| PyText.ParseDigits | app.py:78 | a run of digits parses exactly when it is non-empty and all ASCII digits |
| PyText.ParseNatToString | app.py:78 | the digits of `n` parse back to `n` |
| PyText.IntRoundTrip | app.py:78 | `int(str(i)) == i` for every integer, so an id rendered by the entries page parses back to itself |
| PyText.ParseSigned | app.py:78 | text with no surrounding whitespace parses exactly when it is digits after an optional '+' or '-', and only a '-' gives a negative value |
| PyText.ParseInt | app.py:78 | `int(s)` succeeds exactly when `s` holds none of the information separators U+001C-U+001F and `s` stripped of whitespace is digits after an optional sign |
| PyText.ParseIntOfPadded | app.py:78 | text padded with whitespace `int()` skips (whitespace other than U+001C-U+001F) parses as the text alone |
| PyText.InfoSeparatorRejected | app.py:78 | `int(" 5")` is 5, while `int("\x1c5")` fails although U+001C is whitespace to `str.isspace()` |
| PyText.PrintedIsStripped | app.py:78 | `str(i)` has no surrounding whitespace, so `int()`'s own strip leaves it alone |
| PyText.IntToStringInjective | utils/migrate.py:15 | different integers print differently, so different salts give different suffixes |
| PyText.Split | app.py:41 | `split(",")` gives at least one piece and no piece holds a comma |
| PyText.Join | app.py:43 | `",".join(parts)` starts with the first piece, and a comma follows it when more pieces follow |
| PyText.SplitLast | app.py:105 | the last piece of `split(",")` is the text after the last comma, or the whole text when it has no comma |
| PyText.JoinSplit | app.py:41-43 | joining the split pieces with "," gives back the stored text |
| PyText.SplitJoin | app.py:41-43 | comma-free pieces joined with "," split back into exactly those pieces |
| Fingerprint.RoomValue | utils/migrate.py:11 | the room part of the key is never empty and has no surrounding whitespace |
| Fingerprint.BuildingValue | utils/migrate.py:12 | the building part of the key is never empty and has no surrounding whitespace |
| Fingerprint.BaseKey | utils/migrate.py:11-14 | the bare key starts with the stripped name and "::", and ends with "::" and the building part |
| Fingerprint.Key | utils/migrate.py:13-15 | the salted key extends the bare key, and equals it exactly for salt 0 |
| Fingerprint.ComputeHash | utils/migrate.py:10-16 | a fingerprint is 12 lowercase hex characters and is the prefix of the key's hex digest |
| Fingerprint.BlankRoomIsNoRoom | utils/migrate.py:11 | the room part of the key is "N/A" exactly when the room is None, whitespace only, or "N/A" after stripping |
| Fingerprint.BlankBuildingIsUnassigned | utils/migrate.py:12 | the building part of the key is "Unassigned" exactly when the building is None, whitespace only, or "Unassigned" after stripping |
| Fingerprint.BlankFieldsHashAlike | utils/migrate.py:11-16 | `compute_hash(n, None, None, s) == compute_hash(n, " ", "", s) == compute_hash(n, "N/A", "Unassigned", s)` for every digest |
| Fingerprint.PaddingIgnored | utils/migrate.py:11-16 | whitespace around the name, the room or the building does not change the fingerprint |
| Fingerprint.SaltSuffixRoundTrip | utils/migrate.py:13-15 | salt 0 hashes the bare key; for any other salt the key is the bare key, then "::salt", then text that `int()` parses back to the salt |
| Fingerprint.DistinctSaltsDistinctKeys | utils/migrate.py:13-15 | two different salts never give the same key |
| Migration.BackfillBuilding | utils/migrate.py:54-57 | after the backfill a building is present and not blank by SQL `TRIM`, and a building that was already so is unchanged |
| Migration.Backfill | utils/migrate.py:53-57 | the backfill keeps the number of rows |
| Migration.BackfillFillsBuildings | utils/migrate.py:53-57 | after the backfill every building is present and not blank, a building that was already so is unchanged, and no other column changes |
| Migration.BackfillKeepsKeys | utils/migrate.py:53-57 | the backfill keeps every rowid and every stored hash, so the collision set is the same before and after it |
| Migration.BackfillKeepsBuildingValue | utils/migrate.py:53-57 | the building that `compute_hash` sees is the same before and after the backfill |
| Migration.BackfillKeepsFingerprints | utils/migrate.py:53-57 | the backfill changes no row's fingerprint for any salt |
| Migration.FreeSalt | utils/migrate.py:79-82 | the corrected search returns a salt no lower than where it started and within the bound, and that salt's fingerprint is outside the collision set or is the row's own hash |
| Migration.FreeSaltAsWritten | utils/migrate.py:79-82 | the search as written returns a salt no lower than where it started and within the bound, and that salt's fingerprint is outside the collision set |
| Migration.FreeSaltSpec | utils/migrate.py:79-82 | the salt search stops at the first salt whose fingerprint is free or the row's own; when it gives up, every salt it tried was taken by another fingerprint |
| Migration.FreeSaltAsWrittenSpec | utils/migrate.py:79-82 | the salt loop as written stops at the first salt whose fingerprint is outside the collision set |
| Migration.Pigeonhole | utils/migrate.py:80-82 | if `m` salts all land in a set of fewer than `m` fingerprints, two of the salts collide |
| Migration.GiveUpMeansCollision | utils/migrate.py:80-82 | the bounded search gives up only when two salts of the row have the same 12-character fingerprint |
| Migration.SettledRowKept | utils/migrate.py:79-82 | a row that holds its first salted fingerprint that is free or its own is found at that salt |
| Migration.Decide | utils/migrate.py:74-85 | a row whose salt-0 fingerprint is its stored hash is kept; a re-keyed row gets one of its own salted fingerprints, outside the collision set |
| Migration.DecideSpec | utils/migrate.py:74-85 | a row whose salt-0 fingerprint is its stored hash is kept, and the loop as written keeps no other row; a re-keyed row gets its first salted fingerprint outside the collision set, and the corrected loop never re-keys a row to its own hash; a row is given up on only when all of its first \|taken\|+1 fingerprints are taken |
| Migration.SearchSalt | utils/migrate.py:74-85 | the salt-0 check and the salt `while new_hash in existing_hashes` loop as written decide exactly what `Decide(AsWritten, ...)` decides |
| Migration.PlanRows | utils/migrate.py:67-85 | a plan stages at most one update per row and only adds to the collision set; a conflict names the rowid of one of the rows |
| Migration.PlanUpdates | utils/migrate.py:67-85 | the collision set, the staged list and the row loop as written produce exactly the plan `PlanRows(AsWritten, ...)` specifies |
| Migration.ApplyUpdate | utils/migrate.py:96 | `UPDATE entries SET hash = ? WHERE rowid = ?` changes the hash of the rows with that rowid and nothing else |
| Migration.ApplyAll | utils/migrate.py:95-96 | applying the staged updates keeps the number of rows |
| Migration.ApplyAllFirst | utils/migrate.py:95-96 | applying a list of updates is applying its first, then the rest |
| Migration.PlanTargetsRows | utils/migrate.py:72-85 | every staged update targets the rowid of one of the rows |
| Migration.PlanOneUpdatePerRow | utils/migrate.py:72-85 | on a table with distinct rowids no two staged updates target the same rowid, and each writes one of the salted fingerprints of the row it targets |
| Migration.PlanReservesFreshHashes | utils/migrate.py:67-85 | every staged fingerprint was outside the collision set when chosen: outside all original hashes and different from every earlier staged one; the final collision set is the original hashes plus the staged ones |
| Migration.PlanOutcome | utils/migrate.py:67-96 | applying the plan changes only hashes; a row whose salt-0 fingerprint matched is untouched; a new hash is a salted fingerprint of that row's own fields and is not in the collision set; distinct hashes stay distinct |
| Migration.MigrationKeepsFingerprintsUnique | utils/migrate.py:53-96 | after backfill and a successful plan, the applied hashes are pairwise distinct when the stored ones were |
| Migration.SettledTableNotRekeyed | utils/migrate.py:72-85 | a table whose every row holds its first salted fingerprint that is free or its own gets no update |
| Migration.DemoFingerprints | utils/migrate.py:10-16 | `compute_hash` over a digest that looks only at the key's last character gives the demo row three different fingerprints for salts 0, 1 and 2 |
| Migration.AsWrittenResalts | utils/migrate.py:79-82 | a row holding its salt-1 fingerprint, while its salt-0 fingerprint belongs to another row, is moved to salt 2 by the loop as written, but is kept by the corrected loop |
| Migration.AsWrittenResaltsSettledRow | utils/migrate.py:72-85 | on a concrete two-row table that a first run leaves settled, the loop as written stages a salt-2 update for the second row and the corrected loop stages none |
| Migration.Database.constructor | utils/migrate.py:40-45 | the database holds the given `entries` table, or none |
| Migration.ApplyStaged | utils/migrate.py:94-96 | the staged updates run in order; the run fails exactly when the storage layer fails one of them, and then the table holds the updates before the failing one; otherwise the table is the plan applied |
| Migration.Migrate | utils/migrate.py:40-106 | the exit code is 0 or 2; a missing table, a search that gives up, or a failed update gives 2 and leaves the table as it was; a dry run gives 0 and leaves it as it was; otherwise 0 with the backfilled table and the plan of the loop as written applied |
| WeightHistory.KeepLast | app.py:42 | `xs[-5:]` has min(\|xs\|, 5) elements and is the suffix of `xs` of that length |
| WeightHistory.SingleReading | app.py:45 | a reading stored on its own splits back into exactly that reading |
| WeightHistory.Appended | app.py:41-43 | the stored text after an append splits into exactly the last five of the old readings plus the new one |
| WeightHistory.LastWeight | app.py:105 | the report's last weight has no comma and is the text after the last comma of the stored weights, or all of it |
| WeightHistory.AppendKeepsLastFive | app.py:41-43 | after an append there are min(old+1, 5) readings, the new reading is last, and the ones before it are the most recent old readings in their order |
| WeightHistory.LastWeightOfAppended | app.py:105 | the report's last weight after an append is the reading just appended |
| WeightHistory.KeepLastSlides | app.py:42 | keeping the last five before appending more, and keeping the last five again, is the same as keeping the last five once |
| WeightHistory.AppendAll | app.py:57-59 | after one or more appends the stored readings are the last five of the old readings followed by the new ones |
| WeightHistory.FreshHistory | app.py:41-59 | an entry created with one reading and given more holds the last five of all its readings, in order, and never more than five |
| WeightHistory.SevenReadings | app.py:41-59 | seven readings given to a fresh entry leave readings 3 to 7 |
| Entries.FirstByNameRoom | app.py:38-39 | `fetchone()` after `WHERE name=? AND room=?` returns the first matching row, and no row before it matches; None means no row matches |
| Entries.FirstById | app.py:54-55 | `fetchone()` after `WHERE id=?` returns the first row with that id, and no row before it has it; None means no row has it |
| Entries.MaxId | app.py:45 | the largest id of a non-empty table is an id of the table and no id is larger |
| Entries.NextId | app.py:45 | an inserted row's id is larger than every id in the table: 1 in an empty table, otherwise one more than the largest |
| Entries.SetWeightsByNameRoom | app.py:43 | `UPDATE ... WHERE name=? AND room=?` sets the weights of every matching row and changes nothing else |
| Entries.SetWeightsById | app.py:59 | `UPDATE ... WHERE id=?` sets the weights of the rows with that id and changes nothing else |
| Entries.DeleteRows | app.py:78 | a row survives the deletes exactly when its id is not listed, and none is added |
| Entries.ParseIds | app.py:78 | the form values parse exactly when every `int()` succeeds, and then give those values in order |
| Entries.AddRows | app.py:34-48 | `/add` keeps every existing row in place with the same id, name and room, and adds at most one row |
| Entries.AddWeightRows | app.py:50-62 | `/add_weight` keeps the same rows with the same ids, names and rooms; at most weights change |
| Entries.ReportLines | app.py:104-105 | the report has one line per entry |
| Entries.AddToExisting | app.py:38-43 | `/add` on an existing name and room gives every matching row the first match's readings with the new one appended; no other row and no other column changes |
| Entries.AddNew | app.py:44-45 | `/add` on a new name and room appends exactly one row, with an id no row has, holding just the new reading; existing rows are unchanged |
| Entries.AddedEntryListed | app.py:34-48 | after `/add` the entry is in the table and its last weight is the new reading |
| Entries.AddKeepsIdsUnique | app.py:34-48 | `/add` keeps the ids unique |
| Entries.AddWeightUnknownId | app.py:54-56 | `/add_weight` on an id no row has changes nothing |
| Entries.AddWeightKnownId | app.py:54-61 | `/add_weight` on the id of a row applies the keep-last-5 append to that row only |
| Entries.AddWeightKeepsIdsUnique | app.py:50-62 | `/add_weight` keeps the ids unique |
| Entries.DeleteTwice | app.py:78 | deleting one set of ids and then another is deleting both at once, so the per-id DELETEs add up to one delete of the listed ids |
| Entries.DeleteAbsentIds | app.py:78 | ids that no row has are ignored |
| Entries.DeleteKeepsIdsUnique | app.py:73-81 | deleting keeps the ids unique |
| Entries.DeleteRenderedId | tests/test_app.py:62-76 | the id the entries page renders parses back to itself, and deleting it leaves no row with that id |
| Entries.FirstAfterInsert | app.py:38-45 | after an INSERT the lookup by name and room finds the earlier match, or else the new row when it matches |
| Entries.AddThenAddWeight | app.py:34-62 | an entry added with one reading and given a second through `/add_weight` on its new id reads back as exactly those two readings |
| Entries.BobScenario | tests/test_app.py:43-59 | Bob added with 180.5 and given 179.5: the last two stored weights are "180.5" and "179.5" |
| Entries.CarolScenario | tests/test_app.py:62-76 | Carol added and then deleted by her rendered id: no row keeps that id |
| Entries.EntryTable.constructor | app.py:16-26 | the table starts empty, with unique ids |
| Entries.EntryTable.Add | app.py:34-48 | the lookup followed by UPDATE or INSERT leaves the table `AddRows` specifies and keeps the ids unique |
| Entries.EntryTable.AddWeight | app.py:50-62 | the lookup followed by UPDATE when found leaves the table `AddWeightRows` specifies and keeps the ids unique |
| Entries.EntryTable.Delete | app.py:73-81 | a missing or empty list changes nothing; a value `int()` rejects, or an id outside SQLite's signed 64-bit range, fails the request with the table unchanged; otherwise the listed ids are deleted, one DELETE per id |
| Entries.OverflowingIdParses | app.py:78 | the id one past SQLite's 64-bit range, written out, parses as an id but cannot be bound, while the id before it can |
| Entries.EntryTable.Report | app.py:104-109 | the report loop produces one line per entry: its name, its room and its last weight |

## Left out

- SQLite is not modelled: connections, `BEGIN`/`COMMIT`/`ROLLBACK`, `PRAGMA`, `ALTER TABLE` and the file-existence check (utils/migrate.py:18-38, 47-51).
  - The table is an in-memory sequence in scan order.
  - Atomicity is modelled as "all staged updates or none".
  - A failing `UPDATE` is a parameter `failAt`.
  - A missing `building` column reads as NULL.
- argparse, `--verbose` and every `print` are not modelled.
- SHA-256 is a parameter, because it is a foreign library call. No collision-freedom of the digest is assumed or proved, only of the collision-set logic.
- Migration.SearchSalt: the source's salt loop has no bound. The model stops after \|collision set\|+1 salts and aborts the run with exit code 2 and a rollback. `GiveUpMeansCollision` shows this happens only when two salted keys of the row give the same 12-character fingerprint. In that case the source would keep searching instead.
- Migration.FreeSaltAsWritten: the same bound as `SearchSalt`, for the function that specifies it.
- Migration.FreeSalt: the same bound, for the corrected loop.
- The migration is meant to be re-runnable, with a second run making no changes. The model proves only the settled-table case (`SettledTableNotRekeyed`). Even with the corrected search, a second run can move a re-keyed row to a lower salt: the first run freed the old hashes that had blocked that salt.
- Readings (`str(float)` of the submitted weight) are any non-empty text without a comma. Float parsing and formatting are not modelled.
- PyText.ParseInt: `int()` is modelled for ASCII digits with an optional sign and surrounding whitespace. Underscores between digits and non-ASCII digits, which Python also accepts, are not modelled.
- SQLite's 64-bit limit on ids is modelled only in `Entries.EntryTable.Delete`. Elsewhere a new id is one more than the largest id, with no wrap-around, and an out-of-range id given to `/add_weight` is not modelled as failing.
- Entries.EntryTable.Delete: the model checks every id's range before any DELETE, where the source binds them one by one and the uncommitted DELETEs are discarded when the connection closes. The table ends the same either way.
- The report handler as written raises NameError at app.py:94: `datetime` is not imported (app.py:1-8). So the loop of app.py:104-109 never runs. `Entries.ReportLines` and `Entries.EntryTable.Report` model that loop as if the title line had succeeded.
- The HTTP layer, templates, redirects, the `/entries` listing, the FPDF layout of the report, the report timestamp and all JavaScript are not modelled. The report is the list of (name, room, last weight) lines that the loop would print.
- The database schema (`init_db`) is reduced to an empty table with unique ids.

## Findings

| source | as written | input that shows it | evidently intended | confidence | as-written member | corrected member |
|---|---|---|---|---|---|---|
| utils/migrate.py:79-82 | the salt loop stops only at a fingerprint outside the collision set, and that set still holds the row's own stored hash, despite the comment that the row itself is excluded | two rows with the same name, room and building. After a first run one holds its salt-0 fingerprint and the other its salt-1 fingerprint. On the next run the second row's salt-1 fingerprint is its own stored hash, but the loop moves the row to salt 2 (and on the run after that back to salt 1) | a row whose salted fingerprint is its own stored hash keeps it, so a settled table gets no update. This is the `StopAtOwn` loop; `Migrate` keeps the loop as written | not executed | Migration.AsWrittenResaltsSettledRow | Migration.SettledTableNotRekeyed |
