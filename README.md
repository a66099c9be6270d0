# Medications and compounds catalogue: relationship management

This project models the core of a catalogue service in Dafny. The catalogue
has medications (`medicamentos`), chemical compounds (`compuestos`) and a join
collection (`compuestos_por_medicamento`). Each record of the join collection
says that a medication contains a compound at a concentration, in a unit.

The model covers three layers of the service:

- **The join repository** (`CompuestoPorMedicamentoRepo`). It lists and finds
  associations and creates them. It also cascade-deletes every association
  that has a given medication id or compound id.
- **The two entity repositories** (`MedicamentoRepo`, `CompuestoRepo`). Each
  does CRUD over its own collection. Each also has an enriched lookup: an
  aggregation pipeline (`$match`, `$lookup`, `$unwind`, `$project`). It is
  modelled as a filter on one foreign key, then an inner join with the other
  collection, then a projection onto fixed fields.
- **The two services** (`MedicamentoService`, `CompuestoService`). They check
  in a fixed order: existence first, then non-blank text fields and a
  positive concentration. A refused request leaves the store unchanged. A
  delete runs the cascade on the join collection before it removes the entity.

The store is one class, `Documents.Database`. It holds the three collections as
sequences in their natural (insertion) order. `Valid()` is the store's unique
index on `_id`. `Intact()` (through `Linked`) is referential integrity: every
association names a medication and a compound that exist. The store does not
enforce referential integrity, but every service operation is proved to
preserve it.

Identifiers are concrete. An `ObjectId` is twelve bytes. Its text form is 24
lower-case hex digits. `ObjectIds.Parse` models `ObjectId(s)`: it accepts
exactly 24 hex digits of either case. `ObjectIds.ToString` models `str(id)`.

A Python exception becomes a value:

- a repository call that raises on a malformed id returns `Outcome.InvalidId`;
- a service error returns `Result.Err` with `NotFound` or `ValidationFailure`.

A blank text is what `not s or s.strip() == ""` accepts. `Text.IsSpace` holds
the whitespace set of Python's `str.strip()`.

The identifier that the database driver generates for a new document is a
parameter, `newId`, of every create. Each create requires that `newId` is not
yet in its collection.

`app/services/compuesto_service.py` cannot run as written. Lines 3-5 import
`compuesto`, `compuesto_repo` and `compuesto_por_medicamento_repo`, none of
which the imported modules define: they define the classes `Compuesto`,
`CompuestoRepository` and `CompuestoPorMedicamentoRepository`. Line 13 calls
`get_all_compuestos`, which the repository does not have. Because
`app/main.py` imports the compound controller, which imports this service,
the import error stops the whole application at startup, medication routes
included. The model follows the evident intent: the service delegates to
`CompuestoRepository` (`CompuestoRepo`) and to
`CompuestoPorMedicamentoRepository` (`CompuestoPorMedicamentoRepo`) for its
cascade, and `get_all_compuestos` is `CompuestoRepo.GetAll`.

## Model

| member | source | states |
|---|---|---|
| `ObjectIds.Parse` | app/repositories/medicamentos_repo.py:25 | `ObjectId(s)` succeeds exactly when `s` is 24 hex digits of either case (the whitespace-separated texts `bytes.fromhex` also takes are under Left out) |
| `ObjectIds.ToString` | app/repositories/medicamentos_repo.py:17 | `str(id)` is 24 lower-case hex digits; that it parses back to `id` is `ObjectIds.ParseToString` |
| `ObjectIds.ParseToString` | app/repositories/medicamentos_repo.py:44 | an id rendered with `str` parses back to the same id, so every create's re-read finds its record |
| `ObjectIds.ToStringParse` | app/repositories/medicamentos_repo.py:27 | rendering a parsed id gives the input text folded to lower case, so the id a lookup returns may differ in case from the one asked for |
| `ObjectIds.IndexOf` | app/repositories/medicamentos_repo.py:25 | `find_one` on `_id` selects the first document with that id, and finds none exactly when the id is absent |
| `Text.BlankIffAllSpace` | app/services/medicamento_service.py:31 | `not s or s.strip() == ""` holds exactly when every character of `s` is whitespace (the empty text included) |
| `Text.StripStart` | app/services/medicamento_service.py:31 | `lstrip` returns a suffix of its input that does not start with whitespace, and what it drops is all whitespace |
| `Text.StripEnd` | app/services/medicamento_service.py:31 | `rstrip` returns a prefix of its input that does not end with whitespace, and what it drops is all whitespace |
| `Text.Strip` | app/services/medicamento_service.py:31 | `strip()` returns the middle piece of its input: what it drops before and after is all whitespace, and the result neither starts nor ends with whitespace |
| `Text.IsBlank` | app/services/medicamento_service.py:31 | the test `not s or s.strip() == ""` itself, used at every validation site (lines 31, 37, 55, 61 and 133, and app/services/compuesto_service.py:30 and 50); it has no contract of its own, and what it accepts is stated by `Text.BlankIffAllSpace` |
| `Documents.Database.Valid` | app/repositories/medicamentos_repo.py:25 | the store's unique index on `_id`, in each collection, which every `find_one` on `_id` relies on; a predicate; the constructor establishes it, and each method that modifies the store ensures `db.Valid()` |
| `Documents.Database.Intact` | app/services/medicamento_service.py:111-123 | referential integrity of the whole store, through `Documents.Linked`; a predicate; each service method that modifies the store ensures `old(db.Intact()) ==> db.Intact()` |
| `Documents.Linked` | app/services/medicamento_service.py:111-123 | every association names a medication and a compound that exist, which the existence checks before an association is added establish; a predicate with no contract of its own |
| `CompuestoPorMedicamentoRepo.GetAll` | app/repositories/compuesto_por_medicamento_repo.py:12-21 | one entry per stored association, in order, with `_id` and both foreign keys as text (corrected read, see ## Findings; as written: `GetAllAsWritten`) |
| `CompuestoPorMedicamentoRepo.ViewOf` | app/repositories/compuesto_por_medicamento_repo.py:17-19 | `str` applied to `_id` and both foreign keys, the other fields copied; a definition with no contract of its own |
| `CompuestoPorMedicamentoRepo.GetAllAsWritten` | app/repositories/compuesto_por_medicamento_repo.py:12-21 | as written, model construction fails on the first document, so `get_all` raises (`RaisesValidationError`) exactly when the collection is non-empty, and otherwise lists nothing |
| `CompuestoPorMedicamentoRepo.Construct` | app/repositories/compuesto_por_medicamento_repo.py:32 | building the model from a stored document, which fails when a required field is not among the stored keys; a definition with no contract of its own, whose effect is stated by `CompuestoPorMedicamentoRepo.FindWith`, `CompuestoPorMedicamentoRepo.GetByIdAsWritten` and `CompuestoPorMedicamentoRepo.GetAllAsWritten` |
| `CompuestoPorMedicamentoRepo.FindWith` | app/repositories/compuesto_por_medicamento_repo.py:24-35 | `get_by_id` against a model with the given required fields: when some field is not stored, the `except` turns the construction error into absent for every id; otherwise present exactly when the id parses and a record has it |
| `CompuestoPorMedicamentoRepo.GetById` | app/repositories/compuesto_por_medicamento_repo.py:24-35 | never raises; present exactly when the id parses and a record has it, and then it is that record's view (corrected read, see ## Findings; as written: `GetByIdAsWritten`) |
| `CompuestoPorMedicamentoRepo.GetByIdAsWritten` | app/repositories/compuesto_por_medicamento_repo.py:24-35 | as written (model field `unidad`), construction always fails and the handler returns absent for every id |
| `CompuestoPorMedicamentoRepo.ReReadInserted` | app/repositories/compuesto_por_medicamento_repo.py:51-54 | re-reading a freshly inserted association by its rendered id finds exactly that association |
| `CompuestoPorMedicamentoRepo.CreateReReadAsWritten` | app/repositories/compuesto_por_medicamento_repo.py:51-54 | after an insert, the re-read returns the record under the intended model and absent as written |
| `CompuestoPorMedicamentoRepo.Create` | app/repositories/compuesto_por_medicamento_repo.py:38-54 | raises on a malformed foreign key and stores nothing; otherwise appends exactly one record under the fresh id with the converted keys and returns it; other collections and records are unchanged; the pair need not be new (corrected read, see ## Findings; as written: `CreateReReadAsWritten`) |
| `CompuestoPorMedicamentoRepo.Referencing` | app/repositories/compuesto_por_medicamento_repo.py:59-60 | the records the filter `{key: id}` selects, in order, never more than the collection holds; the same filter is the `$match` stage at app/repositories/medicamentos_repo.py:72 and app/repositories/compuesto_repo.py:72; which records it selects is `CompuestoPorMedicamentoRepo.ReferencingMembers` |
| `CompuestoPorMedicamentoRepo.Surviving` | app/repositories/compuesto_por_medicamento_repo.py:59-61 | the records `delete_many({key: id})` leaves, in order, never more than the collection holds; which records they are is `CompuestoPorMedicamentoRepo.SurvivingMembers` |
| `CompuestoPorMedicamentoRepo.ReferencingMembers` | app/repositories/compuesto_por_medicamento_repo.py:59-60 | the filter `{key: id}` selects exactly the records whose key equals `id` |
| `CompuestoPorMedicamentoRepo.SurvivingMembers` | app/repositories/compuesto_por_medicamento_repo.py:59-61 | a cascade delete leaves exactly the records whose key differs from `id` |
| `CompuestoPorMedicamentoRepo.SurvivingUntouched` | app/repositories/compuesto_por_medicamento_repo.py:59-61 | a cascade delete that matches nothing leaves the collection as it was |
| `CompuestoPorMedicamentoRepo.DeleteManyPartition` | app/repositories/compuesto_por_medicamento_repo.py:59-62 | removed and kept records together make up the old collection (as a multiset), so the count is the number of matching records |
| `CompuestoPorMedicamentoRepo.ReferencingAppend` | app/repositories/compuesto_por_medicamento_repo.py:59-60 | the filter keeps collection order |
| `CompuestoPorMedicamentoRepo.SurvivingAppend` | app/repositories/compuesto_por_medicamento_repo.py:59-61 | the survivors of a cascade keep their order |
| `CompuestoPorMedicamentoRepo.DeleteManyIdempotent` | app/repositories/compuesto_por_medicamento_repo.py:57-70 | a second cascade delete on the same id removes nothing and counts zero |
| `CompuestoPorMedicamentoRepo.Scan` | app/repositories/compuesto_por_medicamento_repo.py:59-62 | the pass over the collection keeps exactly the survivors and counts exactly the matching records |
| `CompuestoPorMedicamentoRepo.DeleteMany` | app/repositories/compuesto_por_medicamento_repo.py:59-62 | the collection becomes the survivors, the count is the number removed, unique ids are kept, and other collections are unchanged |
| `CompuestoPorMedicamentoRepo.DeleteByMedicamentoId` | app/repositories/compuesto_por_medicamento_repo.py:57-62 | raises on a malformed id and changes nothing; otherwise removes exactly the records of that medication and returns how many |
| `CompuestoPorMedicamentoRepo.DeleteByCompuestoId` | app/repositories/compuesto_por_medicamento_repo.py:65-70 | the same for the records of a compound |
| `MedicamentoRepo.GetAll` | app/repositories/medicamentos_repo.py:12-19 | one view per stored medication, in order, `_id` as text |
| `MedicamentoRepo.ViewOf` | app/repositories/medicamentos_repo.py:17-18 | `str` applied to `_id`, the other fields copied; a definition with no contract of its own |
| `MedicamentoRepo.GetById` | app/repositories/medicamentos_repo.py:22-31 | never raises; present exactly when the id parses and a medication has it, and then it is that medication's view |
| `MedicamentoRepo.GetByIdFinds` | app/repositories/medicamentos_repo.py:22-31 | with unique ids, looking up a stored medication by its rendered id returns exactly it |
| `MedicamentoRepo.Create` | app/repositories/medicamentos_repo.py:34-45 | appends one medication under the fresh id with the input's fields, ignoring any client id; returns it, and it is what a lookup by its id returns |
| `MedicamentoRepo.Overwrite` | app/repositories/medicamentos_repo.py:54-57 | `update_one` with `$set` keeps every id, leaves every other medication unchanged, and gives the target the new fields |
| `MedicamentoRepo.Update` | app/repositories/medicamentos_repo.py:48-60 | raises on a malformed id; otherwise applies the overwrite and returns the updated view, or absent when no medication has the id |
| `MedicamentoRepo.Without` | app/repositories/medicamentos_repo.py:65 | `delete_one` removes one medication exactly when the id is present, keeps every other, and keeps ids unique |
| `MedicamentoRepo.Delete` | app/repositories/medicamentos_repo.py:63-66 | raises on a malformed id; otherwise returns whether a medication with the id existed, and removes it |
| `MedicamentoRepo.LookupCompuestos` | app/repositories/medicamentos_repo.py:73-78 | `$lookup` yields only compounds with the association's `compuesto_id` as `_id`, never more than the collection holds; that it yields all of them is `MedicamentoRepo.LookupMembers` |
| `MedicamentoRepo.Unwind` | app/repositories/medicamentos_repo.py:79 | `$unwind` gives one pair per looked-up compound, and none when the lookup is empty |
| `MedicamentoRepo.InnerJoin` | app/repositories/medicamentos_repo.py:73-79 | `$lookup` then `$unwind` over a sequence of associations; a definition with no contract of its own, whose members are stated by `MedicamentoRepo.InnerJoinMembers` |
| `MedicamentoRepo.RowOf` | app/repositories/medicamentos_repo.py:80-85 | `$project` of one pair: the compound's `_id` as text and its fields, the association's concentration and unit; a definition with no contract of its own |
| `MedicamentoRepo.Project` | app/repositories/medicamentos_repo.py:80-85 | `$project` gives exactly one row per joined pair |
| `MedicamentoRepo.ProjectAppend` | app/repositories/medicamentos_repo.py:80-85 | `$project` works row by row, so projecting a concatenation concatenates the projections |
| `MedicamentoRepo.Resolvable` | app/repositories/medicamentos_repo.py:79 | the associations `$unwind` keeps are only those whose compound exists, never more than given |
| `MedicamentoRepo.CompuestosOf` | app/repositories/medicamentos_repo.py:71-86 | the whole pipeline, `$match` on the medication's id, then `$lookup`, `$unwind` and `$project`; a definition with no contract of its own, whose rows are stated by `MedicamentoRepo.JoinMembers` and counted by `MedicamentoRepo.JoinRowCount` |
| `MedicamentoRepo.LookupMembers` | app/repositories/medicamentos_repo.py:73-78 | `$lookup` finds exactly the compounds whose `_id` is the association's `compuesto_id` |
| `MedicamentoRepo.LookupUnique` | app/repositories/medicamentos_repo.py:73-78 | with unique compound ids, the lookup finds one compound if it exists and none otherwise |
| `MedicamentoRepo.InnerJoinMembers` | app/repositories/medicamentos_repo.py:73-79 | `$lookup` then `$unwind` pairs an association with exactly the compounds it names |
| `MedicamentoRepo.InnerJoinAppend` | app/repositories/medicamentos_repo.py:73-79 | the join streams: joining a concatenation concatenates the joins |
| `MedicamentoRepo.InnerJoinCount` | app/repositories/medicamentos_repo.py:79 | `$unwind` keeps one pair per association whose compound exists and drops the dangling ones |
| `MedicamentoRepo.ResolvableAll` | app/repositories/medicamentos_repo.py:79 | with no dangling reference, `$unwind` drops nothing |
| `MedicamentoRepo.JoinMembers` | app/repositories/medicamentos_repo.py:69-93 | a row is in the result exactly when some association of the medication and the compound it names project to it (compound id as text, compound name, association concentration and unit) |
| `MedicamentoRepo.JoinEmptyWithoutReference` | app/repositories/medicamentos_repo.py:72 | the result is empty when no association references the medication |
| `MedicamentoRepo.JoinRowCount` | app/repositories/medicamentos_repo.py:71-86 | with unique compound ids, one row per association of the medication whose compound exists |
| `MedicamentoRepo.JoinOneRowPerAssociation` | app/repositories/medicamentos_repo.py:71-86 | in a linked store, one row per association of the medication |
| `MedicamentoRepo.CompuestosOfSnoc` | app/repositories/medicamentos_repo.py:88-93 | the pipeline's result can be collected one association at a time, in order |
| `MedicamentoRepo.GetCompuestosByMedicamentoId` | app/repositories/medicamentos_repo.py:69-93 | raises on a malformed id; otherwise the cursor loop collects exactly the pipeline's rows |
| `CompuestoRepo.GetAll` | app/repositories/compuesto_repo.py:12-19 | one view per stored compound, in order, `_id` as text |
| `CompuestoRepo.ViewOf` | app/repositories/compuesto_repo.py:17 | `str` applied to `_id`, the other fields copied; a definition with no contract of its own |
| `CompuestoRepo.GetById` | app/repositories/compuesto_repo.py:22-31 | never raises; present exactly when the id parses and a compound has it, and then it is that compound's view |
| `CompuestoRepo.GetByIdFinds` | app/repositories/compuesto_repo.py:22-31 | with unique ids, looking up a stored compound by its rendered id returns exactly it |
| `CompuestoRepo.Create` | app/repositories/compuesto_repo.py:34-45 | appends one compound under the fresh id with the input's name; returns it, and it is what a lookup by its id returns |
| `CompuestoRepo.Overwrite` | app/repositories/compuesto_repo.py:54-57 | `update_one` keeps every id, leaves every other compound unchanged, and gives the target the new name |
| `CompuestoRepo.Update` | app/repositories/compuesto_repo.py:48-60 | raises on a malformed id; otherwise applies the overwrite and returns the updated view, or absent when no compound has the id |
| `CompuestoRepo.Without` | app/repositories/compuesto_repo.py:65 | `delete_one` removes one compound exactly when the id is present, keeps every other, and keeps ids unique |
| `CompuestoRepo.Delete` | app/repositories/compuesto_repo.py:63-66 | raises on a malformed id; otherwise returns whether a compound with the id existed, and removes it |
| `CompuestoRepo.LookupMedicamentos` | app/repositories/compuesto_repo.py:73-78 | `$lookup` yields only medications with the association's `medicamento_id` as `_id`, never more than the collection holds; that it yields all of them is `CompuestoRepo.LookupMembers` |
| `CompuestoRepo.Unwind` | app/repositories/compuesto_repo.py:79 | `$unwind` gives one pair per looked-up medication, and none when the lookup is empty |
| `CompuestoRepo.InnerJoin` | app/repositories/compuesto_repo.py:73-79 | `$lookup` then `$unwind` over a sequence of associations; a definition with no contract of its own, whose members are stated by `CompuestoRepo.InnerJoinMembers` |
| `CompuestoRepo.RowOf` | app/repositories/compuesto_repo.py:80-86 | `$project` of one pair: the medication's `_id` as text and its fields, the association's concentration and unit; a definition with no contract of its own |
| `CompuestoRepo.Project` | app/repositories/compuesto_repo.py:80-86 | `$project` gives exactly one row per joined pair |
| `CompuestoRepo.ProjectAppend` | app/repositories/compuesto_repo.py:80-86 | `$project` works row by row, so projecting a concatenation concatenates the projections |
| `CompuestoRepo.Resolvable` | app/repositories/compuesto_repo.py:79 | the associations `$unwind` keeps are only those whose medication exists, never more than given |
| `CompuestoRepo.MedicamentosOf` | app/repositories/compuesto_repo.py:71-87 | the whole pipeline, `$match` on the compound's id, then `$lookup`, `$unwind` and `$project`; a definition with no contract of its own, whose rows are stated by `CompuestoRepo.JoinMembers` and counted by `CompuestoRepo.JoinRowCount` |
| `CompuestoRepo.LookupMembers` | app/repositories/compuesto_repo.py:73-78 | `$lookup` finds exactly the medications whose `_id` is the association's `medicamento_id` |
| `CompuestoRepo.LookupUnique` | app/repositories/compuesto_repo.py:73-78 | with unique medication ids, the lookup finds one medication if it exists and none otherwise |
| `CompuestoRepo.InnerJoinMembers` | app/repositories/compuesto_repo.py:73-79 | `$lookup` then `$unwind` pairs an association with exactly the medications it names |
| `CompuestoRepo.InnerJoinAppend` | app/repositories/compuesto_repo.py:73-79 | the join streams: joining a concatenation concatenates the joins |
| `CompuestoRepo.InnerJoinCount` | app/repositories/compuesto_repo.py:79 | one pair per association whose medication exists; dangling ones are dropped |
| `CompuestoRepo.ResolvableAll` | app/repositories/compuesto_repo.py:79 | with no dangling reference, `$unwind` drops nothing |
| `CompuestoRepo.JoinMembers` | app/repositories/compuesto_repo.py:69-94 | a row is in the result exactly when some association of the compound and the medication it names project to it (medication id as text, name, maker, association concentration and unit) |
| `CompuestoRepo.JoinEmptyWithoutReference` | app/repositories/compuesto_repo.py:72 | the result is empty when no association references the compound |
| `CompuestoRepo.JoinRowCount` | app/repositories/compuesto_repo.py:71-87 | with unique medication ids, one row per association of the compound whose medication exists |
| `CompuestoRepo.JoinOneRowPerAssociation` | app/repositories/compuesto_repo.py:71-87 | in a linked store, one row per association of the compound |
| `CompuestoRepo.MedicamentosOfSnoc` | app/repositories/compuesto_repo.py:89-94 | the pipeline's result can be collected one association at a time, in order |
| `CompuestoRepo.GetMedicamentosByCompuestoId` | app/repositories/compuesto_repo.py:69-94 | raises on a malformed id; otherwise the cursor loop collects exactly the pipeline's rows |
| `MedicamentoService.GetAllMedicamentos` | app/services/medicamento_service.py:13-15 | every stored medication, in order |
| `MedicamentoService.GetMedicamentoById` | app/services/medicamento_service.py:18-26 | `NotFound` exactly when the repository finds nothing (a malformed id included); otherwise the stored medication |
| `MedicamentoService.CreateMedicamento` | app/services/medicamento_service.py:29-43 | a blank `nombre` or `fabricante` gives `ValidationFailure` and changes nothing; otherwise exactly one medication is appended and returned; integrity is kept |
| `MedicamentoService.AppendKeepsLinked` | app/services/medicamento_service.py:43 | adding a medication keeps every association linked |
| `MedicamentoService.UpdateMedicamento` | app/services/medicamento_service.py:46-67 | `NotFound` comes before validation (blank fields of a missing id still give `NotFound`); a refusal changes nothing; otherwise the overwrite is applied and the updated medication returned |
| `MedicamentoService.CascadeKeepsLinked` | app/services/medicamento_service.py:79-83 | deleting a medication's associations and then the medication keeps the store linked |
| `MedicamentoService.DeleteAloneDangles` | app/services/medicamento_service.py:79-83 | deleting a referenced medication without the cascade would leave a dangling association |
| `MedicamentoService.CascadeEmptiesJoin` | app/services/medicamento_service.py:79-80 | after the cascade, the medication's compound lookup is empty |
| `MedicamentoService.DeleteMedicamento` | app/services/medicamento_service.py:70-89 | a missing id gives `NotFound` and changes nothing; otherwise the cascade then the delete run, the report is (true, the id as given, the number of associations removed), no association references the medication, and integrity is kept |
| `MedicamentoService.GetCompuestosByMedicamento` | app/services/medicamento_service.py:92-101 | `NotFound` for a missing medication; otherwise the repository's lookup |
| `MedicamentoService.AddCompuestoToMedicamento` | app/services/medicamento_service.py:104-146 | checks in order: medication exists, compound exists, concentration positive, unit non-blank; any refusal changes nothing; otherwise exactly one association with the given ids, concentration and unit is appended and returned, and integrity is kept (corrected read, see ## Findings; as written the returned association is absent: `CreateReReadAsWritten`) |
| `CompuestoService.GetAllCompuestos` | app/services/compuesto_service.py:11-13 | every stored compound, in order |
| `CompuestoService.GetCompuestoById` | app/services/compuesto_service.py:16-24 | `NotFound` exactly when the repository finds nothing; otherwise the stored compound |
| `CompuestoService.AppendKeepsLinked` | app/services/compuesto_service.py:35 | adding a compound keeps every association linked |
| `CompuestoService.CreateCompuesto` | app/services/compuesto_service.py:27-35 | a blank `nombre` gives `ValidationFailure` and changes nothing; otherwise exactly one compound is appended and returned |
| `CompuestoService.UpdateCompuesto` | app/services/compuesto_service.py:38-56 | `NotFound` before the name check; a refusal changes nothing; otherwise the overwrite is applied and the updated compound returned |
| `CompuestoService.CascadeKeepsLinked` | app/services/compuesto_service.py:69-73 | deleting a compound's associations and then the compound keeps the store linked |
| `CompuestoService.DeleteAloneDangles` | app/services/compuesto_service.py:69-73 | deleting a referenced compound without the cascade would leave a dangling association |
| `CompuestoService.CascadeEmptiesJoin` | app/services/compuesto_service.py:69-70 | after the cascade, the compound's medication lookup is empty |
| `CompuestoService.DeleteCompuesto` | app/services/compuesto_service.py:59-79 | a missing id gives `NotFound` and changes neither compounds nor associations; otherwise the cascade then the delete run, the report carries the count removed, no association references the compound, and integrity is kept |
| `CompuestoService.GetMedicamentosByCompuesto` | app/services/compuesto_service.py:82-91 | `NotFound` for a missing compound; otherwise the repository's lookup |

## Findings

| source | as written | input that shows it | evidently intended | confidence | as-written member | corrected member |
|---|---|---|---|---|---|---|
| app/models/compuesto_med.py:9 | the association model requires a field `unidad`, but every association the service stores has `unidad_medida` (app/services/medicamento_service.py:143); building the model in `get_by_id` always fails, the handler returns absent, so `create` inserts the record and returns absent | any `add_compuesto_to_medicamento` with an existing medication and compound, a positive concentration and a non-blank unit | the model field is named as stored, and `create` returns the record it inserted | high (not executed) | `CompuestoPorMedicamentoRepo.CreateReReadAsWritten` | `CompuestoPorMedicamentoRepo.ReReadInserted` |

The rest of the model uses the corrected read (`CompuestoPorMedicamentoRepo.GetById`),
so `CompuestoPorMedicamentoRepo.Create` and `MedicamentoService.AddCompuestoToMedicamento`
return the created association. The same mismatch makes `get_all` of the join
repository raise on a non-empty collection (`CompuestoPorMedicamentoRepo.GetAllAsWritten`).
No service calls it.

## Left out

- Asynchrony and races: every operation runs to completion, one at a time. The race between an existence check and the write that follows it is not modelled.
- The database driver is `Documents.Database`, and the fresh identifier of an insert is the parameter `newId`. The driver itself and the BSON encoding are not part of this model.
- ObjectIds.Parse rejects 24-character texts with whitespace between digit pairs. `ObjectId(s)` passes such a text on to `bytes.fromhex`, which accepts it and yields fewer than twelve bytes; what the driver then does with it is not part of this model, which treats the text as malformed.
- `concentracion` is a Python float and is modelled as `real`. A NaN passes the `concentracion <= 0` check in the source; no NaN exists in the model.
- HTTP status codes and message texts: only the error kind (`NotFound`, `ValidationFailure`) is kept.
- Pydantic validation and aliasing are not modelled. Because the model's field is `id` with alias `_id`, `dict()` emits the key `id`, so the `del "_id"` in `create` and `update` never fires. A client id is therefore stored as a stray `id` field, which nothing reads. The model drops the client id (`clientId`).
- `update` sets only the fields the request set (`exclude_unset`). Both `nombre` and `fabricante` are required fields of the request models, so the model always overwrites all of them.
- `create` of the join repository converts the foreign keys in the caller's dictionary in place. The caller never reads the dictionary again, so the model passes the keys by value.
- The cascade-delete report names its id key `id` in the medication service and `compuesto_id` in the compound service. Both are `Documents.DeleteReport.id`.
- Controllers, the application entry point, the data import and collection set-up scripts and the connection check are not part of this model.

