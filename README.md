# pet-form core, modelled in Dafny

This project models the sequential logic of the pet-clinic back end (Rust, axum, sqlx over
MySQL) and the three Pinia stores of its Nuxt front end, and proves what that logic promises.

- **Visits** (`service_instance_queries.rs`).
  - `insert_service_instance` writes one `service_instance` row, then its service types,
    groomings, preventive-care treatments and at most one surgery, inside one transaction, and
    returns the assembled aggregate.
  - The database is a value of `Tables`: one sequence per table plus the auto-increment counters.
    The transaction is a method working on a copy of it. `Database` (a class) keeps the copy only
    when every statement succeeded.
  - Which statement the server rejects, and with what error, is a parameter (`faults`).
  - `get_services_history_of_pet` folds the joined (visit, service type) rows into one entry per
    run of equal `service_instance_id`. The fold is a method with a loop, proved equal to the
    function `Group`; `Group` is tied to its inverse `Ungroup` in both directions.
- **Partial updates** (`update_owner`, `update_pet`). The builders append `column = ?, ` and the
  value for every supplied field, cut the trailing `", "` and add the key clause. They are
  methods proved equal to the reference statement `PartialUpdate.UpdateStatement`. Lemmas show
  that placeholders and bound values always line up, and cover the empty update and the effect of
  one more field. The listing and counting statements of `owner_queries.rs` are modelled too;
  `count_all_owners` pastes the search term into the SQL text, and the lemma about it says what
  that lets through.
- **Validation and error mapping.** `validate_field`, the three per-entity validators (first
  present-and-blank field wins; then the negative-weight rule for pets),
  `handle_duplicate_entry_error` (409 when the error text mentions a duplicate entry, otherwise
  500 quoting the text in Debug form), the delete replies (rows affected to 200 or 404), the
  update handlers' query sequence, and the `limit`/`offset` arithmetic of the listing handlers,
  including the `usize` panics of a debug build and the `as i32` wrap-around.
- **Schema script** (`create_tables`). The script is split on `;`, blank pieces are skipped and
  the rest are executed in order until the first error. The loop is a method proved against the
  function `Statements`.
- **Front-end stores.** `form`, `refetch` and `dateRange` are classes whose actions update their
  fields, each specified by a step function on the state, with lemmas on sequences of actions.

Dates and identifiers are text. An `f32` weight is a `real`, and its `to_string` rendering is a
function parameter. An `sqlx::Error` is seen through its two renderings (`to_string()` and
`{:?}`).

Where the code and the schema it is written against disagree, the model follows the code:
- the surgery insert binds `surgery_name`, whereas the schema struct declares `surgery_type`;
- `veterinarian_diagnosis` is echoed in the returned surgery but is not among the inserted columns;
- `setValid` in the form store toggles `isValid` rather than setting it.

## Model

| member | source | states |
|---|---|---|
| ServiceInstanceQueries.Database.InsertServiceInstance | pet-api/src/db/queries/service_instance_queries.rs:48-175 | All or nothing: it succeeds exactly when every planned statement succeeds (the parent insert of an id already present fails as a duplicate key). On success the tables gain exactly the rows of `Inserted` and the result is `Assembled`. On failure the tables are unchanged. The schema invariant is kept. |
| ServiceInstanceQueries.Database.constructor | pet-api/src/db/queries/init_tables.rs:1-12 | A fresh database has empty tables, auto-increment counters at 1, and satisfies the schema invariant. |
| ServiceInstanceQueries.KeyChecked | pet-api/src/db/queries/service_instance_queries.rs:64-73 | The parent insert of an id already in `service_instance` is rejected; every other statement is answered as before. |
| ServiceInstanceInsert.InsertTransaction | pet-api/src/db/queries/service_instance_queries.rs:48-175 | The first rejected statement ends the call with its error, after a successful prefix of the plan and before `commit`. Otherwise every statement of the plan ran, the working copy is `Inserted` and the result is `Assembled`. |
| ServiceInstanceInsert.InsertAfterParent | pet-api/src/db/queries/service_instance_queries.rs:75-174 | The same, once the transaction is open and the parent row is in. |
| ServiceInstanceInsert.InsertChildren | pet-api/src/db/queries/service_instance_queries.rs:75-121 | The three child loops either stop at a rejected statement within the plan, or issue all their inserts and leave the copy holding the types, groomings and treatments, with the returned records built from the inserted rows. |
| ServiceInstanceInsert.InsertTypes | pet-api/src/db/queries/service_instance_queries.rs:75-83 | One insert per service type in order. It stops at the first rejected one; otherwise it writes `TypeRows` and collects the names unchanged. |
| ServiceInstanceInsert.InsertGroomings | pet-api/src/db/queries/service_instance_queries.rs:85-102 | One insert per grooming type, ids consecutive from the counter, each returned grooming carrying its own row's id. It stops at the first rejected insert. |
| ServiceInstanceInsert.InsertCares | pet-api/src/db/queries/service_instance_queries.rs:104-121 | One insert per treatment, all with the request's single vet, ids consecutive from the counter. It stops at the first rejected insert. |
| ServiceInstanceInsert.InsertSurgeryRow | pet-api/src/db/queries/service_instance_queries.rs:123-146 | At most one surgery insert, and only when a surgery is supplied. On success, the surgery returned carries its row's id. |
| ServiceInstanceInsert.Assembled | pet-api/src/db/queries/service_instance_queries.rs:150-174 | The result echoes every scalar field and `service_type` of the request. `grooming`, `preventive_care` and `surgery` are `None` exactly when nothing of that kind was supplied (never `Some([])`). |
| ServiceInstanceQueries.PlanOrder | pet-api/src/db/queries/service_instance_queries.rs:62-148 | `begin` comes first, the parent insert second and `commit` last; `commit` appears nowhere else, and every child insert lies strictly between. |
| ServiceInstanceQueries.ParentFirst | pet-api/src/db/queries/service_instance_queries.rs:64-76 | Whatever statement the call stopped at, a child insert was issued only after the parent insert had succeeded. |
| ServiceInstanceQueries.ServiceTypesAdded | pet-api/src/db/queries/service_instance_queries.rs:75-83 | Exactly one `service_type` row per listed name, in order, duplicates kept, bound to the new id; earlier rows are untouched. |
| ServiceInstanceQueries.GroomingsAdded | pet-api/src/db/queries/service_instance_queries.rs:85-102 | One `grooming` row per type, in order, with consecutive ids from the counter, which advances by their number. |
| ServiceInstanceQueries.PreventiveCaresAdded | pet-api/src/db/queries/service_instance_queries.rs:104-121 | One `preventive_care` row per treatment, in order, all sharing the supplied vet and the new instance id. |
| ServiceInstanceQueries.NoPreventiveCareAdded | pet-api/src/db/queries/service_instance_queries.rs:104-168 | Without preventive care in the request, no row is written and the result's `preventive_care` is `None`. |
| ServiceInstanceQueries.SurgeryAdded | pet-api/src/db/queries/service_instance_queries.rs:123-173 | At most one `surgery` row, added exactly when a surgery was supplied. The result's surgery is that supplied record with the new row's id. |
| ServiceInstanceQueries.ReturnedChildren | pet-api/src/db/queries/service_instance_queries.rs:94-168 | Each returned grooming and treatment is the inserted row at the same position, with that row's id narrowed to `i32`. A list is returned only when non-empty. |
| ServiceInstanceQueries.DiagnosisNotStored | pet-api/src/db/queries/service_instance_queries.rs:125-145 | The surgery's `veterinarian_diagnosis` changes the returned record but never the rows written. |
| ServiceInstanceQueries.InsertedValid | pet-api/src/db/queries/service_instance_queries.rs:64-146 | A committed insert of a new id keeps the schema invariant: primary keys unique, every child refers to an existing visit, auto-increment ids distinct and below their counters. |
| ServicesHistory.ServicesHistoryOf | pet-api/src/db/queries/service_instance_queries.rs:198-231 | The fold with `current_service` taken, replaced and pushed after the last row equals `Group(rows)`. |
| ServicesHistory.StepExtends | pet-api/src/db/queries/service_instance_queries.rs:205-208 | A row with the id of the entry being built adds its service type to that entry. |
| ServicesHistory.StepOpens | pet-api/src/db/queries/service_instance_queries.rs:209-223 | A row with any other id closes that entry and opens a new one holding just its own service type. |
| ServicesHistory.UngroupGroup | pet-api/src/db/queries/service_instance_queries.rs:198-231 | Expanding the entries gives back the rows, each with the visit columns of the first row of its run. There are entries exactly when there are rows. |
| ServicesHistory.RunHeadsConsistent | pet-api/src/db/queries/service_instance_queries.rs:214-222 | When rows of one visit repeat the same columns (as the join produces them), taking each entry's columns from the run's first row loses nothing. |
| ServicesHistory.UngroupGroupRows | pet-api/src/db/queries/service_instance_queries.rs:198-231 | On such rows every row lands in exactly one entry, in order: expanding the entries gives back the rows. |
| ServicesHistory.GroupUngroup | pet-api/src/db/queries/service_instance_queries.rs:198-231 | Conversely, grouping the rows of well-formed entries gives back those entries. |
| ServicesHistory.GroupRows | pet-api/src/db/queries/service_instance_queries.rs:205-223 | The rows of one visit whose id differs from the last entry's add exactly one entry, holding their service types. |
| ServicesHistory.GroupWellFormed | pet-api/src/db/queries/service_instance_queries.rs:205-223 | Every entry has at least one service type, neighbouring entries have different ids (one entry per maximal run), and the last entry has the last row's id. |
| ServicesHistory.GroupShorter | pet-api/src/db/queries/service_instance_queries.rs:198-231 | There are never more entries than rows, and no rows give no entries. |
| ServicesHistory.GroupKeepsTags | pet-api/src/db/queries/service_instance_queries.rs:207-217 | The entries' service types, concatenated, are the rows' service types in row order, so their total count is the number of rows. |
| ServicesHistory.GroupAscending | pet-api/src/db/queries/service_instance_queries.rs:188-231 | Rows ordered by id give entries whose ids strictly ascend. |
| PartialUpdate.PushIfSupplied | pet-api/src/db/queries/owner_queries.rs:94-112 | An `if let Some(..)` block appends `column = ?, ` and the value exactly when the field is supplied, and advances the builder by one field. |
| PartialUpdate.BuiltStep | pet-api/src/db/queries/owner_queries.rs:94-97 | The builder state after one more field is the pending text and values of one more assignment. |
| PartialUpdate.FinishUpdate | pet-api/src/db/queries/owner_queries.rs:114-125 | Cutting a trailing `", "`, appending the key clause and binding every value in order yields the reference `UpdateStatement`. |
| PartialUpdate.BuiltFinish | pet-api/src/db/queries/owner_queries.rs:114-125 | The same fact about the builder's text and values. |
| PartialUpdate.Truncate | pet-api/src/db/queries/owner_queries.rs:114-116 | The text ends in `", "` exactly when some field was supplied, and cutting those two characters leaves the SET list. |
| PartialUpdate.PendingIsSetList | pet-api/src/db/queries/owner_queries.rs:114-116 | The pending text of supplied assignments is the SET list followed by one `", "`. |
| PartialUpdate.SetListEndsCleanly | pet-api/src/db/queries/owner_queries.rs:114-118 | A non-empty SET list ends in its last `?`, so no `", "` is left before `WHERE`. |
| PartialUpdate.NoDanglingSeparator | pet-api/src/db/queries/owner_queries.rs:114-118 | If the head does not end in `", "`, the head followed by the SET list of any supplied fields does not end in `", "` either. |
| PartialUpdate.PlaceholdersMatchParams | pet-api/src/db/queries/owner_queries.rs:91-125 | Whichever fields are supplied, the statement has one `?` per bound value. |
| PartialUpdate.SetListPlaceholders | pet-api/src/db/queries/owner_queries.rs:94-112 | A SET list has exactly one `?` per assignment. |
| PartialUpdate.SuppliedCount | pet-api/src/db/queries/owner_queries.rs:94-112 | The assignments are exactly as many as the supplied fields. |
| PartialUpdate.NoneSupplied | pet-api/src/db/queries/owner_queries.rs:91-119 | With no field supplied there is no assignment. |
| PartialUpdate.SupplyOneMore | pet-api/src/db/queries/pet_queries.rs:82-115 | Supplying one more field adds exactly one placeholder and one bound value. |
| PartialUpdate.Supplied4 | pet-api/src/db/queries/owner_queries.rs:94-112 | The assignments of the four owner fields are those of each field, in order. |
| PartialUpdate.Supplied7 | pet-api/src/db/queries/pet_queries.rs:82-115 | The assignments of the seven pet fields are those of each field, in order. |
| OwnerQueries.UpdateOwner | pet-api/src/db/queries/owner_queries.rs:83-130 | The statement names exactly the supplied columns in the order name, email, phone number, address. The values follow that order with `owner_id` last. No `", "` is left before `WHERE` (PartialUpdate.NoDanglingSeparator). |
| OwnerQueries.UpdateOwnerAligned | pet-api/src/db/queries/owner_queries.rs:91-125 | For every combination of supplied fields, the number of `?` equals the number of bound values. |
| OwnerQueries.UpdateOwnerEmpty | pet-api/src/db/queries/owner_queries.rs:91-119 | With nothing supplied nothing is cut: the text is `UPDATE owner SET  WHERE owner_id = ?` and only the key is bound. |
| OwnerQueries.SelectAllOwners | pet-api/src/db/queries/owner_queries.rs:45-74 | With a term: filter on `owner_name LIKE ?` and bind `%term%`, the limit and the offset. Without one: bind only the limit and the offset. Both are ordered by name and aligned. |
| OwnerQueries.SelectTextsAligned | pet-api/src/db/queries/owner_queries.rs:51-66 | The filtered listing text holds three placeholders and the unfiltered one two. |
| OwnerQueries.CountAllOwners | pet-api/src/db/queries/owner_queries.rs:147-160 | No value is bound; the text is the base, plus the `LIKE '%term%'` filter when a term is given. |
| OwnerQueries.CountQueryInjection | pet-api/src/db/queries/owner_queries.rs:148-154 | The term lands verbatim in the SQL: its `?` become placeholders, so the statement is aligned exactly when the term has none. Each `'` in it adds to the two delimiting quotes. |
| PetQueries.UpdatePet | pet-api/src/db/queries/pet_queries.rs:68-133 | Exactly the supplied columns, in the order name, birth date, type, breed, weight, color, owner, with their values in that order and `pet_id` last. The weight is bound as its rendered text. No `", "` is left before `WHERE` (PartialUpdate.NoDanglingSeparator). |
| PetQueries.UpdatePetAligned | pet-api/src/db/queries/pet_queries.rs:79-128 | For all 128 combinations of supplied fields, placeholders and bound values line up. |
| PetQueries.UpdatePetEmpty | pet-api/src/db/queries/pet_queries.rs:79-121 | With nothing supplied nothing is cut: the text is `UPDATE pet SET  WHERE pet_id = ?` and only the key is bound. |
| PetQueries.UpdateWeightOnly | pet-api/src/db/queries/pet_queries.rs:102-121 | With only the weight, the text is `UPDATE pet SET pet_weight = ? WHERE pet_id = ?`, binding the rendered weight, then the id. |
| Sql.AsI32 | pet-api/src/handlers/owner_handler.rs:39 | `as i32` leaves a value in `i32` range unchanged. |
| Sql.AsI32Wraps | pet-api/src/handlers/owner_handler.rs:39 | `as i32` keeps the value modulo 2^32: low 32 bits, two's complement. |
| Sql.BindAll | pet-api/src/db/queries/owner_queries.rs:121-125 | The `for param in params` loop binds every value in order, as text. |
| Sql.Bind | pet-api/src/db/queries/pet_queries.rs:124-128 | One bound text parameter per value, position by position. |
| Validator.ValidateField | pet-api/src/utils/validator.rs:1-9 | It fails exactly when the field is present and all white space; the error is the given message verbatim. Absent or non-blank fields pass. |
| Validator.ValidateInOrder | pet-api/src/handlers/owner_handler.rs:213-223 | A `?` chain of field checks passes exactly when no field is present and blank. |
| Validator.FirstBlankDecides | pet-api/src/handlers/owner_handler.rs:213-223 | The first present-and-blank field names the error, whatever follows. |
| Text.TrimEmptyIffBlank | pet-api/src/utils/validator.rs:3 | `trim().is_empty()` holds exactly when every character is Unicode white space. |
| Text.TrimIsEmpty | pet-api/src/db/queries/init_tables.rs:6 | The same test as a method. |
| Text.Split | pet-api/src/db/queries/init_tables.rs:3 | Splitting on `;` gives one more piece than there are separators. |
| Text.SplitPiecesFree | pet-api/src/db/queries/init_tables.rs:3 | No piece holds the separator. |
| Text.DebugStringRoundTrip | pet-api/src/utils/handle_duplicate_error.rs:16 | The `{:?}` rendering of the error text can be read back to that text. |
| DuplicateError.HandleDuplicateEntryError | pet-api/src/utils/handle_duplicate_error.rs:5-18 | It never returns `Ok`. A 409 with status "fail" and "<entity> already exists" exactly when the text contains "Duplicate entry"; otherwise a 500 with status "error" whose message reads back to the error text. |
| DuplicateError.ClassificationIgnoresEntity | pet-api/src/utils/handle_duplicate_error.rs:6-7 | The status code never depends on the entity name. |
| DuplicateError.DuplicateKeyIsConflict | pet-api/src/utils/handle_duplicate_error.rs:7-12 | MySQL's primary-key duplicate message is classified as a conflict. |
| Handlers.Paginate | pet-api/src/handlers/owner_handler.rs:29-39 | Defaults are limit 10 and page 1. Page 0 panics on the `usize` subtraction and an offset past `usize::MAX` on the multiplication. Otherwise the bound limit and offset are `limit` and `(page - 1) * limit` modulo 2^32. |
| Handlers.DefaultWindow | pet-api/src/handlers/owner_handler.rs:29-30 | With no options the first ten rows are listed (offset 0). |
| Handlers.PagesTile | pet-api/src/handlers/pet_handler.rs:24-25 | Within `i32` range, page `p + 1` starts where page `p` ends. |
| Handlers.PageWindow | pet-api/src/handlers/vet_handler.rs:25-26 | Within `i32` range, page `p` is the window at offset `(p - 1) * limit`. |
| Handlers.DeleteReply | pet-api/src/handlers/owner_handler.rs:190-210 | 200 exactly when a row went; 0 rows give 404 "<Entity> not found"; a storage error gives 500 with its Debug text. |
| Handlers.RowsDeleted | pet-api/src/db/queries/owner_queries.rs:76-82 | A delete by key affects one row exactly when the key is present, none otherwise. |
| Handlers.DeleteTwice | pet-api/src/handlers/owner_handler.rs:190-210 | Deleting the same row twice: the first succeeds and the second is 404. |
| Handlers.UpdateFlow | pet-api/src/handlers/owner_handler.rs:124-182 | A failed validation is 400 and issues no query. Otherwise lookup, update and re-read run in order up to the first failure. Success exactly when all three succeed. A failed lookup is 404 with the error's Debug text, a failed update goes through the duplicate-entry mapping, a failed re-read is 500 with the error's Debug text. |
| Handlers.MissingRowNotUpdated | pet-api/src/handlers/owner_handler.rs:138-180 | A row the lookup does not find gives 404 and is never updated. |
| Handlers.UpdateConflict | pet-api/src/handlers/owner_handler.rs:147-159 | A rejected update is 409 exactly when the database reports a duplicate entry. |
| OwnerHandler.ValidateOwnerFields | pet-api/src/handlers/owner_handler.rs:213-223 | Name, email, phone number and address are checked in that order; the first present-and-blank one gives its message, and validation passes exactly when none is. |
| OwnerHandler.EmptyBodyValid | pet-api/src/handlers/owner_handler.rs:213-223 | A body with every field absent is valid. |
| OwnerHandler.UpdateOwnerHandler | pet-api/src/handlers/owner_handler.rs:124-182 | Invalid bodies get 400 before any query; success is "Owner updated successfully" after all three queries. |
| OwnerHandler.DeleteOwnerHandler | pet-api/src/handlers/owner_handler.rs:184-211 | rows > 0 gives 200, 0 gives 404 "Owner not found", a storage error gives 500 with the error's Debug text. |
| PetHandler.ValidatePetFields | pet-api/src/handlers/pet_handler.rs:201-215 | Name, type, breed, color and owner id are checked in order, first failure named; only then is a negative weight rejected. It passes exactly when none fails. |
| PetHandler.BirthDateNotValidated | pet-api/src/handlers/pet_handler.rs:201-215 | The birth date never affects validation. |
| PetHandler.ZeroWeightAccepted | pet-api/src/handlers/pet_handler.rs:208-212 | A zero weight passes. |
| PetHandler.UpdatePetHandler | pet-api/src/handlers/pet_handler.rs:114-177 | Invalid bodies get 400 before any query; success is "Pet updated successfully" after all three queries. |
| PetHandler.DeletePetHandler | pet-api/src/handlers/pet_handler.rs:90-112 | rows > 0 gives 200, 0 gives 404 "Pet not found", a storage error gives 500 with the error's Debug text. |
| VetHandler.ValidateVetFields | pet-api/src/handlers/vet_handler.rs:196-205 | Name, email, phone number and license number are checked in order, first failure named; it passes exactly when none is present and blank. |
| VetHandler.UpdateVetHandler | pet-api/src/handlers/vet_handler.rs:137-194 | Invalid bodies get 400 before any query; success is "Vet updated successfully" after all three queries. |
| VetHandler.DeleteVetHandler | pet-api/src/handlers/vet_handler.rs:110-135 | rows > 0 gives 200, 0 gives 404 "Vet not found", a storage error gives 500 with the error's Debug text. |
| InitTables.CreateTables | pet-api/src/db/queries/init_tables.rs:1-12 | The statements sent are a prefix of the script's non-blank `;`-pieces, in order. All before the last succeeded. `Ok` exactly when all were sent and succeeded; otherwise the error is the last one's. |
| InitTables.ExecuteEach | pet-api/src/db/queries/init_tables.rs:5-9 | The same for the loop over the pieces: blank pieces skipped, the first error stops it. |
| InitTables.StatementsBound | pet-api/src/db/queries/init_tables.rs:3-8 | At most one statement more than there are `;`. |
| InitTables.StatementsAreNonBlankPieces | pet-api/src/db/queries/init_tables.rs:3-7 | Every statement sent is non-blank and holds no `;`. |
| InitTables.TrailingSeparatorIgnored | pet-api/src/db/queries/init_tables.rs:3-6 | A final `;` changes nothing: the blank piece after it is never executed. |
| InitTables.BlankScriptRunsNothing | pet-api/src/db/queries/init_tables.rs:3-8 | A script of separators and white space executes nothing. |
| FormCheckStore.ValidateFormStep | pet-app/stores/formCheck.ts:9-11 | `validateForm` negates `triggerValidation` and keeps `isValid`. |
| FormCheckStore.SetValidStep | pet-app/stores/formCheck.ts:12-14 | `setValid` negates `isValid` and keeps the trigger. |
| FormCheckStore.SetInvalidStep | pet-app/stores/formCheck.ts:15-17 | `setInvalid` makes `isValid` false and keeps the trigger. |
| FormCheckStore.SetValidTwice | pet-app/stores/formCheck.ts:12-14 | Two `setValid` calls restore the state; from the initial state one call marks the form valid. |
| FormCheckStore.SetInvalidIdempotent | pet-app/stores/formCheck.ts:15-17 | `setInvalid` is idempotent and absorbs an earlier `setValid`. |
| FormCheckStore.FormCheck.constructor | pet-app/stores/formCheck.ts:4-7 | Both flags start false. |
| FormCheckStore.FormCheck.ValidateForm | pet-app/stores/formCheck.ts:9-11 | The store's new state is `ValidateFormStep` of the old one. |
| FormCheckStore.FormCheck.SetValid | pet-app/stores/formCheck.ts:12-14 | The store's new state is `SetValidStep` of the old one. |
| FormCheckStore.FormCheck.SetInvalid | pet-app/stores/formCheck.ts:15-17 | The store's new state is `SetInvalidStep` of the old one. |
| RefetchStore.TriggerStep | pet-app/stores/refetch.ts:8-10 | `triggerRefetch` changes the flag. |
| RefetchStore.TriggerTwice | pet-app/stores/refetch.ts:8-10 | Two triggers restore the flag. |
| RefetchStore.TriggeredParity | pet-app/stores/refetch.ts:4-10 | After `n` triggers from the initial state, a refetch is pending exactly when `n` is odd. |
| RefetchStore.Refetch.constructor | pet-app/stores/refetch.ts:4-6 | `needRefetch` starts false. |
| RefetchStore.Refetch.TriggerRefetch | pet-app/stores/refetch.ts:8-10 | The new flag is the negation of the old one. |
| DateRangeStore.UpdateStep | pet-app/stores/dateRange.ts:9-12 | Both dates are replaced by the arguments. |
| DateRangeStore.UpdateIdempotent | pet-app/stores/dateRange.ts:9-12 | Repeating a call changes nothing. |
| DateRangeStore.LastCallWins | pet-app/stores/dateRange.ts:4-12 | After any calls the state holds the last call's arguments, or the initial empty range after none. |
| DateRangeStore.EarlierCallsForgotten | pet-app/stores/dateRange.ts:9-12 | Earlier calls and the starting state leave no trace. |
| DateRangeStore.DateRange.constructor | pet-app/stores/dateRange.ts:4-7 | `start` and `end` start empty. |
| DateRangeStore.DateRange.UpdateDateRange | pet-app/stores/dateRange.ts:9-12 | The new state is `UpdateStep` of the old one with the call's arguments. |

## Left out

- Database I/O and the sqlx pool are not modelled. The server's answers are parameters: `faults` for the visit insert, `execute` for the schema script, `answer` for the update handlers, and the rows-affected outcome for deletes.
- InnoDB consumes auto-increment values even when a transaction rolls back. The model keeps the counters of a rolled-back call unchanged.
- Concurrency is not modelled: transaction isolation and other clients' writes between a handler's lookup, update and re-read.
- The history model receives the joined rows as given; the SQL that produces them is not modelled.
  - `LIMIT ? OFFSET ?` applies to joined rows, so a visit can be split across pages.
  - MySQL's collation is not modelled. `ServicesHistory.GroupAscending` takes the order on ids as a parameter.
  - A visit without any service type yields a NULL `service_type_name` from the LEFT JOIN, which the source decodes as a non-optional `String`. Every modelled row carries a type.
- ServicesHistory.RunHeadsConsistent: an entry's visit columns come from the first row of its run. The model proves this loses nothing only when the rows of one visit agree, as rows of a join do.
- The `f32` weight is a `real`. Its `to_string` rendering is a parameter `render` and NaN is not modelled, so `PetHandler.ValidatePetFields` compares the weight with zero exactly.
- `total_pages` (an `f64` division and `ceil`) is not modelled: it is floating point and does not feed any query.
- The page `usize` is taken as 64 bits. Panics are those of a debug build; a release build would wrap instead.
- Text.DebugStringRoundTrip: `{:?}` is modelled for the six escapes `\0 \t \r \n \\ \"`. The `\u{..}` escapes of other non-printable characters are not modelled.
- Unicode white space follows `char::is_whitespace`. Strings are sequences of characters, with no encoding.
- The other queries and handlers (`insert_*`, `select_*`, `get_owner_and_pets`, statistics, vets' queries, the index and route files), JSON record shaping and `filter_db_record` are not modelled. Nor are UUID and date generation, configuration and start-up, and the front end's API clients.
- ServiceInstanceQueries.Database.InsertServiceInstance: of the schema's constraints only the primary key of `service_instance` is checked. Foreign keys and other unique keys are left to `faults`.
