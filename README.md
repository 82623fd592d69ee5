# Mass validator: row models and siret verification

A Dafny model of the validation engine of the mass validator, a service that
checks spreadsheets of waste-tracking establishments before they are imported.
One workbook has an establishments tab and a roles tab.

- **Rows.** Each data row of a tab becomes a row object built by `from_dict`.
  There are two establishment shapes (`EtabCreateRow`, `EtabUpdateRow`) and one
  role shape (`RoleRow`). A row keeps its cells, an append-only `errors` list
  and a `validated` flag. Reading `is_valid` before `validate` has run raises.
- **Checks.** `validate` runs the field checks in a fixed order and appends one
  `RowError` per failing check. The checks are:
  - the siret length;
  - the company categories;
  - the three subtype families, each gated by its parent category;
  - the phone grammar;
  - the contact email;
  - for roles: the role, siret membership in the establishments tab, and the
    mandatory email.
- **Collections.** `EtabCreateRows`, `EtabUpdateRows` and `RoleRows` are read
  from a worksheet. The first row read is skipped, all-empty rows are dropped,
  and the others are numbered by position. Batch validation sits behind row
  count gates: at least 10 rows for create, 3 for update, at most 500. The two
  tabs are cross-checked:
  - a role's siret must be an establishment siret;
  - a `(siret, email)` key repeated in the roles tab is flagged on every later
    occurrence;
  - every establishment needs an ADMIN role.
- **Task.** `check_sirets` looks up every establishment siret with an external
  oracle, in order. It reports `round(100 * k / n)` after the `k`-th entry and
  100 at the end, and returns the entries the oracle rejected.

## Form of the model

- `values.dfy` holds the Python values the code handles:
  - optional strings;
  - cells;
  - raised exceptions (`Outcome`);
  - `str()`, `str.join` and its inverse `split`.
- `taxonomy.dfy` holds the category constants.
- `fields.dfy` holds the field predicates as pure functions.
- `row_error.dfy` holds `RowError` and its message dispatch.
- `rows.dfy` holds two things:
  - A pure specification of a validation pass: `RunFrom` over a sequence of
    `Check`s, plus the three check lists.
  - The three row classes. Each has `const` cells, mutable `errors` and
    `validated`, and `Validate` methods proved to leave exactly the state the
    pass specification gives.
- `collections.dfy` holds the three collection classes:
  - fields `header`, `rows` and the flags;
  - methods with loops for `validate`, `validate_have_admin` and the duplicate
    pass;
  - `from_worksheet` as a loop proved against `Collect`, a pure fold over the
    `from_dict` outcomes.
- `tasks.py`'s loop is `Tasks.CheckSirets`, proved against the pure `Failing`
  and `ProgressAt`. The oracle lookups and the task-state updates are kept,
  interleaved in the order they happen, as one ghost trace of events.

Four behaviours of the code worth noting:

- `validate_has_admin` sets `validated` only when it appends its error.
- `check_sirets` calls the oracle once per entry, duplicates included.
- Category fields are lists, not sets.
- A row's `validate` that hits `"X" not in None` raises `TypeError` before
  `validated` is set.

## Model

| member | source | states |
|---|---|---|
| `Values.Str` | src/mass_validator/validator/row_models.py:59 | `str()` of a present string is the string; of None, the string `"None"` |
| `Values.SplitJoin` | src/mass_validator/validator/row_models.py:99-101 | splitting a comma-joined non-empty list of comma-free items gives the list back |
| `Values.NatToStringRoundTrip` | src/mass_validator/validator/row_models.py:174 | the decimal rendering of a row number reads back as that number |
| `Taxonomy.ParentsAreCompanyTypes` | src/mass_validator/validator/row_models.py:210-230 | each subtype family's parent category (COLLECTOR, WASTEPROCESSOR, WASTE_VEHICLES) is itself a company type |
| `Taxonomy.NoCommas` | src/mass_validator/validator/row_models.py:27-30 | no taxonomy member contains a comma, so the joined lists can be split back |
| `Fields.SiretRule` | src/mass_validator/validator/row_models.py:58-59 | a siret is valid iff it is present and has exactly 14 characters; an absent one never is |
| `Fields.SubtypeRule` | src/mass_validator/validator/row_models.py:210-230 | an empty or absent subtype list is valid; a non-empty one is valid iff its parent is in `companyTypes` and all members are allowed; it raises iff the list is non-empty and `companyTypes` is None |
| `Fields.RoleIsValidIsUserRoles` | src/mass_validator/validator/row_models.py:420-421 | a role is valid iff it is one of the user roles MEMBER, ADMIN |
| `Fields.PhoneGrammarShape` | src/mass_validator/validator/row_models.py:33 | a number matching the grammar has 10 to 14 characters, ten ASCII digits starting `0[1-9]`, and otherwise only separators |
| `Fields.PhoneRenderAccepted` | src/mass_validator/validator/row_models.py:33 | ten digits starting `0[1-9]`, with any choice of optional separators `[ _.-]` before the four pairs, are accepted, with or without a trailing newline |
| `Fields.PhoneAcceptedExamples` | src/mass_validator/validator/row_models.py:232-235 | an absent or empty phone is valid, and so is `0123456789` |
| `Fields.PhoneAcceptedSpaced` | src/mass_validator/validator/row_models.py:33 | `01 23 45 67 89` is accepted |
| `Fields.PhoneRejectedExamples` | src/mass_validator/validator/row_models.py:33 | a wrong first digit, a zero second digit, nine digits and a doubled separator are rejected |
| `Fields.PhoneGrammarRejectsShort` | src/mass_validator/validator/row_models.py:33 | no string shorter than ten characters matches |
| `RowErrors.DisplayableValueRoundTrip` | src/mass_validator/validator/row_models.py:97-101 | only a `companyTypes` list is shown joined, and that text splits back into the list; every other value is shown unchanged |
| `RowErrors.VerboseTotality` | src/mass_validator/validator/row_models.py:106-137 | referential errors always have a message; a field error has one iff its field has an entry, so never for `contactPhone`; the message depends only on error type and field |
| `Rows.CreateFromDictSpec` | src/mass_validator/validator/row_models.py:61-66 | no row iff every cell is falsy; TypeError iff some keyword is not a create-row attribute; otherwise a row numbered `idx` whose every one of the eleven cells is read from the raw row: a text or list cell gives its value, a None cell None, a missing text keyword `""` and a missing list keyword `[]` |
| `Rows.UpdateFromDictSpec` | src/mass_validator/validator/row_models.py:61-66 | the same for the update shape and its five cells |
| `Rows.RoleFromDictSpec` | src/mass_validator/validator/row_models.py:61-66 | the same for roles, where a missing keyword raises too since role cells have no default: a built row has all three keywords, each cell its text or None |
| `Rows.RunFromPrior` | src/mass_validator/validator/row_models.py:248-312 | a pass appends to the errors already there and what it appends does not depend on them |
| `Rows.RunFromRaised` | src/mass_validator/validator/row_models.py:267-293 | a pass raises exactly the exception of its first raising check |
| `Rows.RunFromMembers` | src/mass_validator/validator/row_models.py:248-312 | a pass records exactly the errors of the checks that fail before the first raising one |
| `Rows.RunFromExtends` | src/mass_validator/validator/row_models.py:248-312 | running a longer check list runs its prefix first, then continues unless the prefix raised |
| `Rows.RunReports` | src/mass_validator/validator/row_models.py:248-312 | with checks on distinct fields, a field is reported iff its check fails before the pass stops |
| `Rows.EstablishmentStop` | src/mass_validator/validator/row_models.py:210-230 | the establishment checks stop, with TypeError, exactly when `companyTypes` is None and a subtype list is non-empty; no subtype check that fails is after the stop |
| `Rows.EstablishmentFacts` | src/mass_validator/validator/row_models.py:248-293 | for the first five checks of a pass: what it raises, which fields it reports (each iff its rule fails), and when it is clean |
| `Rows.UpdateValidationSpec` | src/mass_validator/validator/row_models.py:631-695 | the update pass raises iff a subtype check meets an absent `companyTypes`; each of the five fields is reported iff its rule fails; all errors are field errors of this row; it is clean iff all five rules hold |
| `Rows.CreateValidationSpec` | src/mass_validator/validator/row_models.py:248-312 | the create pass: the same five facts, plus phone and contact email reported iff the pass reaches them and they fail; clean iff the update pass over the same cells is clean and phone and email are valid |
| `Rows.CreateExtendsUpdate` | src/mass_validator/validator/row_models.py:248-312 | the create pass raises what the update pass raises and its errors extend the update pass's |
| `Rows.RoleValidationSpec` | src/mass_validator/validator/row_models.py:438-476 | the role pass never raises; role, siret, siret-missing-from-etab and email are each reported iff their rule fails; no error iff all four hold |
| `Rows.CreateErrorsRender` | src/mass_validator/validator/row_models.py:129-137 | every error a create pass records has a message, except a `contactPhone` error |
| `Rows.UpdateAndRoleErrorsRender` | src/mass_validator/validator/row_models.py:129-137 | every error of an update or role pass, and every no-admin and duplicate error, has a message |
| `Rows.IsValidGate` | src/mass_validator/validator/row_models.py:51-56 | `is_valid` raises iff not validated; once validated it is true iff there is no error |
| `Rows.UpdateAsJsonShape` | src/mass_validator/validator/row_models.py:582-600 | the export has exactly the five fields, the siret under `orgId`, every category field carrying its list or `[]` for None, and no internal attribute |
| `Rows.EtabCreateRow.constructor` | src/mass_validator/validator/row_models.py:150-166 | a new row has its cells, no error and is not validated |
| `Rows.EtabCreateRow.Validate` | src/mass_validator/validator/row_models.py:248-312 | the new errors and the exception are those of the create pass from the old errors; `validated` is set iff nothing raised |
| `Rows.EtabCreateRow.ValidateHasAdmin` | src/mass_validator/validator/row_models.py:314-325 | a siret outside the admin sirets gets one `siret_has_no_admin` error and `validated`; otherwise nothing changes |
| `Rows.EtabUpdateRow.Validate` | src/mass_validator/validator/row_models.py:631-695 | the new state is the update pass from the old errors |
| `Rows.RoleRow.Validate` | src/mass_validator/validator/row_models.py:438-476 | the new errors are the role pass from the old errors, and the row is validated |
| `Rows.RoleRow.MarkAsDuplicate` | src/mass_validator/validator/row_models.py:478-487 | exactly one `duplicate_role` error on `email` is appended; `validated` is unchanged |
| `Rows.CreateAsListSpec` | src/mass_validator/validator/row_models.py:172-187 | `as_list` raises TypeError on an absent category list, validated or not, else NotValidated before validation; otherwise 13 cells: the row number (reading back as it), siret, gerepId, the four category lists comma-joined, the five contact cells, and a marker of validity iff there is no error |
| `Rows.UpdateAsListSpec` | src/mass_validator/validator/row_models.py:561-570 | the same gates for the update row; 7 cells: the row number, siret, the four category lists comma-joined, the marker |
| `Rows.RoleAsListSpec` | src/mass_validator/validator/row_models.py:403-410 | the role `as_list` raises only before validation, with NotValidated; 5 cells: the row number (reading back as it), siret, email, role, marker |
| `Rows.JoinedCellSplits` | src/mass_validator/validator/row_models.py:176-179 | a comma-joined category cell splits back into its list when the list is non-empty and comma-free |
| `Rows.TestRowBuilt` | src/mass_validator/tests/test_create_validation.py:4-16 | `from_dict(1, …)` on the tests' raw row builds the expected row |
| `Rows.TestRowClean` | src/mass_validator/tests/test_create_validation.py:4-161 | a test row is clean iff its category and subtype rules hold |
| `Rows.CreateTestRowsValid` | src/mass_validator/tests/test_create_validation.py:4-161 | the four passing test rows validate without error |
| `Rows.CreateTestRowsInvalid` | src/mass_validator/tests/test_create_validation.py:19-143 | the six failing test rows, each a subtype without its parent, raise nothing and get an error |
| `Collections.FlattenMembers` | src/mass_validator/validator/row_models.py:79-81 | an error is in `get_errors` iff it is in some row's errors |
| `Collections.KeptSpec` | src/mass_validator/validator/row_models.py:373-387 | the kept positions strictly increase, and a position after the first is kept iff its row is not all empty |
| `Collections.CollectOk` | src/mass_validator/validator/row_models.py:373-387 | reading a worksheet succeeds iff no `from_dict` after the first row raises |
| `Collections.CollectStep` | src/mass_validator/validator/row_models.py:380-385 | one more row extends the reading by what its `from_dict` yields: nothing, its row, or the exception |
| `Collections.CollectRows` | src/mass_validator/validator/row_models.py:373-387 | a successful reading holds one row per kept position, in order, each the `from_dict` of that position |
| `Collections.CreateWorksheetRows` | src/mass_validator/validator/row_models.py:373-387 | create rows: success iff no `from_dict` raises; then one row per non-empty worksheet row after the first, numbered by position plus one |
| `Collections.UpdateWorksheetRows` | src/mass_validator/validator/row_models.py:743-757 | the same for the update tab |
| `Collections.RoleWorksheetRows` | src/mass_validator/validator/row_models.py:529-541 | the same for the roles tab |
| `Collections.ReadEtabCreateRow` | src/mass_validator/validator/row_models.py:380-385 | one loop turn adds a fresh row exactly when the reading gains one, and stops the reading when `from_dict` raises |
| `Collections.ReadEtabUpdateRow` | src/mass_validator/validator/row_models.py:750-755 | the same for update rows |
| `Collections.ReadRoleRow` | src/mass_validator/validator/row_models.py:535-540 | the same for role rows |
| `Collections.ValidateCreateRow` | src/mass_validator/validator/row_models.py:355-356 | `row.validate()` on one row of a batch leaves that row's known pass |
| `Collections.ValidateUpdateRow` | src/mass_validator/validator/row_models.py:725-726 | the same for update rows |
| `Collections.ValidateRoleRow` | src/mass_validator/validator/row_models.py:509-510 | the same for role rows, which never raise |
| `Collections.EtabCreateRows.constructor` | src/mass_validator/validator/row_models.py:328-336 | a new collection has no header, the given rows, `is_valid` false, enough rows and not too many |
| `Collections.EtabCreateRows.Append` | src/mass_validator/validator/row_models.py:338-342 | the first row appended becomes the header, later ones go at the end; the flags are unchanged |
| `Collections.EtabCreateRows.Sirets` | src/mass_validator/validator/row_models.py:344-345 | the sirets are exactly the non-empty sirets of the rows |
| `Collections.EtabCreateRows.Validate` | src/mass_validator/validator/row_models.py:347-358 | under 10 rows only `has_enough_rows` drops; over 500 only `has_too_many_rows` is set; in both cases `is_valid` is true and no row is touched; otherwise rows are validated in order up to the first that raises, and `is_valid` is true iff all rows validated so far are error-free |
| `Collections.EtabCreateRows.ValidateEach` | src/mass_validator/validator/row_models.py:355-358 | the loop leaves each row up to the stop with its pass and the rows after it untouched |
| `Collections.EtabCreateRows.ValidateHaveAdmin` | src/mass_validator/validator/row_models.py:360-364 | each row in turn gets its admin check, up to the first whose `is_valid` raises; `is_valid` can only drop, to false iff some checked row has an error |
| `Collections.EtabCreateRows.HaveAdminEach` | src/mass_validator/validator/row_models.py:361-364 | the loop of the admin pass, row by row |
| `Collections.EtabCreateRows.ReadRows` | src/mass_validator/validator/row_models.py:375-386 | the loop yields fresh distinct rows, one per `Collect` entry, with no error and not validated; it raises iff `Collect` does |
| `Collections.EtabCreateRows.FromWorksheet` | src/mass_validator/validator/row_models.py:373-387 | a fresh collection holding those rows |
| `Collections.EtabUpdateRows.constructor` | src/mass_validator/validator/row_models.py:698-706 | as for the create collection |
| `Collections.EtabUpdateRows.Append` | src/mass_validator/validator/row_models.py:708-712 | as for the create collection |
| `Collections.EtabUpdateRows.Sirets` | src/mass_validator/validator/row_models.py:714-715 | the non-empty sirets of the rows |
| `Collections.EtabUpdateRows.AsJson` | src/mass_validator/validator/row_models.py:737-741 | one export per row, in row order |
| `Collections.EtabUpdateRows.Validate` | src/mass_validator/validator/row_models.py:717-728 | the create gates with a minimum of 3 rows |
| `Collections.EtabUpdateRows.ValidateEach` | src/mass_validator/validator/row_models.py:725-728 | as for the create collection |
| `Collections.EtabUpdateRows.ReadRows` | src/mass_validator/validator/row_models.py:745-756 | as for the create collection |
| `Collections.EtabUpdateRows.FromWorksheet` | src/mass_validator/validator/row_models.py:743-757 | as for the create collection |
| `Collections.OneFirstOccurrence` | src/mass_validator/validator/row_models.py:518-524 | among the positions holding one key exactly one, the earliest, is not a repeat |
| `Collections.RepeatPositionsSpec` | src/mass_validator/validator/row_models.py:517-524 | `duplicates_idx` holds exactly the positions whose key occurred earlier, in increasing order |
| `Collections.KeysCollide` | src/mass_validator/validator/row_models.py:515 | two different (siret, email) pairs can have the same duplicate key |
| `Collections.RoleRows.constructor` | src/mass_validator/validator/row_models.py:490-495 | a new collection has no header, the given rows, `is_valid` false |
| `Collections.RoleRows.Append` | src/mass_validator/validator/row_models.py:73-77 | the first row becomes the header, later ones go at the end |
| `Collections.RoleRows.AdminSirets` | src/mass_validator/validator/row_models.py:497-498 | exactly the non-empty sirets of rows whose role is ADMIN |
| `Collections.RoleRows.Validate` | src/mass_validator/validator/row_models.py:507-527 | every row ends validated with its role pass followed by one `duplicate_role` error iff its key repeats an earlier one; `is_valid` is true iff no pass recorded an error and no key repeats |
| `Collections.RoleRows.ValidateRows` | src/mass_validator/validator/row_models.py:507-527 | both loops of `validate` over the row list |
| `Collections.RoleRows.ValidateEach` | src/mass_validator/validator/row_models.py:509-512 | every row gets its role pass; the result is true iff every pass is clean |
| `Collections.RoleRows.CheckDuplicates` | src/mass_validator/validator/row_models.py:514-527 | exactly the rows whose key repeats get one duplicate error; the result says whether any did |
| `Collections.RoleRows.MarkDuplicates` | src/mass_validator/validator/row_models.py:515-524 | the `seen` loop marks exactly the repeats and returns their positions |
| `Collections.RoleRows.ReadRows` | src/mass_validator/validator/row_models.py:531-540 | as for the create collection |
| `Collections.RoleRows.FromWorksheet` | src/mass_validator/validator/row_models.py:529-541 | as for the create collection |
| `Tasks.RoundHalfEvenSpec` | src/mass_validator/tasks.py:20 | the rounding is within one half of `num / den`, and an exact half goes to the even integer |
| `Tasks.RoundMonotone` | src/mass_validator/tasks.py:20 | rounding never decreases when the ratio grows |
| `Tasks.ProgressFacts` | src/mass_validator/tasks.py:19-21 | the progress values lie in 0..100, never decrease, and the last is 100 |
| `Tasks.ProgressExamples` | src/mass_validator/tasks.py:20 | ties go to even: 1 of 8 reports 12 and 3 of 8 reports 38; thirds report 33 and 67 |
| `Tasks.FailingMembers` | src/mass_validator/tasks.py:14-27 | an entry is returned iff it is an input entry whose siret the oracle rejects |
| `Tasks.FailingAppend` | src/mass_validator/tasks.py:16-24 | the result keeps input order: failing entries of a concatenation are those of each part, in turn |
| `Tasks.FailingExtremes` | src/mass_validator/tasks.py:14-27 | nothing is returned when every siret passes, and the whole input when every siret fails |
| `Tasks.CheckSirets` | src/mass_validator/tasks.py:7-27 | the result is the failing subsequence; the one event trace is, per entry in order, its lookup then PROGRESS `round(100k/n)` after entry `k` of `n`, and DONE 100 last, even for no entry |
| `Tasks.StepsAt` | src/mass_validator/tasks.py:16-21 | in the first `k` iterations, event `2i` is the lookup of entry `i` and event `2i+1` its progress report |
| `Tasks.CheckSiretsTrace` | src/mass_validator/tasks.py:16-25 | the task's trace has `2n+1` events, DONE 100 last even for no entry: each lookup is followed at once by its progress report |
| `Tasks.CheckSiretsExamples` | src/mass_validator/tests/test_task.py:10-25 | an entry whose siret is rejected is returned; an accepted one is not |

## Left out

- Worksheet I/O is not modelled: openpyxl, `iter_rows`, `dict_read` and the
  row and column offsets. A worksheet is a sequence of raw rows, each a
  `map<Column, Value>` from keyword to cell. The model assumes the reader puts
  text or nothing in scalar columns and lists or nothing in list columns
  (`WellKinded`), and that no `OtherCol` spells a named keyword.
- Dictionary keys are the `Column` datatype rather than strings. `OtherCol`
  stands for any keyword the row class lacks; `ErrorsCol`/`ValidatedCol`
  (which would preset the bookkeeping attributes) are excluded.
- The `as_csv` methods are not modelled, because `quote` and `format_csv_row`
  are not part of this model. The same goes for the `as_str` display methods
  and the unused `SiretError`.
- The collection attributes `siret_errors` and `verbose_errors` are not
  modelled, because the core never writes them.
- `RowError._check_error_type` is not modelled, because it returns a bool and
  enforces nothing.
- The constants module is not part of this model. The taxonomies list only the
  members the repository's tests show. `ERROR_STR`/`VALID_STR` become the
  `Marker(valid)` cell.
- Django's `EmailValidator` becomes the function parameter `emailOk`.
- The search-index lookup `check_siret` becomes the function parameter
  `checkSiret`, so it is deterministic and total. Network failures are its
  business.
- Celery's `update_state` and task queueing become `Update` events of the
  ghost trace.
- Fields.PhoneGrammarShape, like `Fields.PhoneMatches`, reads the pattern's
  `\d` as the ASCII digits `0`-`9`. Python's `re` on a `str` pattern also
  matches the other Unicode decimal digits (Arabic-Indic, fullwidth and so
  on), so a number written with those is accepted by the source and rejected
  by the model.
- `Tasks.CheckSirets` does not model an entry without a `siret` key, which
  would raise KeyError. Entries are built with that key.
- `Tasks.ProgressAt` rounds the exact ratio `100k/n` half-to-even, whereas the
  source divides in IEEE doubles first. `(k/n)*100` can then land just off a
  half point and round the other way. For example, 23 of 40 gives
  57.49999999999999 and progress 57, where the exact ratio 57.5 gives 58.
- `Collections.EtabCreateRows.Validate`, `Collections.EtabUpdateRows.Validate`
  and `Collections.RoleRows.Validate` require the row list to hold distinct row
  objects, as `from_worksheet` builds it. A list holding one row object twice,
  whose second `validate` would append to the first pass's errors, is not
  modelled.
- The views, the search client, settings, middleware, forms and management
  commands are plumbing, not part of the validation engine.
