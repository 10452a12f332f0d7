# Citizen imports: the data-access layer in Dafny

This project models the data-access layer of a small citizen-registry
service. Clients post an *import*: a list of citizens, each with an id, a
birth date written `DD.MM.YYYY`, a list of relative ids and other
attributes. The layer (`api/orm.py`) does four things:

- `Validation.date` checks that a birth date names a real day of the
  Gregorian calendar.
- `CtznsDAO.create` validates a whole import: every citizen passes its
  schema and date check, ids are unique, and every relative lists the
  citizen back. Only then does it store the import under id `count + 1`.
- `CtznsDAO.read` returns a stored import.
- `CtznsDAO.update` patches one citizen. When the patch replaces the
  relatives list, it appends the citizen's id to the newly listed relatives
  and removes it from the dropped ones. It then writes back only the
  records it touched.

The model is split into these modules:

- `Wrappers` (wrappers.dfy): `Option`, `Result` and `Outcome`.
- `Errors` (errors.dfy): the exceptions the layer raises or lets escape.
  The layer raises `SchemaError` (JsonSchemaException) and `NotFound` on
  purpose, for bad input. `ValueError`, `OverflowError` and `KeyError`
  escape it uncaught. Which HTTP status each becomes is decided by the
  controllers, which are not part of this model.
- `Dates` (dates.dfy): `Validation.date` as a function of the text. It
  covers `str.split('.')`, Python's `int()` on each piece, the conversion of
  the three numbers to C ints by `datetime.date`, and the calendar rule.
  `Format` writes a day as text; it is the partner that the round-trip
  lemmas run through `CheckDate`.
- `Citizens` (citizens.dfy): the records and the specification functions.
  - `Stage` is the staging loop of `create`.
  - `ScanBatch` is the bidirectionality loop.
  - `Admit` is the whole verdict of `create`.
  - `Edit` is the import after `update`.
  - The lemmas relate these functions to uniqueness, symmetry and the frame
    of an update.
- `Store` (store.dfy): the `imports` collection as a class holding a
  `map<int, Batch>`, with the four collection calls the layer makes.
- `Dao` (dao.dfy): `CtznsDAO` as a class with `Create`, `Read` and `Update`.
  Their loops are methods proved equal to the specification functions, and
  each DAO method states the new store state.

The JSON-schema validators are function values in a `Validator` datatype. The
model says what happens when each one accepts or rejects. Beyond the shape of
the record types (see "## Left out"), it assumes nothing about what they check.

## Model

| member | source | states |
|---|---|---|
| Dates.DaysInMonth | api/orm.py:29 | a month has 28 to 31 days, and 29 exactly for February of a leap year |
| Dates.YearLength | api/orm.py:29 | the months of a year add up to 366 days in a leap year and 365 otherwise |
| Dates.Split | api/orm.py:27 | `str.split('.')` always yields at least one piece |
| Dates.SplitCount | api/orm.py:27 | `str.split('.')` yields one more piece than the text has dots |
| Dates.JoinSplit | api/orm.py:27 | joining the pieces of `split('.')` with '.' gives the text back, and no piece contains '.' |
| Dates.SplitJoin | api/orm.py:27 | splitting the '.'-join of pieces without '.' gives the pieces back |
| Dates.SplitThree | api/orm.py:27 | three dot-free pieces joined by two dots split into exactly those three |
| Dates.ParseInt | api/orm.py:27 | `int()` accepts only a stripped text with no '.', and gives a negative number only after a leading '-' |
| Dates.ControlSeparatorNotStripped | api/orm.py:27 | `int()` does not strip U+001C, so "\x1c29.02.2020" raises ValueError |
| Dates.ParseDigits | api/orm.py:27 | `int()` reads a run of digits (single underscores allowed between digits) as its decimal value |
| Dates.PaddedValue | api/orm.py:27 | `int()` reads a zero-padded decimal text back as its number, and the text has no '.' |
| Dates.Components | api/orm.py:27 | the unpacking into `dd, mm, yyyy` succeeds only when the split gives exactly three pieces |
| Dates.FormatComponents | api/orm.py:27 | the three integers unpacked from a `DD.MM.YYYY` text are the day, month and year written |
| Dates.CheckDate | api/orm.py:26-31 | the date passes exactly when the text is three integers forming a real day; it raises ValueError exactly when the text is not three integers, OverflowError exactly when it is three integers and one is outside a C int, and otherwise a schema error, and nothing else |
| Dates.CheckFormatted | api/orm.py:26-31 | for every written day: it passes if it is a real day; it raises OverflowError if a component exceeds a C int; otherwise it is a schema error |
| Dates.NoDotsRaisesValueError | api/orm.py:27 | a text without '.' fails the unpacking with ValueError rather than a schema error |
| Dates.LeapDayAccepted | api/orm.py:26-31 | "29.02.2020" passes |
| Dates.LeapDayRejected | api/orm.py:26-31 | "29.02.2021" is a schema error |
| Dates.ThirtyFirstOfAprilRejected | api/orm.py:26-31 | "31.04.2021" is a schema error |
| Dates.ThirteenthMonthRejected | api/orm.py:26-31 | "15.13.2021" is a schema error |
| Citizens.Stage | api/orm.py:47-55 | the staging loop raises only schema errors and the date check's ValueError or OverflowError |
| Citizens.StageStops | api/orm.py:47-55 | once a prefix of the citizens fails staging, the whole loop fails with the same error |
| Citizens.StageSpec | api/orm.py:47-55 | staging succeeds exactly when every citizen passes its schema and date checks and the ids are unique; with every citizen valid, the only failure is the duplicate-id error; staging never raises KeyError |
| Citizens.StageContents | api/orm.py:47-55 | a successful staging holds each citizen under its own id and holds no other key |
| Citizens.ScanRelatives | api/orm.py:58-64 | the inner loop raises only KeyError, naming an id outside the staged citizens, or the not-bidirectional schema error |
| Citizens.ScanBatch | api/orm.py:57-64 | the nested loops raise only KeyError, naming an id outside the staged citizens, or the not-bidirectional schema error |
| Citizens.ScanRelativesStops | api/orm.py:58-64 | once a prefix of a citizen's relatives fails, the inner loop fails with that error |
| Citizens.ScanBatchStops | api/orm.py:57-64 | once a prefix of the citizens fails, the outer loop fails with that error |
| Citizens.ScanRelativesSpec | api/orm.py:58-64 | the inner loop passes exactly when every listed relative lists the citizen back; a KeyError names a listed id outside the import; a schema error has a relative that does not list back |
| Citizens.ScanBatchSpec | api/orm.py:57-64 | the nested loops pass exactly when every relative of every citizen lists that citizen back, with witnesses for each error |
| Citizens.AllReciprocatedIsSymmetric | api/orm.py:57-64 | for a batch keyed by its own citizens, passing the loops is the same as the relatives relation being symmetric and closed in the batch |
| Citizens.Admit | api/orm.py:43-64 | `create` stores nothing unless `for_imp` accepted the payload, and never raises NotFound |
| Citizens.AdmitSpec | api/orm.py:43-64 | `create` admits a payload exactly when the payload schema passes, every citizen is valid, the ids are unique and the relatives relation is symmetric; what it stores is the citizens keyed by id |
| Citizens.DuplicateIdsRejected | api/orm.py:52-53 | two citizens with one id make `create` fail; with every citizen valid, the error is the duplicate-id schema error |
| Citizens.AsymmetryRejected | api/orm.py:57-64 | if A lists B and no citizen B lists A back, `create` fails; a KeyError names an id that is not a citizen of the payload |
| Citizens.Merge | api/orm.py:112 | the shallow merge keeps the id, replaces the birth date and relatives when given, and overwrites exactly the given attributes |
| Citizens.RemoveFirst | api/orm.py:110 | `list.remove` drops one occurrence: the result's multiset is the list's minus one copy of the id |
| Citizens.RemoveFirstDistinct | api/orm.py:110 | on a duplicate-free list, removal leaves the id absent and the other ids present, still without duplicates |
| Citizens.Propagate | api/orm.py:106-110 | the append and remove loops keep the set of citizens |
| Citizens.PropagateSpec | api/orm.py:106-110 | each added relative's list gets the id appended, each removed relative's list loses one copy of it, and every other citizen is unchanged |
| Citizens.Edit | api/orm.py:83-113 | an unknown citizen gives NotFound, whatever the fields and before any validation; a successful update needs a known citizen and accepted fields, keeps the set of citizens and gives the citizen the new relatives list when one is given; it never raises KeyError or the missing-import NotFound |
| Citizens.EditFrame | api/orm.py:80-117 | a successful update keeps the import's set of citizens, gives the citizen the merged record, and leaves every citizen other than it and its added and removed relatives unchanged |
| Citizens.SymmetricNeverMissesRemove | api/orm.py:109-110 | on a symmetric import, `update` never raises the ValueError of `list.remove` |
| Citizens.UnknownRelativeRejected | api/orm.py:100-104 | on a symmetric import with a valid patch, `update` fails with the unknown-relative schema error exactly when the new list names an id outside the import, and that is its only possible error |
| Citizens.EditLinks | api/orm.py:106-110 | after an update, every added relative lists the citizen; when no list holds repeats, no removed relative does |
| Citizens.EditKeepsSymmetry | api/orm.py:93-113 | an update with a duplicate-free relatives list keeps a symmetric, duplicate-free import symmetric and duplicate-free |
| Citizens.SameRelativesTouchNothingElse | api/orm.py:93-110 | an update whose relatives list has the same ids as before changes no other citizen |
| Citizens.LinkTwoCitizens | api/orm.py:93-113 | giving citizen 1 the relatives [2] in an import of two unrelated citizens links both ways |
| Citizens.RepeatedRelativeBreaksSymmetry | api/orm.py:109-110 | when a relative lists the citizen twice, dropping that relative leaves one copy behind and breaks symmetry |
| Store.ImportsCollection.CountDocuments | api/orm.py:66 | the count is the number of stored imports |
| Store.ImportsCollection.InsertOne | api/orm.py:68 | a document is inserted exactly when its id is new; otherwise nothing changes |
| Store.ImportsCollection.FindOne | api/orm.py:73 | finds the import stored under an id, or nothing |
| Store.ImportsCollection.UpdateOne | api/orm.py:114-117 | `$set` overwrites the given citizens of an existing import and keeps the set of imports |
| Dao.StageCitizens | api/orm.py:47-55 | the staging loop computes `Stage` |
| Dao.CheckRelatives | api/orm.py:58-64 | the inner relatives loop computes `ScanRelatives` |
| Dao.CheckSymmetric | api/orm.py:57-64 | the nested loops compute `ScanBatch` |
| Dao.LookUp | api/orm.py:100-104 | looking up the touched relatives fails exactly when one is not in the import, and otherwise returns their records |
| Dao.AppendTo | api/orm.py:106-107 | the id is appended to the relatives list of every added relative, and the other records are kept |
| Dao.RemoveFrom | api/orm.py:109-110 | removing the id fails exactly when some removed relative does not list it; otherwise each removed relative loses one occurrence and the other records are kept |
| Dao.Touch | api/orm.py:83-113 | the records `update` writes back are exactly the citizen and its added and removed relatives; writing them over the import gives `Edit`, and `update` fails exactly when `Edit` does, with the same error |
| Dao.CitizensDao.Create | api/orm.py:43-70 | if the payload is rejected, the store is unchanged and the error is `Admit`'s; otherwise the result is the number of stored imports plus one, and exactly that import is added; ids stay 1..n |
| Dao.CitizensDao.Read | api/orm.py:72-78 | returns the stored import, or NotFound for an unknown id |
| Dao.CitizensDao.Update | api/orm.py:80-118 | NotFound for an unknown import; otherwise, on `Edit`'s error the store is unchanged, and on success the import becomes `Edit`'s result and the updated citizen is returned |
| Dao.CitizensDao.CreateThenRead | api/orm.py:66-78 | reading the id `create` returns gives the payload's citizens keyed by id, with unique ids and symmetric relatives; a failed create stores nothing |

## Left out

- `Validation.__init__` and `Validation.compile` (api/orm.py:15-24) read schema files and call the fastjsonschema library. The three validators are function values with no stated content, and the schema files are not part of this model.
- The record types fix part of what the schemas accept. `Citizen` always has an integer `citizen_id`, `birth_date` as text and `relatives` as a list of integers, so the model assumes `for_crt` guarantees those three keys and types. `Patch` cannot carry `citizen_id`, so the model assumes `for_upd` rejects it; otherwise the merge at api/orm.py:112 would change the stored id while the document key stays the old one. The other keys are free-form attributes in both.
- The MongoDB driver: the collection is an in-memory map. `find_one`'s projection of `_id` is modelled by storing documents without `_id`.
- The race between the count and the insert in `create`: the model is sequential. Under `Dao.CitizensDao.Valid()` the id `count + 1` is always new, so the duplicate-key failure of `insert_one` cannot happen in the model.
- `delete` (api/orm.py:120-121) does nothing.
- api/__init__.py (application factory, configuration, logging, HTTP error handlers) is not part of this model. Its generic handler (api/__init__.py:85-92) answers any exception that reaches it with an internal error. Which exceptions reach it depends on the controllers, which are not part of this model either.
- Keys: the source keys citizens by `str(citizen_id)`. Since `str` is injective on integers, the model keys them by the integer.
- Python's `int()` also accepts non-ASCII decimal digits. The model accepts ASCII digits only. It does model the characters stripped around the number (the ASCII blanks `\t`..`\r` and space, plus the non-ASCII whitespace), the sign and single underscores.
- Dates.ParseInt: models `int()` of Python 3.7 to 3.10 before the September 2022 security releases, which reads a decimal text of any length. Later releases raise ValueError for a text of more than 4300 digits (the default of `sys.set_int_max_str_digits`). Under those releases a component of more than 4300 digits raises ValueError. The model gives OverflowError for such a component, or a pass when it is a real day padded with leading zeros.
- The iteration order of Python sets and dicts is not modelled. The look-up, append and remove loops of `update` pick ids in any order, and the result does not depend on it. The bidirectionality loop of `create` visits citizens in input order, which is the insertion order of the dict.
- The unknown-relative schema error does not carry the relative's id: which missing id the source reports depends on set iteration order.
- A removal in `update` where the relative does not list the citizen is modelled as the code does it: `list.remove` raises ValueError, which the layer does not catch. `list.remove` raises here; it is not a no-op.
- `update` treats `ctzn_id` as an integer, the same type as the ids in relatives lists. The source gets it from the URL.
- Citizens.EditKeepsSymmetry: requires duplicate-free relatives lists. `list.remove` drops only the first occurrence, so with repeats symmetry can break (`Citizens.RepeatedRelativeBreaksSymmetry`). Whether the schemas forbid repeats cannot be seen without the schema files.
- Citizens.EditLinks: the removed-relatives half is stated only when no relatives list holds repeats. `list.remove` drops only the first copy, so a relative listing the citizen twice still lists it afterwards (`Citizens.RepeatedRelativeBreaksSymmetry`).
- Citizens.UnknownRelativeRejected: stated for a symmetric import only, where every removed relative lists the citizen back.
