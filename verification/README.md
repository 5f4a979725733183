# A verified model of the character-builder CRUD service

This project models the core of a small Flask service. The service keeps four
tables:

- character classes;
- weapons;
- stat blocks (strength, intelligence, dexterity, stamina, faith, agility);
- characters, each of which links to one stat block, one class and one weapon.

The model covers three layers of that service:

- **Validation** (`Validation`, module file `validation.dfy`). The request
  validators turn a loosely typed JSON payload into a normalised record or
  into the message that rejects it. `parse_int` turns every value `int()`
  refuses with `TypeError` or `ValueError` into `None`. The checks run in
  a fixed order, so it is fixed which message wins.
- **The store** (`Query.Store`, module file `query.dfy`, over the generic
  table operations of `Tables`). The data access layer keeps referential
  integrity:
  - a class, weapon or stat block that a character uses cannot be deleted,
    and "not found" is reported before "in use";
  - a character is written only when all three of its links resolve, and
    that check comes before the not-found check.

  The store keeps the four tables as sequences and keeps one invariant,
  `Valid`: ids ascend in every table, and every link of every character
  resolves. Every operation is proved to preserve it. The same class models
  both the SQL data access layer and the in-memory store the test suite
  substitutes for it, since both state the same rules.
- **The handlers** (`Routes`). Each handler maps a validator result and a
  store outcome to an HTTP status and a body:
  - 400 for a rejected payload, an in-use delete or an invalid foreign key;
  - 201 for a create;
  - 404 for a missing id;
  - 200 otherwise.

  The characters listing builds its filter map from the query string and
  drops the parameters that are absent or do not parse. Login compares both
  credentials with the configured ones.

`Text` gives the parts of Python's string behaviour the service relies on:
`strip`, `lower`, substring tests, `str(int)` and `int(str)`. `RowMapping`
gives the `row_*` mappers. `Scenarios` replays the test suite's scenarios on
the seeded store and derives each expected status from the handler
contracts.

The validators test a name for emptiness before trimming it.
So a name made only of whitespace is accepted and stored as the empty string,
not rejected as "required" (`Validation.ClassBlankNameAccepted`).

## Model

| member | source | states |
|---|---|---|
| Text.TrimStart | app/utils.py:21 | the leading-whitespace trim returns a suffix of its input that does not start with whitespace; what it drops is all whitespace |
| Text.TrimEnd | app/utils.py:21 | the trailing-whitespace trim returns a prefix of its input that does not end with whitespace; what it drops is all whitespace |
| Text.StripSpan | app/utils.py:21 | `strip()` removes one run of whitespace at each end and nothing else, and its result has no whitespace at either end |
| Text.StripIdempotent | app/utils.py:21 | stripping a stripped string changes nothing |
| Text.StripUnchanged | app/utils.py:21 | a string with no whitespace at either end is its own strip |
| Text.StripAllSpace | app/utils.py:17-21 | a string made only of whitespace strips to the empty string |
| Text.Lower | tests/test_crud.py:109-110 | `lower()` keeps the length and lowers each character in place |
| Text.LowerUnchanged | tests/test_crud.py:109-110 | a string without upper-case letters is its own `lower()` |
| Text.ContainsAt | tests/test_crud.py:110 | the substring test `term in name` holds exactly when the term occurs at some offset of the name |
| Text.ShowIntRoundTrip | app/utils.py:5-9 | the decimal text of any integer is integer text that denotes it; `Validation.ParseIntShown` adds the digit limit that `int()` applies |
| Entities.StatFieldsListed | app/utils.py:42 | each of the six attributes appears exactly once in the validation order |
| Validation.ParseInt | app/utils.py:5-9 | `parse_int` returns the integer itself for an int. For a string it succeeds exactly when three things hold: the stripped text is an optional sign and decimal digits; those digits number at most 4300, CPython's default limit for string conversion; and the string holds none of the separators U+001C-U+001F, which `int()` refuses. `None` and other values give `None` |
| Validation.ParseIntPadded | app/utils.py:5-9 | integer text of at most 4300 digits, with only the whitespace `int()` skips on either side, parses to the integer the text denotes |
| Validation.ParseIntAccepts | app/utils.py:5-9 | a string parses exactly when it is integer text of at most 4300 digits with only the whitespace `int()` skips on either side |
| Validation.ParseIntShown | app/utils.py:5-9 | the decimal text of an integer of at most 4300 digits parses back to that integer, with any run of the whitespace `int()` skips (tab to carriage return, space, NEL, no-break space) around it |
| Validation.DigitLimitRefused | app/utils.py:5-9 | 4301 digits do not parse, since `int()` raises and `parse_int` answers `None`, while 4300 digits do |
| Validation.SeparatorRefused | app/utils.py:5-9 | a vertical tab and a no-break space around a digit are skipped, while a leading file separator makes the parse fail |
| Validation.DescriptionDefault | app/utils.py:16-20 | a missing or `null` description normalises to the empty string |
| Validation.ValidateClass | app/utils.py:12-21 | a non-object is "Invalid payload"; an object is accepted exactly when its name is a non-empty string, else "Name is required"; on success the record is the stripped name and the normalised description |
| Validation.ClassBlankNameAccepted | app/utils.py:17-21 | a whitespace-only name passes validation and is stored as the empty string |
| Validation.ClassFieldsStripped | app/utils.py:21 | both fields of an accepted class have no whitespace at either end |
| Validation.ValidateWeapon | app/utils.py:24-36 | "Invalid payload", then "Name is required", then "Type is required", in that order; accepted exactly when name and type are non-empty strings; on success the record is the stripped name, the stripped type and the normalised description |
| Validation.WeaponNameBeforeType | app/utils.py:30-33 | a payload missing both name and type reports the name; one with only a name reports the type |
| Scenarios.PlainClassPayload | app/utils.py:12-21 | a class payload whose name and description have no whitespace at their ends validates to exactly those two strings |
| Scenarios.PlainWeaponPayload | app/utils.py:24-36 | a weapon payload whose name, type and description have no whitespace at their ends validates to exactly those strings |
| Validation.ValidateStats | app/utils.py:39-49 | the loop succeeds exactly when all six attributes parse, and then holds each parsed value; otherwise the message names the first attribute in validation order that does not parse; a non-object is "Invalid payload" |
| Validation.ValidateCharacter | app/utils.py:52-63 | "Invalid payload", then "Name is required", then the one combined ids message; accepted exactly when the name is a non-empty string and all three ids parse; on success the record is the stripped name and the three parsed ids |
| Tables.Find | tests/test_crud.py:30-31 | the lookup finds a row exactly when the id is in the table, and the row it returns has that id |
| Tables.FindUnique | tests/test_crud.py:30-31 | in a table with ascending ids, the lookup of a row's id returns that row |
| Tables.MaxId | tests/test_crud.py:24-25 | the maximum id is the id of some row and no row's id exceeds it |
| Tables.NextId | tests/test_crud.py:24-25 | `next_id` is 1 for an empty table and otherwise one more than an id in the table, and it exceeds every id |
| Tables.NextIdFresh | tests/test_crud.py:24-35 | the id `next_id` hands out is not in the table |
| Tables.FindAppended | tests/test_crud.py:30-36 | looking up the id just handed out finds the row just appended |
| Tables.AppendNext | tests/test_crud.py:33-36 | appending under `next_id` keeps the ids ascending and adds exactly the new id |
| Tables.Where | tests/test_crud.py:108-118 | a list filter keeps exactly the rows that pass, never more rows than it had, in ascending order if the input was |
| Tables.WhereCounts | tests/test_crud.py:108-118 | a list filter keeps each passing row as many times as it occurs and drops every failing row |
| Tables.AscendingSameMembers | tests/test_crud.py:105-119 | two tables with ascending ids and the same rows are the same sequence, so a filtered listing of an ascending table is fixed by which rows pass |
| Tables.Remove | tests/test_crud.py:50 | the slice assignment keeps exactly the rows with another id, removes only that id, and keeps the order |
| Tables.Update | tests/test_crud.py:38-43 | an update keeps the length, the id at every position, the set of ids and their ascending order; afterwards the rows are the rows with another id and, when the id exists, the row with that id and the new fields |
| Tables.UpdateAt | tests/test_crud.py:38-43 | position by position, an update replaces the row with that id by the new fields and keeps every other row |
| Tables.UpdateThenFind | tests/test_crud.py:38-43 | after an update, the id reads back with the new fields and every other id reads back as before |
| Tables.AscendingSingleton | tests/test_crud.py:264 | a table with ascending ids whose only member is one row is that row alone, so the listing has length 1 |
| Tables.RemoveAppended | tests/test_crud.py:33-51 | deleting the row just created gives back the table as it was |
| Tables.UpdateAppended | tests/test_crud.py:33-43 | updating the row just created replaces its fields and nothing else |
| Query.CountReferences | app/query.py:15-20 | the reference count never exceeds the number of characters |
| Query.CountReferencesPositive | app/query.py:15-20 | the reference count is positive exactly when some character refers to the id in that column |
| Query.AppendResolved | app/query.py:302-312 | appending a character whose three links resolve keeps every link in the table resolved |
| Query.UnknownIdUnreferenced | tests/test_crud.py:48-50 | while every link resolves, no character refers to an id that is missing from its table |
| Query.NoFiltersSelectAll | tests/test_crud.py:105-107 | with no filter, every character is selected |
| Query.EmptyNameIgnored | app/query.py:265 | an empty name filter selects the same characters as a missing one |
| Query.NameFilterAlone | tests/test_crud.py:108-110 | a non-empty name filter alone selects exactly the characters whose lower-cased name contains the lower-cased term |
| Query.MinFilterAlone | tests/test_crud.py:115-118 | a lone `<stat>_min` filter selects exactly the characters whose linked stat block reaches the bound |
| Query.AllMinimums | app/query.py:274-278 | after the loop, the minimums met in validation order are all six minimums |
| Query.ListingIsWhere | app/query.py:257-288 | a listing with ascending ids holding exactly the selected characters is the characters table filtered in its own order |
| Query.MinFilterOnLinkedRow | tests/test_crud.py:118 | in a consistent store the linked stat block exists, so a minimum filter is a `>=` test on that one row |
| Query.Store.constructor | tests/test_crud.py:13-22 | a store built from consistent tables holds them and is valid |
| Query.Store.RecordExists | app/query.py:5-12 | `record_exists` holds exactly when the id is in the named table |
| Query.Store.ForeignKeysExist | app/query.py:303 | the three links of a character hold exactly when its stat block, class and weapon ids are all in their tables |
| Query.Store.CharactersInUse | app/query.py:15-23 | `characters_in_use` holds exactly when some character refers to the id in that column |
| Query.Store.ListClasses | app/query.py:56-63 | every class row, each once, in ascending id order |
| Query.Store.GetClass | app/query.py:66-74 | the row with that id when it exists, else none |
| Query.Store.CreateClass | app/query.py:77-85 | appends exactly one row under a fresh id with the given fields, returns it, changes no other table and keeps the store valid; looking up the new id returns that row |
| Query.Store.UpdateClass | app/query.py:88-98 | none and no change for an unknown id; otherwise the row with that id carries the new fields, which are returned, and every other row is unchanged |
| Query.Store.DeleteClass | app/query.py:101-113 | `not_found` for an unknown id, then `in_use` when a character uses it, both with no change; otherwise `(True, "")` and exactly that row is removed; links stay resolved |
| Query.Store.ListWeapons | app/query.py:116-123 | every weapon row, each once, in ascending id order |
| Query.Store.GetWeapon | app/query.py:126-134 | the row with that id when it exists, else none |
| Query.Store.CreateWeapon | app/query.py:137-145 | appends exactly one row under a fresh id with the given fields and returns it; looking up the new id returns that row |
| Query.Store.UpdateWeapon | app/query.py:148-158 | none and no change for an unknown id; otherwise only that row's fields change, and the row is returned |
| Query.Store.DeleteWeapon | app/query.py:161-173 | `not_found`, then `in_use`, both with no change; otherwise exactly that row is removed |
| Query.Store.ListStats | app/query.py:176-183 | every stat row, each once, in ascending id order |
| Query.Store.GetStat | app/query.py:186-194 | the row with that id when it exists, else none |
| Query.Store.CreateStat | app/query.py:197-215 | appends exactly one row under a fresh id with the given values and returns it; looking up the new id returns that row |
| Query.Store.UpdateStat | app/query.py:218-239 | none and no change for an unknown id; otherwise only that row's values change, and the row is returned |
| Query.Store.DeleteStat | app/query.py:242-254 | `not_found`, then `in_use`, both with no change; otherwise exactly that row is removed |
| Query.Store.ListCharacters | app/query.py:257-288 | exactly the characters that pass the AND of the active filters, in ascending id order, so the result is the characters table filtered in place; the six minimum filters are applied in a loop |
| Query.Store.GetCharacter | app/query.py:291-299 | the row with that id when it exists, else none |
| Query.Store.CreateCharacter | app/query.py:302-312 | `invalid_foreign` and no write unless all three links resolve; otherwise one new row under a fresh id, which a lookup of that id returns; the store stays valid |
| Query.Store.UpdateCharacter | app/query.py:315-330 | `invalid_foreign` first, then `not_found`, both with no write; otherwise only that row changes; the store stays valid |
| Query.Store.DeleteCharacter | app/query.py:333-341 | true exactly when the id existed, and then exactly that row is removed; afterwards the id is absent |
| RowMapping.RowClass | app/query.py:26-27 | `row_class` keeps exactly the id, name and description columns of the row |
| RowMapping.ClassRoundTrip | app/query.py:26-27 | writing a class out as columns and mapping it back gives the same class |
| RowMapping.RowWeapon | app/query.py:30-31 | `row_weapon` keeps exactly the id, name, type and description columns |
| RowMapping.WeaponRoundTrip | app/query.py:30-31 | writing a weapon out as columns and mapping it back gives the same weapon |
| RowMapping.RowStat | app/query.py:34-43 | `row_stat` keeps exactly the id and the six attribute columns |
| RowMapping.StatRoundTrip | app/query.py:34-43 | writing a stat block out as columns and mapping it back gives the same stat block |
| RowMapping.RowCharacter | app/query.py:46-53 | `row_character` keeps exactly the id, name and three link columns |
| RowMapping.CharacterRoundTrip | app/query.py:46-53 | writing a character out as columns and mapping it back gives the same character |
| Routes.OrEmpty | app/routes.py:73 | a missing body, and a falsy non-object body, read as an empty object; an object is kept |
| Routes.Login | app/routes.py:40-48 | 200 with the token exactly when both username and password equal the configured ones; otherwise 401 "Invalid credentials" |
| Routes.BuildFilters | app/routes.py:217-228 | `name` is present exactly when `q` is given and holds it as given; an integer filter is present exactly when its parameter is given and parses, and holds the parsed value; no other key appears |
| Routes.SingleIntFilter | app/routes.py:217-228 | a query string whose only filter parameter is one parsing integer filter builds the map holding that one bound |
| Routes.BuildFiltersWellFormed | app/routes.py:217-229 | the map handed to `list_characters` holds a string under `name` and integers elsewhere, and the six `<stat>_min` keys it builds are the ones `list_characters` reads |
| Routes.GetClasses | app/routes.py:51-56 | 200 with the `classes` listing: every class, in ascending id order |
| Routes.GetClassRoute | app/routes.py:59-66 | 404 "Not found" for an unknown id, else 200 with that row |
| Routes.CreateClassRoute | app/routes.py:69-77 | 400 with the validator's message and no change, else 201 with the new row under the next id, which is the one change |
| Routes.UpdateClassRoute | app/routes.py:80-90 | 400 with the validator's message, then 404 for an unknown id, both with no change; else 200 with the updated row |
| Routes.DeleteClassRoute | app/routes.py:93-102 | 404 for an unknown id, then 400 "Class is referenced by characters", both with no change; else 200 `deleted` and the row is gone |
| Routes.GetWeapons | app/routes.py:105-110 | 200 with the `weapons` listing: every weapon, in ascending id order |
| Routes.GetWeaponRoute | app/routes.py:113-120 | 404 "Not found" for an unknown id, else 200 with that row |
| Routes.CreateWeaponRoute | app/routes.py:123-131 | 400 with the validator's message and no change, else 201 with the new row under the next id |
| Routes.UpdateWeaponRoute | app/routes.py:134-144 | 400 with the validator's message, then 404 for an unknown id, both with no change; else 200 with the updated row |
| Routes.DeleteWeaponRoute | app/routes.py:147-156 | 404, then 400 "Weapon is referenced by characters", both with no change; else 200 `deleted` and the row is gone |
| Routes.GetStatsRoute | app/routes.py:159-164 | 200 with the `stats` listing: every stat block, in ascending id order |
| Routes.GetStatRoute | app/routes.py:167-174 | 404 "Not found" for an unknown id, else 200 with that row |
| Routes.CreateStatRoute | app/routes.py:177-185 | 400 exactly when some attribute does not parse, with the validator's message and no change; else 201 with the parsed values under the next id |
| Routes.UpdateStatRoute | app/routes.py:188-198 | 400 with the validator's message, then 404 for an unknown id, both with no change; else 200 with the parsed values written to that row |
| Routes.DeleteStatRoute | app/routes.py:201-210 | 404, then 400 "Stats are referenced by characters", both with no change; else 200 `deleted` and the row is gone |
| Routes.GetCharactersRoute | app/routes.py:213-230 | 200 with exactly the characters that pass every filter the query string sets, in the characters table's order, which ascends by id |
| Routes.GetCharacterRoute | app/routes.py:233-240 | 404 "Not found" for an unknown id, else 200 with that row |
| Routes.CreateCharacterRoute | app/routes.py:243-253 | 400 with the validator's message, then 400 "Invalid foreign key", both with no change; else 201 with the new row |
| Routes.UpdateCharacterRoute | app/routes.py:256-268 | 400 with the validator's message, then 400 "Invalid foreign key", then 404, each with no change; else 200 with the updated row |
| Routes.DeleteCharacterRoute | app/routes.py:271-278 | 404 for an unknown id, else 200 `deleted` and the row is gone; characters are never guarded |
| Scenarios.Seeded | tests/test_crud.py:13-22 | the fixture's seed tables form a valid store |
| Scenarios.SeedConsistent | tests/test_crud.py:12-22 | the seed tables have ascending ids and every seeded character links to seeded rows |
| Scenarios.LoginScenario | tests/test_crud.py:177-185 | `admin`/`password` logs in with 200; `x`/`y` is refused with 401 |
| Scenarios.ClassLifecycle | tests/test_crud.py:200-208 | on any valid store, a new class is created (201) and fetched back as the validated fields under the next id (200); it is updated (200) and deleted (200); deleting it again and fetching it again both give 404; the store ends as it began |
| Scenarios.SeedNextIds | tests/test_crud.py:13-25 | each seeded table hands out id 3 next |
| Scenarios.ClassCrudOn | tests/test_crud.py:200-208 | on any valid store that hands out class id 3 next, the test's requests create class 3 `Rogue`/`Fast`, fetch it back as such, and give 201, 200, 200, 200, 404, 404 |
| Scenarios.ClassCrudScenario | tests/test_crud.py:200-208 | the test's payloads create class 3 `Rogue`/`Fast`, which is fetched back as such; the statuses are 201, 200, 200, 200, then 404 for the second delete and for the lookup |
| Scenarios.DeleteClassInUseScenario | tests/test_crud.py:211-214 | deleting class 1, which Artorias uses, gives 400 |
| Scenarios.WeaponLifecycle | tests/test_crud.py:217-225 | on any valid store, the weapon lifecycle fetches back the validated fields under the next id and gives 201, 200, 200, 200, 404, 404; the store ends as it began |
| Scenarios.WeaponCrudOn | tests/test_crud.py:217-225 | on any valid store that hands out weapon id 3 next, the test's requests create weapon 3 `Bow`/`Ranged`/`Arrows`, fetch it back as such, and give 201, 200, 200, 200, 404, 404 |
| Scenarios.WeaponCrudScenario | tests/test_crud.py:217-225 | the test's payloads create weapon 3 `Bow`/`Ranged`/`Arrows`, fetched back as such; the statuses are 201, 200, 200, 200, 404, 404 |
| Scenarios.DeleteWeaponInUseScenario | tests/test_crud.py:228-231 | deleting weapon 1 gives 400 |
| Scenarios.UniformStatsParse | tests/test_crud.py:238-242 | the test's stat payloads parse in all six attributes |
| Scenarios.StatsLifecycle | tests/test_crud.py:239-245 | on any valid store, the stat block fetched back after the create carries the next id and every attribute as parsed from the payload; the statuses are 201, 200, 200, 200, 404, 404; the store ends as it began |
| Scenarios.UniformStatsValues | tests/test_crud.py:239 | a stat block parsed from the all-10 payload is 10 in all six attributes |
| Scenarios.StatsCrudScenario | tests/test_crud.py:234-245 | a non-numeric strength gives 400; then stat block 3 is created and fetched back with 10 in every attribute; the statuses are 201, 200, 200, 200, 404, 404 |
| Scenarios.DeleteStatInUseScenario | tests/test_crud.py:248-251 | deleting stat block 1 gives 400 |
| Scenarios.InvalidForeignOn | tests/test_crud.py:254-257 | on any valid store without stat block 999, a character linked to it gives 400 "Invalid foreign key" |
| Scenarios.CharacterInvalidForeignScenario | tests/test_crud.py:254-257 | a character linked to stat block 999 gives 400 "Invalid foreign key" |
| Scenarios.ArtoOccurrences | tests/test_crud.py:262-264 | lower-cased, "Arto" occurs in "Artorias" and not in "Lucatiel" |
| Scenarios.ParseTen | tests/test_crud.py:265 | the query value "10" parses to 10 |
| Scenarios.ArtoFilters | tests/test_crud.py:262 | `?q=Arto` builds the single filter `name = "Arto"` |
| Scenarios.SearchByName | tests/test_crud.py:262-264 | `?q=Arto` selects Artorias and not Lucatiel |
| Scenarios.StrengthFilters | tests/test_crud.py:265 | `?format=xml&strength_min=10` builds the single filter `strength_min = 10` |
| Scenarios.SearchByStrength | tests/test_crud.py:265-266 | a strength minimum of 10 selects Artorias (15) and not Lucatiel (6) |
| Scenarios.OnlyArtorias | tests/test_crud.py:264 | a listing of the seeded characters that selects Artorias and not Lucatiel is Artorias alone |
| Scenarios.CharacterSearchScenario | tests/test_crud.py:260-267 | both searches list exactly one character, Artorias |
| Scenarios.CharacterLifecycle | tests/test_crud.py:270-280 | on any valid store, with links that resolve, a new character is fetched back as validated under the next id; the statuses are 201, 200, 200, 200, then 404 for the second delete and for the lookup; the store ends as it began |
| Scenarios.PlainCharacterPayload | app/utils.py:52-63 | a character payload with a name free of whitespace at its ends and three integer links validates to exactly that name and those links |
| Scenarios.SeedIds | tests/test_crud.py:13-19 | the seeded stat, class and weapon tables hold exactly the ids 1 and 2 |
| Scenarios.CharacterCrudOn | tests/test_crud.py:270-280 | on any valid store that hands out character id 3 next and holds stat blocks, classes and weapons 1 and 2, the test's requests create character 3 `NewChar`, fetch it back as such, and give 201, 200, 200, 200, 404, 404 |
| Scenarios.CharacterCrudScenario | tests/test_crud.py:270-280 | the test's payloads create character 3 `NewChar` linked to 1, 1, 1, fetched back as such; the statuses are 201, 200, 200, 200, 404, 404 |

## Left out

- The database connection pool and cursor handling (app/database.py), the application factory (app/__init__.py) and the environment reads of app/config.py. The default credentials `admin`/`password` appear as constants in `Scenarios`, and `Routes.Login` takes the configured credentials as parameters.
- JWT: `create_access_token` is a foreign library call, so the token is an opaque parameter of `Routes.Login`. The `jwt_required` guard, which answers 401 before any handler runs, is not modelled.
- `format_response`, `parse_format` and the JSON/XML encoding of responses. Their definitions are not part of this model. A handler's response is its status and a structured body. For the same reason the `format` query parameter is modelled only as a key that is not a filter.
- SQL text and driver semantics. Every query operation is modelled as its intended effect on four abstract tables, which is what the in-memory test store does. In particular the model leaves out:
  - `LIKE` wildcards (`%` and `_` inside the search term) and collation-dependent case folding;
  - auto-increment ids. The model uses `next_id`, the maximum id plus one, as the test store does;
  - the re-read of a row after a write;
  - `rowcount` counting changed rather than matched rows. Because of that, an `UPDATE` with identical values answers 404 against MySQL.
- Concurrency. The existence and in-use checks and the write that follows run on separate connections; each operation is modelled as one atomic step.
- Validation.ParseInt: JSON booleans and floats fall under `Other` and parse to `None`, whereas Python's `int()` maps `true` to 1 and truncates 3.7 to 3. `int()` also accepts digit separators (`1_000`), non-ASCII digits and Unicode whitespace beyond U+00FF around the digits, which the model rejects. A float infinity (`1e999` in a JSON body) makes `int()` raise `OverflowError`, which `parse_int` does not catch, so the request ends in a server error; the model answers `None`. The 4300-digit limit is the default of CPython 3.11 and later and of the 2022 security releases of 3.7 to 3.10; older interpreters have no limit.
- Text.ShowIntRoundTrip: holds for every integer, whereas CPython's `str()` refuses integers of more than 4300 digits. Such an integer cannot arrive in a JSON body, whose decoder applies the same limit; the limit on parsing is stated by `Validation.ParseIntShown` and `Validation.ParseInt`.
- Text.Lower: only ASCII letters are lowered. Text.IsSpace covers the Latin-1 whitespace characters only, so Unicode whitespace beyond U+00FF is not stripped.
- Routes.Login: a body that is a truthy non-object, such as a JSON list, makes the real handler fail when it calls `.get`; the model takes the body as an object.
- RowMapping.RowClass and the other row mappers: NULL columns are not modelled. Every column holds a value of its declared type.
- Query.Store.ListCharacters: in the test store, a character whose stat block is missing makes the `<stat>_min` lookup raise. The model answers "not selected", as the SQL join does. The store invariant rules that case out in any event (`Query.MinFilterOnLinkedRow`).
- Shared mutable records: the test store's `update_*` mutates a record that an earlier `list_*` result may also hold. The model's rows are values, so that aliasing is not captured.
- The test suite's pytest fixtures, the `monkeypatch` wiring and the HTTP test client are left out. So is `test_requires_auth`, which exercises only the JWT guard. The assertions of `test_list_classes_json` (status 200 and a `classes` key) are what `Routes.GetClasses` ensures; only the JSON encoding and the token round trip are left out.
