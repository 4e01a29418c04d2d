# HSK content catalogue: validators, uploads and content services

This project models the core of a Chinese-language course catalogue. The
catalogue has HSK levels, each with lessons, and lessons have vocabulary
entries and dialogue lines. The model covers three parts:

- The admin portal's **form validators**. These are four record schemas: level, lesson, vocabulary entry and dialogue line. Each is a pure function from the submitted fields to either the validated record or the list of field errors (`schemas.dfy`).
- The back end's **upload endpoint**. The model covers four things:
  - the name a stored file gets: field name, clock reading, random number and the original file's extension;
  - the 5 MiB size limit;
  - the interceptor's single accepted field;
  - the URL returned to the client (`uploads.dfy`, with `decimal.dfy` for the decimal rendering of numbers).
- The back end's **level, dialogue-line and vocabulary services**.
  - They are classes over a shared `Database` object. It has one id-keyed map per table and an auto-increment counter per table it writes; the lessons table is only read. The join of a record with its lesson is there too (`store.dfy`).
  - Create, update and remove are methods that change the tables. Listing and lookup are functions that read them (`levels.dfy`, `dialogue_lines.dfy`, `vocabularies.dfy`).
  - The records, the create and update data objects, and the application of a partial update are in `entities.dfy`.
  - Listing, ordering by a column and filtering rows are in `tables.dfy`.

The clock (`Date.now()`), the random draw (`Math.random()`) and the `API_URL`
environment variable are parameters of `Uploads.Upload`. Writing the file to
disk is not modelled.

The validators see a numeric field after the library's number coercion. That
is a real number (the bounds are not integral: 1.5 passes `min(1)`) or NaN.
A string field may be absent.

Two points of the code worth stating, because a reader might expect otherwise:

- Updates are partial. The dialogue-line update data object is a `PartialType` of the create object (apps/backend-api/src/dialogue-lines/dto/update-dialogue-line.dto.ts:4), and the services hand the update object to the database as it is (for example apps/backend-api/src/levels/levels.service.ts:29-34). So `Apply…Update` overwrites only the supplied fields.
- Identifier fields of the forms are not checked to be integers. They are coerced numbers with a lower bound of 1 only (apps/admin-portal/src/lib/schemas.ts:10, 16, 23), so 1.5 is accepted.

## Model

| member | source | states |
|---|---|---|
| Schemas.NumberErrors | apps/admin-portal/src/lib/schemas.ts:4 | a coerced number has no error exactly when it is a number within the inclusive bounds; every error names the field |
| Schemas.RequiredErrors | apps/admin-portal/src/lib/schemas.ts:5 | a string field has no error exactly when it is present and non-empty; every error names the field |
| Schemas.RequiredErrorsMessages | apps/admin-portal/src/lib/schemas.ts:5 | a string check reports "Required" exactly when the value is absent and its own message exactly when it is empty |
| Schemas.NumberErrorsMessages | apps/admin-portal/src/lib/schemas.ts:4 | a number check reports the NaN message exactly for NaN, the lower-bound message exactly below the minimum and the upper-bound message exactly above the maximum |
| Schemas.ValidateLevel | apps/admin-portal/src/lib/schemas.ts:3-7 | succeeds exactly when level is in [1, 6] and name is non-empty, whatever the description; the result carries the input's values; a failure lists at least one error, in field order |
| Schemas.LevelErrors | apps/admin-portal/src/lib/schemas.ts:3-7 | a level input has no error exactly when level is in [1, 6] and name is non-empty |
| Schemas.LevelErrorCatalogue | apps/admin-portal/src/lib/schemas.ts:4-5 | every level error is one of the five possible (field, message) pairs |
| Schemas.LevelErrorMessages | apps/admin-portal/src/lib/schemas.ts:4-5 | each of the five messages appears exactly when its condition holds: NaN, below 1, above 6, name absent, name empty |
| Schemas.LevelBoundsInclusive | apps/admin-portal/src/lib/schemas.ts:4 | 1 and 6 are accepted; 0 fails with only "Level must be at least 1"; 7 fails with only "Level must be at most 6" |
| Schemas.LevelFieldsIndependent | apps/admin-portal/src/lib/schemas.ts:3-7 | the errors reported for each field are that field's own check, whatever the other fields hold |
| Schemas.ValidateLesson | apps/admin-portal/src/lib/schemas.ts:9-13 | succeeds exactly when levelId >= 1, title is non-empty and orderIndex >= 1; failure lists the errors in field order |
| Schemas.LessonErrors | apps/admin-portal/src/lib/schemas.ts:9-13 | a lesson input has no error exactly when levelId >= 1, title is non-empty and orderIndex >= 1 |
| Schemas.LessonErrorCatalogue | apps/admin-portal/src/lib/schemas.ts:10-12 | every lesson error is one of the six possible (field, message) pairs |
| Schemas.LessonErrorMessages | apps/admin-portal/src/lib/schemas.ts:10-12 | each of the six messages appears exactly when its condition holds: for levelId and orderIndex NaN or below 1; for title absent ("Required") or empty ("Title is required") |
| Schemas.LessonFieldsIndependent | apps/admin-portal/src/lib/schemas.ts:9-13 | each lesson field's errors depend on that field alone |
| Schemas.ValidateVocabulary | apps/admin-portal/src/lib/schemas.ts:15-20 | succeeds exactly when lessonId >= 1 and hanzi, pinyin and meaningVn are non-empty; failure lists the errors in field order |
| Schemas.VocabularyErrors | apps/admin-portal/src/lib/schemas.ts:15-20 | a vocabulary input has no error exactly when lessonId >= 1 and hanzi, pinyin and meaningVn are non-empty |
| Schemas.VocabularyErrorCatalogue | apps/admin-portal/src/lib/schemas.ts:16-19 | every vocabulary error is one of the eight possible (field, message) pairs |
| Schemas.VocabularyErrorMessages | apps/admin-portal/src/lib/schemas.ts:16-19 | each of the eight messages appears exactly when its condition holds: lessonId NaN or below 1; each of hanzi, pinyin and meaningVn absent ("Required") or empty (its own message) |
| Schemas.VocabularyFieldsIndependent | apps/admin-portal/src/lib/schemas.ts:15-20 | each vocabulary field's errors depend on that field alone |
| Schemas.ValidateDialogueLine | apps/admin-portal/src/lib/schemas.ts:22-29 | succeeds exactly when lessonId >= 1, the four text fields are non-empty and orderIndex >= 1; failure lists the errors in field order |
| Schemas.DialogueLineErrors | apps/admin-portal/src/lib/schemas.ts:22-29 | a dialogue-line input has no error exactly when lessonId >= 1, the four text fields are non-empty and orderIndex >= 1 |
| Schemas.DialogueLineErrorCatalogue | apps/admin-portal/src/lib/schemas.ts:23-28 | every dialogue-line error is one of the twelve possible (field, message) pairs |
| Schemas.DialogueLineErrorMessages | apps/admin-portal/src/lib/schemas.ts:23-28 | each of the twelve messages appears exactly when its condition holds: lessonId and orderIndex NaN or below 1; each of the four text fields absent ("Required") or empty (its own message) |
| Schemas.DialogueLineFieldsIndependent | apps/admin-portal/src/lib/schemas.ts:22-29 | each dialogue-line field's errors depend on that field alone |
| Uploads.ExtName | apps/backend-api/src/uploads/uploads.controller.ts:28 | the extension is empty or a dot followed by no other dot, contains no slash, and is a suffix of the path's last component |
| Uploads.ExtNameCases | apps/backend-api/src/uploads/uploads.controller.ts:28 | the extension is empty exactly when the last component has no dot, starts with its only dot, or is ".."; otherwise it runs from the last dot |
| Uploads.ExtNameOfPhoto | apps/backend-api/src/uploads/uploads.controller.ts:28 | "photo.png" has extension ".png" |
| Uploads.ExtNameOfArchive | apps/backend-api/src/uploads/uploads.controller.ts:28 | "archive.tar.gz" has extension ".gz": only the last dot counts |
| Uploads.ExtNameWithoutDot | apps/backend-api/src/uploads/uploads.controller.ts:28 | a name without a dot contributes no extension |
| Uploads.ExtNameOfDotFile | apps/backend-api/src/uploads/uploads.controller.ts:28 | a name whose only dot leads it (".env") contributes no extension |
| Uploads.ExtNameOfTrailingDot | apps/backend-api/src/uploads/uploads.controller.ts:28 | a trailing dot is itself the extension |
| Uploads.RandomSuffix | apps/backend-api/src/uploads/uploads.controller.ts:27 | rounding a draw from [0, 1) scaled by 1e9 gives a whole number at most 1e9 within half of the scaled draw |
| Uploads.StoredFilename | apps/backend-api/src/uploads/uploads.controller.ts:26-29 | the stored name ends with the original name's extension and has no slash when the field name has none |
| Uploads.StoredFilenameUsesOnlyExtension | apps/backend-api/src/uploads/uploads.controller.ts:28-29 | original names with the same extension give the same stored name: nothing else of the client's name is used |
| Uploads.StoredFilenameInjective | apps/backend-api/src/uploads/uploads.controller.ts:26-29 | for a fixed field name and extension, equal stored names imply equal clock readings and equal random numbers |
| Uploads.SameNameSameInstant | apps/backend-api/src/uploads/uploads.controller.ts:26-29 | two uploads in the same millisecond with different random numbers get different names |
| Uploads.BaseUrl | apps/backend-api/src/uploads/uploads.controller.ts:50 | a non-empty API_URL is the base; an unset or empty one falls back to http://localhost:3000 |
| Uploads.FileUrl | apps/backend-api/src/uploads/uploads.controller.ts:52 | the URL is the base, then "/uploads/", then the filename, with nothing added or dropped |
| Uploads.FileUrlNamesStoredFile | apps/backend-api/src/uploads/uploads.controller.ts:52 | for a filename without slashes, the text after the URL's last slash is the filename |
| Uploads.Upload | apps/backend-api/src/uploads/uploads.controller.ts:17-53 | no file, or a file in another field, is refused; a file in the right field is accepted exactly when its size passes the 5 MiB check (always below, never above), and every size that fails it is refused as too large; an accepted upload returns base + "/uploads/" + stored name, whose last segment is the stored name |
| Decimal.NatToString | apps/backend-api/src/uploads/uploads.controller.ts:26-27 | the decimal rendering of a number is a non-empty run of digits |
| Decimal.DigitsValueOfNatToString | apps/backend-api/src/uploads/uploads.controller.ts:26-27 | reading back the rendered digits gives the number |
| Decimal.NatToStringInjective | apps/backend-api/src/uploads/uploads.controller.ts:26-27 | distinct numbers render differently |
| Tables.Rows | apps/backend-api/src/vocabularies/vocabularies.service.ts:17-19 | the listing has one row per stored record, the i-th being the record under the i-th smallest key |
| Tables.RowsMembers | apps/backend-api/src/vocabularies/vocabularies.service.ts:17-19 | a record is listed exactly when it is stored |
| Tables.RowsDistinct | apps/backend-api/src/vocabularies/vocabularies.service.ts:17-19 | when every record carries its own key, no record is listed twice |
| Tables.DistinctPermutation | apps/backend-api/src/levels/levels.service.ts:18 | reordering a list without repeats gives a list without repeats |
| Tables.SortBy | apps/backend-api/src/levels/levels.service.ts:18 | the result is in non-decreasing key order and is a permutation of the input |
| Tables.SortByMembers | apps/backend-api/src/levels/levels.service.ts:17-19 | sorting keeps exactly the elements it was given |
| Tables.Filter | apps/backend-api/src/levels/levels.service.ts:25 | keeps the elements that satisfy the condition and only those |
| Tables.FilterDistinct | apps/backend-api/src/levels/levels.service.ts:25 | filtering a list without repeats gives a list without repeats |
| Tables.FilterMembers | apps/backend-api/src/levels/levels.service.ts:25 | an element is kept exactly when it is in the input and satisfies the condition |
| Store.Database.constructor | apps/backend-api/src/levels/levels.service.ts:8 | the database the services share starts as an empty store over a given lessons table whose keys are its lessons' ids; it satisfies the store invariant and issues id 1 first in every table |
| Store.AttachLessons | apps/backend-api/src/dialogue-lines/dialogue-lines.service.ts:18 | each record keeps its position and gets the lesson its lessonId names; a list without repeats stays without repeats (the same join serves vocabularies.service.ts:18) |
| Store.AttachLessonsMembers | apps/backend-api/src/vocabularies/vocabularies.service.ts:18 | a joined record is listed exactly when its record is, with its own lesson |
| Store.LessonFor | apps/backend-api/src/dialogue-lines/dialogue-lines.service.ts:26 | the attached lesson is present exactly when a lesson with that id is stored, and is that lesson; in a table keyed by lesson id its own id is the looked-up lessonId |
| Entities.NewLevelStoresData | apps/backend-api/src/levels/levels.service.ts:10-14 | a created level carries the given id and exactly the data it was created from |
| Entities.ApplyLevelUpdate | apps/backend-api/src/levels/levels.service.ts:29-34 | supplied fields overwrite, absent fields and the id keep their stored values |
| Entities.EmptyLevelUpdate | apps/backend-api/src/levels/levels.service.ts:29-34 | an update supplying nothing leaves the level unchanged |
| Entities.LevelUpdateIdempotent | apps/backend-api/src/levels/levels.service.ts:29-34 | applying the same update twice equals applying it once |
| Entities.LevelUpdatesCompose | apps/backend-api/src/levels/levels.service.ts:29-34 | two updates in a row act as one in which the later supplied fields win |
| Entities.NewVocabularyStoresData | apps/backend-api/src/vocabularies/dto/create-vocabulary.dto.ts:1-10 | a created entry carries the given id and exactly the data it was created from |
| Entities.ApplyVocabularyUpdate | apps/backend-api/src/vocabularies/vocabularies.service.ts:29-34 | supplied fields overwrite, absent fields and the id keep their stored values |
| Entities.EmptyVocabularyUpdate | apps/backend-api/src/vocabularies/vocabularies.service.ts:29-34 | an update supplying nothing leaves the entry unchanged |
| Entities.VocabularyUpdateIdempotent | apps/backend-api/src/vocabularies/vocabularies.service.ts:29-34 | applying the same update twice equals applying it once |
| Entities.NewDialogueLineStoresData | apps/backend-api/src/dialogue-lines/dialogue-lines.service.ts:10-14 | a created line carries the given id and exactly the data it was created from |
| Entities.ApplyDialogueLineUpdate | apps/backend-api/src/dialogue-lines/dto/update-dialogue-line.dto.ts:4 | every field of the update is optional: supplied fields overwrite, absent fields and the id keep their stored values |
| Entities.EmptyDialogueLineUpdate | apps/backend-api/src/dialogue-lines/dialogue-lines.service.ts:30-35 | an update supplying nothing leaves the line unchanged |
| Entities.DialogueLineUpdateIdempotent | apps/backend-api/src/dialogue-lines/dialogue-lines.service.ts:30-35 | applying the same update twice equals applying it once |
| Entities.FullDialogueLineUpdateReplaces | apps/backend-api/src/dialogue-lines/dialogue-lines.service.ts:30-35 | an update supplying every field yields the record the same data would create under the line's id |
| Levels.LessonsOf | apps/backend-api/src/levels/levels.service.ts:25 | the included lessons are exactly the stored lessons whose levelId is the level's id, each listed once when the table is keyed by lesson id |
| Levels.LevelsService.FindAll | apps/backend-api/src/levels/levels.service.ts:16-20 | one row per stored level, in non-decreasing level order, listing exactly the stored levels, and no level twice in a valid store: a permutation of the table |
| Levels.LevelsService.FindOne | apps/backend-api/src/levels/levels.service.ts:22-27 | present exactly when the id is stored; then the stored level with exactly its lessons, none listed twice in a valid store |
| Levels.LevelsService.Create | apps/backend-api/src/levels/levels.service.ts:10-14 | a level number already in use is refused with a unique violation and no record changes; otherwise the next id gets the new record, the table grows by one and no other record changes; either way the id counter advances |
| Levels.LevelsService.Update | apps/backend-api/src/levels/levels.service.ts:29-34 | an absent id fails with not found; a level number held by another level fails with a unique violation; otherwise only record id changes, to the partial update applied to it; a failure changes nothing |
| Levels.LevelsService.Remove | apps/backend-api/src/levels/levels.service.ts:36-40 | an existing id is deleted and returned, nothing else changes, and a following lookup finds nothing; an absent id fails with not found and changes nothing |
| DialogueLines.DialogueLinesService.FindAll | apps/backend-api/src/dialogue-lines/dialogue-lines.service.ts:16-21 | one row per stored line, in non-decreasing orderIndex order, listing exactly the stored lines each with its lesson, and no line twice in a valid store, where each attached lesson's id is the line's lessonId |
| DialogueLines.DialogueLinesService.FindOne | apps/backend-api/src/dialogue-lines/dialogue-lines.service.ts:23-28 | present exactly when the id is stored; then that line with its lesson, whose id in a valid store is the line's lessonId |
| DialogueLines.DialogueLinesService.Create | apps/backend-api/src/dialogue-lines/dialogue-lines.service.ts:10-14 | the next id gets the new record, the table grows by one, no other record changes, and a lookup finds it |
| DialogueLines.DialogueLinesService.Update | apps/backend-api/src/dialogue-lines/dialogue-lines.service.ts:30-35 | only line id changes, to the partial update applied to it; an absent id fails with not found and changes nothing |
| DialogueLines.DialogueLinesService.Remove | apps/backend-api/src/dialogue-lines/dialogue-lines.service.ts:37-41 | an existing id is deleted and returned, nothing else changes, and a following lookup finds nothing; an absent id fails and changes nothing |
| Vocabularies.VocabulariesService.FindAll | apps/backend-api/src/vocabularies/vocabularies.service.ts:16-20 | one row per stored entry, listing exactly the stored entries each with its lesson, no entry twice in a valid store, each attached lesson's id being the entry's lessonId, in no promised order |
| Vocabularies.VocabulariesService.FindOne | apps/backend-api/src/vocabularies/vocabularies.service.ts:22-27 | present exactly when the id is stored; then that entry with its lesson, whose id in a valid store is the entry's lessonId |
| Vocabularies.VocabulariesService.Create | apps/backend-api/src/vocabularies/vocabularies.service.ts:10-14 | the next id gets the new record, the table grows by one, no other record changes, and a lookup finds it |
| Vocabularies.VocabulariesService.Update | apps/backend-api/src/vocabularies/vocabularies.service.ts:29-34 | only entry id changes, to the partial update applied to it; an absent id fails with not found and changes nothing |
| Vocabularies.VocabulariesService.Remove | apps/backend-api/src/vocabularies/vocabularies.service.ts:36-40 | an existing id is deleted and returned, nothing else changes, and a following lookup finds nothing; an absent id fails and changes nothing |

## Left out

- Writing the uploaded bytes to `./uploads` (the multer disk storage) is file-system I/O and is not modelled; only the name the file gets is. The interceptor stores the file before the size pipe runs (apps/backend-api/src/uploads/uploads.controller.ts:17-39), so an upload refused as too large has still been written to disk under its generated name; the model's refusal says nothing about the disk.
- `Date.now()`, `Math.random()` and `process.env.API_URL` are inputs of `Uploads.Upload`, not modelled sources of values.
- Uploads.Upload: at exactly 5 MiB the outcome depends on the `SizeComparison` parameter. The size validator's comparison lives in the framework, which is not part of this model.
- Uploads.Upload: the refusal is an `UploadError` value. The HTTP status the framework answers with is not modelled; it is set by the file pipe's configuration in the framework, which is not part of this model.
- Uploads.Upload: the `UnexpectedField` and `FileRequired` outcomes are the file interceptor's and the file pipe's documented defaults (one accepted field; a file is required). Their code is not part of this model.
- The commented-out file-type validator in the upload controller is inactive code and is not modelled.
- Foreign keys: the database schema is not part of this model.
  - Creating or updating a vocabulary entry or dialogue line does not check that its lesson exists. The attached lesson is therefore an `Option`.
  - Levels.LevelsService.Remove: a plain delete. Whether the database refuses to delete a level that still has lessons, or deletes them with it, is decided by the database schema. The model always deletes the level and leaves its lessons pointing at a level that no longer exists.
- The lessons table is read by the level and dialogue/vocabulary lookups but never written. The lessons service is not part of this model, so lesson ordering is not modelled either.
- Levels.LevelsService.FindOne: the lessons are listed in id order, but the contract promises only their membership and that none repeats. The query states no order for included lessons.
- Levels.LevelsService.Create: the uniqueness of `level` is taken from the seed script's upsert keyed by `level` (apps/backend-api/prisma/seed.ts:43-47). The database schema that declares it is not part of this model.
- The level create/update, vocabulary update and dialogue-line create data objects are not part of this model:
  - the level create object holds the level's columns;
  - the update objects are partial forms of the create objects, as the dialogue-line update object is;
  - the dialogue-line create object holds the fields the admin client sends.
- An update cannot clear an optional column: `None` in an update object means "not supplied". Sending an explicit null is not modelled.
- Ids are issued by a per-table counter that starts at 1 and is never reused, standing for the database's auto-increment. Levels.LevelsService.Create draws the id before the uniqueness check, so a refused insert uses up an id, as a PostgreSQL sequence does. Concurrent requests and transactions are not modelled.
- JavaScript number coercion: how a form string becomes a number (or NaN), floating-point rounding and `Number.MAX_SAFE_INTEGER` are not modelled. The validators receive the coerced value as a real, so the infinities cannot be expressed: zod 3's number check has no finiteness test, so "Infinity" passes `levelId`, `lessonId` and `orderIndex` and fails `level` with "Level must be at most 6" only; the model covers neither.
- Uploads.RandomSuffix: the draw and the product `draw * 1e9` are exact reals, where JavaScript computes them in double precision. Rounding differences of the last bit are not modelled.
- Decimal.NatToString: matches JavaScript's rendering of a whole number only below 10^21. From there JavaScript writes an exponent; clock readings and random suffixes stay far below that bound.
- The messages "Required" (absent string) and "Expected number, received nan" (a coercion that yields NaN) are the defaults of zod version 3. The zod version is not pinned in the files of this model, and zod 4 words its defaults differently.
- A submitted value of the wrong JavaScript type (a number where a string is expected) cannot be expressed: string fields are `Option<string>`.
- The React pages and components, including the client-side 5 MiB check and the lesson filter of the dialogue page, are UI state and are not modelled.
- The admin client's HTTP calls, authentication (passport, bcrypt, JWT), the seed script, the module wiring and the pass-through controllers are left out. The controllers' string-to-number id conversion is part of that.
