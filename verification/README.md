# Dataset cache-binding pipeline of autotune, in Dafny

This project models the request pre-processing of the autotune backend. Every dataset endpoint passes through this pipeline before its view runs. It is written as pure functions over an immutable store, and it proves what the pipeline promises.

- **Identity** (`UserIDMixin.dispatch`). It checks the `User-Id` and `role` headers in a fixed order. It then finds the user through a read-through cache in front of the store, or creates the user.
- **`is_valid_uuid`**. This is modelled the way Python evaluates it:
  - `uuid.UUID(text)` normalises the text (removes `urn:` and `uuid:`, strips braces, removes hyphens);
  - it reads 32 hexadecimal digits;
  - `version=4` overwrites the version digit and the variant bits;
  - `str(...)` prints the result in the 8-4-4-4-12 layout;
  - the printed text is compared with the input.

  The project proves this equal to a reference predicate: the canonical lower-case text of section 3 of RFC 4122, with version digit 4 (section 4.1.3) and variant bits 10 (section 4.1.1).
- **Binder and dataset decision table** (`CacheDatasetMixin.dispatch`).
  - The task type's column mapping is looked up first.
  - The user's first workflow whose first dataset has that task type is reused. Otherwise a "Training" workflow is created.
  - The dataset then comes from one of three sources: the request's `owner/name` reference (found or created per task type and workflow), the workflow's own first dataset, or nowhere, which is an error.
  - A dataset that is not cached yet is ingested.
- **Ingestion** (`cache_dataset`).
  - Each `.csv` file of the remote repository is checked against the mapping.
  - Row ids are reconciled: valid version-4 ids are kept and every other row gets a fresh `uuid4()`.
  - One row is saved per table row.
  - The dataset is marked cached, with the commit hash, only after every file went in.
- **Error translation**. ValueError becomes 400, FileNotFoundError becomes 404, and anything else becomes 500, each with `{"error": str(e)}`.
- **Four view validators** of workflow/views.py:
  - the prompts-or-files intake of `GenerateTaskView.post`;
  - the batch count of `IterateWorkflowView.post`;
  - the input/output record of `DatasetView.post`;
  - the page parameters of `DatasetView.get`.

## Environment and oracles

Everything outside the process is a parameter:

- **Store.** The database is the `Store` value: users by id, workflows and datasets in creation order, rows as an append log, a primary-key counter and a count of `uuid4()` draws.
- **Cache.** The identity cache is a map.
- **Fresh ids.** `uuid.uuid4()` is an `Entropy` function from draw number to a version-4 identifier.
- **Remote repositories.** The Hugging Face API is a `Remote` value: existing repositories with their commit hash and file list, where a file is downloaded to, and the table a downloaded file reads as.
- **Task mappings.** `get_task_mapping` is a `Registry` map.
- **Parsing.** `ast.literal_eval` is a function parameter.

## Behaviour that follows the code

The code is followed wherever it differs from the documented intent. The points worth knowing:

- **Mapping before binding.** The task mapping is checked before any workflow is bound or created, exactly as the code orders it.
- **Other HTTP methods.** A method other than GET or POST never assigns `task_type`. The Python error that follows is answered with 500.
- **Workflows that outlive a refusal.** A workflow created for a request stays in the store when the request is then refused, whether for a malformed reference or for "No dataset available.". Each such request adds another empty training workflow (`NoReferenceForNewWorkflow`).
- **Unreachable branch.** "No dataset associated with the workflow." can never be raised, because a workflow the binder reuses always has a first dataset (`NoWorkflowDatasetUnreachable`).
- **Which reference is ingested.** When a reference is given and the workflow already has an uncached dataset of that task type, the given reference is ingested into that dataset's record (`ReferenceOverridesRecord`). A cached dataset ignores the reference altogether (`SettledDispatch`).
- **Short mappings.** `DatasetView.post` with a mapping of fewer than two keys raises IndexError. The surrounding dispatch answers that with 500 (`RecordShortMapping`).
- **Negative operands.** The batch count uses Python's floor division, which is modelled explicitly for negative operands (`FloorDiv`).

## Model

| member | source | states |
|---|---|---|
| Failures.TranslationTable | workflow/mixins.py:207-217 | every failure is answered with 400, 404 or 500; 404 is exactly the missing repository; 500 is exactly the unbound `task_type` and the IndexError; column, reference, task-type and no-CSV failures are 400 |
| Identity.Resolve | workflow/mixins.py:52-86 | a refusal leaves cache and store untouched; success needs a non-empty id that parses and a non-empty role, and leaves the user cached under `user_<canonical id>`; only users may change, by at most one added, and the store stays valid |
| Identity.ResolveRefusals | workflow/mixins.py:53-65 | the three 401 refusals in their order (missing id, malformed id, missing role), each as an if-and-only-if; any UUID version is accepted |
| Identity.ResolveCacheHit | workflow/mixins.py:67-68 | a cache hit returns the cached user and changes neither cache nor store |
| Identity.ResolveStoreHit | workflow/mixins.py:69-71 | a cache miss with a stored user caches that user and changes no store record |
| Identity.ResolveCreates | workflow/mixins.py:72-81 | a miss in both creates exactly one active user with the supplied role and caches it |
| Identity.ResolvePreserves | workflow/mixins.py:67-85 | the cache stays consistent (each user under its own key), so the resolved user carries the requested id |
| Identity.ResolveTwice | workflow/mixins.py:67-85 | resolving the same headers again returns the same user and changes nothing |
| Uuid.ValidUuidIsCanonicalV4 | workflow/mixins.py:89-97 | `is_valid_uuid(s)` holds exactly when `s` is lower-case 8-4-4-4-12 hex with version digit 4 and variant digit in 8, 9, a, b |
| Uuid.ValidUuidCanonical | workflow/mixins.py:93-95 | text that survives the parse, version-4 and print round trip is canonical version-4 text |
| Uuid.CanonicalV4Valid | workflow/mixins.py:93-95 | canonical version-4 text survives that round trip unchanged |
| Uuid.ForceVersion4 | workflow/mixins.py:94 | `version=4` sets digit 12 to 4 and the variant bits of digit 16 to 10, keeping that digit's two low bits and every other digit |
| Uuid.FormatCanonical | workflow/mixins.py:95 | `str(uuid)` always prints canonical lower-case hyphenated text |
| Uuid.ParseHyphenated | workflow/mixins.py:94 | hyphenated hex of either case parses, and prints back as its lower-cased text |
| Uuid.ParseUuid | workflow/mixins.py:57-60 | an accepted user id names a canonical identifier |
| Uuid.ValidUuidParses | workflow/mixins.py:58 | every string `is_valid_uuid` accepts is a user id that names itself |
| Uuid.HyphenatedParses | workflow/mixins.py:57-60 | hyphenated hex of either case is a valid user id of any version, naming its lower-cased text |
| Uuid.BracedParses | workflow/mixins.py:89-97 | braces are accepted around a user id but make `is_valid_uuid` fail |
| Uuid.ExampleAccepted | workflow/mixins.py:89-97 | a canonical version-4 identifier is kept |
| Uuid.ExamplesRejected | workflow/mixins.py:89-97 | malformed, upper-case, unhyphenated, version-1 and wrong-variant spellings are rejected |
| Uuid.ExampleUpperCaseUserId | workflow/mixins.py:58 | an upper-case user id is accepted and names the lower-case identity |
| Records.FirstDatasetOf | workflow/mixins.py:135-137 | `filter(workflow_id=...).first()` returns the earliest dataset of that workflow, with no dataset of the workflow before it, or None when it has none |
| Records.FirstDatasetWith | workflow/mixins.py:163-166 | `filter(type=..., workflow_id=...).first()` returns the earliest dataset of the workflow with that type, with no such dataset before it, or None when none matches |
| Records.OwnedBy | workflow/mixins.py:113 | the user's workflows are exactly the stored workflows with that owner |
| Records.FirstOfTypeIsFirst | workflow/mixins.py:163-166 | when a workflow's first dataset has the task type, the per-type lookup finds that same dataset |
| Records.MarkCachedKeepsFirst | workflow/mixins.py:283-285 | marking a dataset cached leaves every workflow's first dataset the same record |
| Records.FirstDatasetOfFresh | workflow/mixins.py:170-176 | a dataset created for a workflow without one becomes its first dataset and the first of its type |
| Binder.Bind | workflow/mixins.py:132-158 | a workflow is created exactly when none of the user's workflows is bound to the task type; otherwise the first bound one in store order is returned with the store unchanged; a created one is `Training`/`training_<type>` with a fresh key |
| Binder.BindValid | workflow/mixins.py:148-155 | binding keeps the store valid and returns a stored workflow of the user |
| Binder.BindCreatedIsEmpty | workflow/mixins.py:148-155 | a created workflow has no dataset |
| Binder.BindFirstMatch | workflow/mixins.py:132-143 | the first bound workflow wins over any later bound one |
| Binder.BoundToMarkCached | workflow/mixins.py:283-285 | ingestion binds and unbinds no workflow |
| Binder.BoundToAppend | workflow/mixins.py:170-176 | a dataset created for another workflow leaves a workflow's binding as it was |
| Resolver.ChooseByReference | workflow/mixins.py:163-176 | an existing dataset of the type and workflow is reused with the store unchanged; otherwise exactly one uncached dataset of the reference is created with a fresh key; either way the per-type lookup then finds the choice |
| Resolver.EnsureCached | workflow/mixins.py:178-180 | a cached dataset is selected as it is, with nothing ingested; an uncached one succeeds exactly when ingestion does |
| Resolver.CacheDispatch | workflow/mixins.py:109-199 | other methods fail with the unbound task type and unknown task types with the invalid-task-type failure, both with the store unchanged; the store stays valid; users are untouched; rows are only appended; a selection names a stored, cached dataset of the requested type in the selected workflow |
| Resolver.CachedDatasetPresent | workflow/mixins.py:188-193 | after a successful cache check the dataset is in the store, marked cached with the repository's commit hash |
| Resolver.PoisedSettles | workflow/mixins.py:178-199 | a successful cache check leaves the workflow bound and first, with its dataset cached |
| Resolver.SettledDispatch | workflow/mixins.py:132-199 | once settled, a dispatch for the same task type returns the same selection and changes nothing, with any well-formed reference or none |
| Resolver.DispatchSettles | workflow/mixins.py:132-199 | a successful dispatch settles the store for that user and task type |
| Resolver.CreatedPoised | workflow/mixins.py:148-176 | a created workflow with its new dataset becomes the user's first bound workflow |
| Resolver.DispatchIdempotent | workflow/mixins.py:109-199 | after a success, a second dispatch for the same task type returns the same selection and leaves the store as the first left it |
| Resolver.NoWorkflowDatasetUnreachable | workflow/mixins.py:183-186 | "No dataset associated with the workflow." is never the outcome |
| Resolver.BoundHasDataset | workflow/mixins.py:132-143 | a workflow the binder reuses has a first dataset, of the task type |
| Resolver.MalformedReferenceKeepsWorkflow | workflow/mixins.py:161-162 | a reference that does not split into two parts is refused with the unpacking error, and a workflow created for the request stays |
| Resolver.NoReferenceForNewWorkflow | workflow/mixins.py:195-196 | with no reference and no bound workflow the request is refused, one more training workflow is left behind, and repeating the request is refused again |
| Resolver.ReferenceOverridesRecord | workflow/mixins.py:161-180 | a reused uncached dataset is ingested from the request's reference, not from its own record |
| Ingest.CsvNames | workflow/mixins.py:231 | the CSV files are exactly the listed files ending in ".csv" (case-sensitive) |
| Ingest.CsvNamesAppend | workflow/mixins.py:231 | the filter keeps the listing order: one more listed file keeps the earlier CSV files in order and comes last when it is a CSV file |
| Ingest.AbsentColumn | workflow/mixins.py:253-257 | None exactly when every mapped column is present; otherwise the first mapped column, in mapping order, that is absent |
| Ingest.Fields | workflow/mixins.py:277-278 | the row's fields are exactly the task keys, each holding its mapped column's cell |
| Ingest.KeepsIdIsValidUuid | workflow/mixins.py:259-263 | a row keeps its id exactly when there is an "id" column and `is_valid_uuid` accepts the cell |
| Ingest.ReconcileIds | workflow/mixins.py:259-266 | one id per row, the kept ones equal to their cells |
| Ingest.ReconcileDrawsInOrder | workflow/mixins.py:259-266 | the replaced ids are exactly the next fresh draws, each used once, in row order |
| Ingest.IngestFile | workflow/mixins.py:250-281 | a file lacking a mapped column fails naming that column and the file's last path segment, before any of its rows is saved; otherwise one row per table row is appended, of the dataset, named after the file, with the mapped fields read after id reconciliation, so a mapped "id" column holds the reconciled id |
| Ingest.IngestFileIdColumn | workflow/mixins.py:259-278 | a task key mapped to the "id" column stores the row's reconciled id: its own valid id, or the fresh one |
| Ingest.IngestFileIds | workflow/mixins.py:259-271 | every saved row whose id was valid keeps it |
| Ingest.IngestFileDraws | workflow/mixins.py:259-266 | the ids of one saved file that were replaced are the draws it consumed |
| Ingest.IngestFiles | workflow/mixins.py:250-281 | the loop appends its saved blocks, in order, to the rows and changes nothing else but the draw count; it gets through exactly when it saved a block for every file, and a failure is a missing column |
| Ingest.IngestFilesBlock | workflow/mixins.py:250-281 | block `j` is file `j`: all mapped columns present, saved row for row with its kept ids and its mapped fields, a mapped "id" column holding the reconciled id |
| Ingest.IngestFilesStep | workflow/mixins.py:250-281 | one more file either fails, adding nothing, or adds exactly its own block |
| Ingest.IngestFilesFailure | workflow/mixins.py:250-257 | a failed loop stopped at the file after the saved ones, for that file's first absent column |
| Ingest.IngestFilesStop | workflow/mixins.py:250-257 | a failure is carried over from the earlier files or raised by the last file |
| Ingest.CacheDataset | workflow/mixins.py:224-285 | only rows and the ingested dataset change; rows are only appended; a failure is a missing repository, no CSV file or a missing column, and leaves every dataset as it was; success marks the dataset cached with the repository's commit hash |
| Ingest.CacheDatasetOutcome | workflow/mixins.py:228-257 | success exactly when the repository exists, has a CSV file, and every file has every mapped column; the failures come in that order, naming the first failing file |
| Ingest.CacheDatasetRows | workflow/mixins.py:259-280 | on success the new rows are, file after file, one row per table row with the mapped fields (a mapped "id" column holding the reconciled id) and the kept ids |
| Ingest.CacheDatasetKeepsEarlierRows | workflow/mixins.py:250-285 | on a missing column the rows of the earlier files stay saved, none of the failing file's are, and no dataset is marked |
| Ingest.CacheDatasetValid | workflow/mixins.py:224-285 | ingestion keeps the store valid |
| Pipeline.Handle | workflow/mixins.py:52-222 | a request through both mixins keeps the store valid, never loses a user, and answers only with 401, 400, 404 or 500 |
| Pipeline.UnauthorizedOnlyForIdentity | workflow/mixins.py:52-65 | 401 is answered exactly when identity resolution refuses, and then nothing changes |
| Pipeline.UnknownTaskTypeAnswered | workflow/mixins.py:127-130 | an unknown task type is answered 400 "Please give a valid task type." with no workflow, dataset or row changed |
| Pipeline.OtherMethodAnswered | workflow/mixins.py:115-127 | a method other than GET or POST is answered 500 with Python's unbound-variable text |
| Pipeline.NotFoundIsMissingRepository | workflow/mixins.py:210-212 | every 404 says "Dataset not found." |
| Text.Split | workflow/mixins.py:162 | `split("/")` gives at least one part, no part holds the separator, and joining the parts gives back the text |
| Text.SplitPairRoundTrip | workflow/mixins.py:162 | a two-part split re-joins to the reference, and a re-joined pair splits back into the pair |
| Text.LastSegmentOfPath | workflow/mixins.py:268 | the file name is the tail of the path after its last slash, or the whole path when it has no slash |
| Text.IntRoundTrip | workflow/views.py:720-721 | `int(str(n)) == n` for every integer whose decimal text has at most 4300 digits, the default limit beyond which `str()` raises |
| Text.ParseNegative | workflow/views.py:720-721 | a minus sign before at most 4300 digits reads as the negated value of the digits |
| Text.ParseTooManyDigits | workflow/views.py:720-729 | a run of more than 4300 digits is refused with ValueError, whatever its value |
| Text.ParseIntExamples | workflow/views.py:720-721 | surrounding whitespace is ignored; a stray character or an empty text is refused |
| Text.ParseStripped | workflow/views.py:720-721 | `int()` reads a text as it reads the text with its surrounding whitespace removed |
| Text.ParseUnsigned | workflow/views.py:720-721 | a text that starts and ends with a digit is read exactly when it is all digits, at most 4300 of them, as their decimal value |
| Text.ParseIntNeedsDigit | workflow/views.py:720-721 | an accepted number has at least one digit |
| Views.UploadProblem | workflow/views.py:466-488 | a file is accepted exactly when its lower-cased name ends in ".csv", it reads as CSV and it has a `prompts` column |
| Views.ReadUploads | workflow/views.py:465-489 | the files are accepted exactly when every one is |
| Views.ReadUploadsRefusal | workflow/views.py:466-488 | a refusal is the refusal of the first refused file |
| Views.ReadUploadsAppend | workflow/views.py:489 | prompts of two batches of files are the first batch's followed by the second's; a refusal in the first batch wins |
| Views.ReadOneUpload | workflow/views.py:465-489 | one accepted file contributes exactly its prompt column |
| Views.GenerateTask | workflow/views.py:442-515 | every refusal is a 400 except an exception `literal_eval` raises other than ValueError or SyntaxError, which leaves the view as a 500; an accepted request has a truthy batch size, and a total only when truthy |
| Views.GenerateBothRefused | workflow/views.py:449-455 | files together with prompts are refused before anything else |
| Views.GenerateFromFiles | workflow/views.py:456-489 | with files only: accepted exactly when `example_per_prompt` is given and every file is accepted; the prompts are the files' columns in order; total and batch size become `example_per_prompt` |
| Views.GenerateFromText | workflow/views.py:491-507 | with prompts only: accepted exactly when `example_per_prompt` is given and the text is a list; a parse error is the 400 "Invalid prompts format" and an uncaught exception a 500; total and batch size become `example_per_prompt` |
| Views.GenerateFromNothing | workflow/views.py:509-515 | with neither: accepted with no prompts, the request's own total when truthy, and its batch size or 5 |
| Views.UploadExtensionExamples | workflow/views.py:467 | "DATA.CSV" is accepted and "data.csv.txt" is refused |
| Views.FloorDiv | workflow/views.py:200 | Python's `//` rounds toward negative infinity for either sign of divisor |
| Views.TotalBatches | workflow/views.py:198-201 | the count is at least 1, and a zero batch size is the division error |
| Views.TotalBatchesIsCeiling | workflow/views.py:198-201 | for a positive batch size the count is the least k >= 1 whose k batches cover the total |
| Views.TotalBatchesExamples | workflow/views.py:198-201 | 10 in batches of 5 is 2, 11 is 3, 0 is 1, and a zero batch size fails |
| Views.BatchCount | workflow/views.py:166-201 | the request's batch size gives a count exactly when it is a nonzero integer, and then the ceiling count; zero is ZeroDivisionError; a text `int()` refuses is ValueError, one it reads is TypeError at the addition; null is TypeError; all uncaught |
| Views.BatchCountText | workflow/views.py:166-201 | a batch size sent as the text of a positive number fails with TypeError where the number itself is counted |
| Views.RecordInputOutput | workflow/views.py:781-811 | a missing input is refused before a missing output, both 400 with nothing saved; success exactly when both are given and the mapping has two keys; the one record appended is of the cached dataset, file "train.csv", with exactly the first key set to the input and the second to the output, under the next fresh id |
| Views.RecordShortMapping | workflow/views.py:804-809 | a mapping of fewer than two keys is answered 500 "list index out of range" with nothing saved |
| Views.ParsePaging | workflow/views.py:715-729 | accepted exactly when each parameter is absent or reads as an integer, at most 4300 digits; the page is `int(page)` or 1 and the size `int(perPage)` or 10; otherwise the 400 "Page and page size must be integers." |
| Views.PagingRoundTrip | workflow/views.py:715-729 | printed integers come back as page and size; absent parameters give 1 and 10 |
| Views.PagingRefusals | workflow/views.py:719-729 | an empty, non-numeric or over-long page is refused |

## Left out

- Hugging Face API calls are not modelled. `repo_exists`, `repo_info`, `list_repo_files` and `hf_hub_download` are the `Remote` parameter. Network failures inside these calls are not modelled.
- pandas CSV reading is not modelled. Every file is an already parsed table of string cells. Type inference, so non-string cells such as integer ids or NaN, and unreadable repository files are not modelled.
- `ast.literal_eval` is a parameter. Only its four outcomes matter: a list of prompts, another literal, a ValueError or SyntaxError, or another exception such as the TypeError of an unhashable dict key, which the view does not catch. Django's error page for that last case is not modelled, only its 500 status and the exception text.
- `uuid.uuid4()` randomness is not modelled. The `Entropy` parameter stands in for it and is taken to yield version-4 identifiers.
- The Django ORM is not modelled: `save()` is an append to the row log. Upsert on an existing primary key, duplicate row ids and database constraints are not modelled. workflow/models.py is not part of this model, so the `DatasetData` id default of `DatasetView.post` is taken to be `uuid4()`.
- The cache's one-hour lifetime is not modelled: an expired entry is simply absent from the map. Concurrent requests are not modelled.
- Logging, `print`, JSON rendering, `get_object_or_404` and the workflow ownership check of `GenerateTaskView.post` are not modelled.
- The rest of `GenerateTaskView.post` after the intake is not modelled: `max_iterations`, `max_concurrent_fetches`, the Celery task and the LLM calls.
- Views.BatchCount: the workflow's `total_examples` is taken to be an integer, and the request's `batch_size` to be null, an integer or a text. A float or boolean batch size, which Python would count with float or integer arithmetic, is not modelled. Neither is what `DataFetcher` (not part of this model) does between `int(batch_size)` and the count.
- Ingest.Fields: the task keys are kept in a `fields` map apart from the row's id, file name and dataset. `setattr` stores a key named `id` or `file` over those attributes, fails for `dataset`, and silently drops a key that is not a `DatasetData` field; workflow/models.py is not part of this model, so the registry is taken to name only `DatasetData` fields other than `id`, `file` and `dataset`.
- Decimal cost arithmetic in `IterateWorkflowView.post` is not modelled, nor serializers, pagination or the other CRUD views.
- `get_task_mapping` comes from workflow/utils.py, which is not part of this model. It is the `Registry` parameter, where an unknown or absent task type finds the empty mapping.
- The order of query results is not modelled as the database gives it. `Workflows.objects.filter(user_id=...)` and `Dataset.objects.filter(...).first()` name no ordering, so the database may return rows in any order, and `first()` falls back to primary-key order, which need not be creation order. The model takes both to return workflows and datasets in creation order; `Binder.BindFirstMatch` and the first-dataset lookups rest on that.
- Views.GenerateTask: request values are modelled as text, integers or null only. Truthiness of other JSON values is not modelled.
- Text.Lower: lowers ASCII letters only, not the rest of Unicode as Python's `lower()` does.
- Text.ParseInt: reads an optional sign and at most 4300 ASCII decimal digits between ASCII whitespace, the default limit of CPython 3.11 to 3.13; a raised or lowered `sys.set_int_max_str_digits` is not modelled. It does not accept the underscores, non-ASCII digits or Unicode whitespace that Python's `int()` accepts.
- Uuid.ParseUuid: requires exactly 32 hexadecimal digits after normalisation. Python's `int(hex, 16)` also accepts a sign, a `0x` prefix, underscores, surrounding whitespace, or non-ASCII decimal digits such as the full-width '０' within those 32 characters. This does not affect `is_valid_uuid`, whose round trip refuses all such texts, but the model refuses some `User-Id` headers Python accepts.
