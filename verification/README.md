# Take-on ingest: record normalisation, modelled in Dafny

This project models the record-normalisation core of the survey results
ingest stage. The stage turns raw take-on survey exports and brick survey
responses into the flat, one-row-per-respondent shape the results pipeline
reads. Three handlers make up that core:

- **Brick-type expansion** (`ingest_brick_type_method.py`). Each respondent
  record gets one column per configured question of every listed brick type.
  The columns of the respondent's own type receive its answers, the columns
  of every other type are set to 0, and the shared answer keys of its own type
  are then dropped.
- **Take-on extraction** (`ingest_takeon_data_method.py`). The export
  document is walked survey by survey, then contributor by contributor. It
  keeps the surveys whose code is in `survey_codes` and the contributors of
  the run's period or the previous one. Each kept contributor becomes one row:
  - the translated survey marker;
  - the stringified identity fields;
  - one column per question label, 0 unless a numeric answer overwrites it;
  - a response type taken from the status, defaulting to 1.
- **Legacy take-on ingest** (`ingest_takeon_data.py`). This is the older
  hard-coded variant:
  - it keeps only surveys "066" (land) and "076" (marine), and only the exact
    period;
  - it fills seven fixed question columns with `""`, then copies the raw
    response text;
  - it adds a `land_or_marine` marker;
  - its handler turns every exception into a message whose prefix names the
    exception's class.

Modules, in dependency order:

| file | module | contents |
|---|---|---|
| `results.dfy` | `Results` | `Option`, `Result` (with `:-` support) |
| `values.dfy` | `Values` | JSON scalars, records, `KeyError`/`AttributeError`; Python's `str()`, `isnumeric()`, `int()`; the method reply |
| `brick_types.dfy` | `BrickTypes` | brick-type expansion and its properties |
| `documents.dfy` | `Documents` | the export document and the survey → contributor traversal both take-on extractors share |
| `takeon.dfy` | `TakeOn` | take-on extraction (method handler) |
| `legacy_takeon.dfy` | `LegacyTakeOn` | legacy extraction |
| `ingest_handler.dfy` | `IngestHandler` | the legacy handler: parameters, exceptions, error messages |

How the model is built:

- Each handler body is a pure function from its inputs to a `Result`.
- The first exception a Python loop would raise becomes the `Failure` the
  model returns.
- Dictionary iteration order matters in the brick expansion, where later
  writes win and a copy reads the current value. So a brick type's question
  map is a sequence of `(answer key, column)` pairs, not a map.
- A missing node list in the export (`data.allSurveys.nodes` and the like)
  is a `KeyError` reported under that path.

Points where the code behaves differently from what one might expect:

- **The brick-type column is kept.** Lines 69-70 remove only the answer
  keys of the respondent's own type, so the brick-type column stays in the
  expanded record, unless the type's own answer keys include it.
  `BrickTypes.ExpandExample` proves the output with the column.
- **Copies read current values.** "Every column of the own type holds the
  original answer" holds only when the configuration writes neither the
  brick-type column nor the respondent's own answer keys. The code copies
  current values and re-reads the brick-type column for every type. The value
  lemmas require exactly that (`BrickTypes.Separated`).
- **Label values, not label keys.** In take-on extraction the columns that
  are always present are the label *values* of `question_labels`, not its
  keys.
- **Not every bad answer is ignored.** A non-numeric answer text is ignored,
  and so is any response node whose `questioncode` is not a key of
  `question_labels`, whatever its response holds: the `and` on line 82
  short-circuits. A node with a labelled code whose response is not a string
  at all (`null`, a number) raises `AttributeError` from `.isnumeric()` and
  fails the whole extraction. So does any response node without
  `questioncode`.
- **A missing parameter is a `KeyError`.** The legacy handler looks up
  `bucket_name`, `file_name` and `period` before it examines the schema's
  errors, so an absent one is reported as a `KeyError` on its name, as the
  repository's test of a missing `file_name` expects. The parameter
  validation error of line 68 is raised when all three are present but the
  schema reports another problem, such as a missing `sqs_queue_url`.

## Model

| member | source | states |
|---|---|---|
| `Values.ReplyOf` | ingest_takeon_data_method.py:99-111 | a handler reports success exactly when its transformation succeeded; on success it carries the rows and no error, on failure the error and no rows |
| `Values.NatToDecimal` | ingest_takeon_data_method.py:69-73 | `str()` of a natural number is non-empty and all decimal digits, so it passes `isnumeric` |
| `Values.ParseRender` | ingest_takeon_data_method.py:82-85 | `int()` of `str(n)` gives back `n` for every natural number |
| `Values.ParseDecimal` | ingest_takeon_data_method.py:85 | `int()` of a numeral without a leading zero is at least 1, and at least 10 when it has more than one digit |
| `Values.Render` | ingest_brick_type_method.py:59-69 | `str()` of a string is itself and of `null` is "None"; an integer renders as a non-empty string that starts with a minus sign exactly when the integer is negative |
| `Values.RenderParse` | ingest_takeon_data_method.py:83-85 | `str(int(s)) == s` for every numeral without a leading zero, so `str()` and `int()` are inverse on canonical numerals |
| `Values.RenderIntInjective` | ingest_brick_type_method.py:59-69 | distinct integers give distinct `str()` keys into `brick_questions` |
| `BrickTypes.ZeroFill` | ingest_brick_type_method.py:58-60 | every column configured for the type becomes 0; the key set grows by exactly those columns; every other key keeps its value |
| `BrickTypes.CopyAnswers` | ingest_brick_type_method.py:63-66 | the key set grows by exactly the configured columns and other keys are unchanged; any failure is a `KeyError` on an absent answer key; when the type's answer keys are not among its own columns, it raises exactly when an answer key is absent, and every configured column receives its answer key's value, the last entry for a column winning |
| `BrickTypes.ExpandTypes` | ingest_brick_type_method.py:55-66 | the type loop adds exactly the listed columns and leaves every other key unchanged; reading the brick-type column requires it to be present |
| `BrickTypes.ExpandRespondent` | ingest_brick_type_method.py:54-70 | a respondent expands only if it has the brick-type column |
| `BrickTypes.Expand` | ingest_brick_type_method.py:54-70 | the batch succeeds exactly when every respondent expands; the output keeps order and length; a failure is the error of the first respondent that fails |
| `BrickTypes.BrickTypeMethod` | ingest_brick_type_method.py:23-85 | the handler succeeds exactly when every respondent expands, and then returns the expanded records in order; otherwise it returns an error and no data |
| `BrickTypes.ExpandTypesSucceedsIff` | ingest_brick_type_method.py:55-66 | when neither the brick-type column nor an answer key of the respondent's own type is a listed column, the type loop raises exactly when a listed type has no entry, or the respondent's own listed type lacks an answer key |
| `BrickTypes.ExpandSucceedsIff` | ingest_brick_type_method.py:54-70 | for a separated configuration, expansion succeeds if and only if the record is `Expandable`: brick-type column present, every listed type and its own type mapped, its own answers present |
| `BrickTypes.ExpandFailures` | ingest_brick_type_method.py:58-69 | a missing brick-type column raises `KeyError` on that column; a listed type without an entry makes the expansion fail, whatever the rest |
| `BrickTypes.ExpandedKeys` | ingest_brick_type_method.py:54-70 | when the brick-type column is not a listed column, after expansion the keys are the original ones plus every listed column, minus the own type's answer keys; none of those answer keys remains; unrelated keys keep their values |
| `BrickTypes.OwnKeyMatchesListedType` | ingest_brick_type_method.py:58-69 | for a respondent whose brick type is a number, the entry whose answer keys line 69 removes is that of the listed type line 58 matches, and of no other |
| `BrickTypes.ExpandTypesColumn` | ingest_brick_type_method.py:55-66 | when neither the brick-type column nor an answer key of the respondent's own type is a listed column, a listed column ends with the value its last writer type gives it: the respondent's answer if that type is its own, else 0 |
| `BrickTypes.ExpandLastWriterWins` | ingest_brick_type_method.py:55-66 | the same at the level of a respondent: the last type that configures a column decides it: copied answer for the own type, 0 for another |
| `BrickTypes.ExpandTypesZeroOnly` | ingest_brick_type_method.py:55-60 | when the brick-type column is not a listed column and the respondent's type is none of the listed types, every listed column is 0 |
| `BrickTypes.ExpandUnlistedTypeZeroFills` | ingest_brick_type_method.py:55-70 | when the brick-type column is not a listed column, a respondent of an unlisted type gets 0 in every listed column that is not one of its own answer keys |
| `BrickTypes.ExpandExample` | ingest_brick_type_method.py:54-70 | `{brick_type: 2, q1: 5, q2: 7}` with types `[1, 2]` expands to `{brick_type: 2, col_a: 5, col_b: 7}` |
| `BrickTypes.ExpandTextualTypeLosesAnswers` | ingest_brick_type_method.py:58-70 | a brick type held as the text `"2"` never equals the listed number 2, so its columns are zero-filled, yet its answer keys are still dropped: the answers are lost |
| `Documents.KeptOf` | ingest_takeon_data_method.py:63-64 | a contributor is kept exactly when it is in the node list and its period passes the filter |
| `Documents.Qualifying` | ingest_takeon_data_method.py:61-64 | a contributor yields a row exactly when some kept survey node lists it and its period is kept |
| `Documents.ExtractDocument` | ingest_takeon_data_method.py:59-96 | the traversal succeeds exactly when the document has every node list and field it reads and every kept contributor builds; it then yields, in order, one row per qualifying contributor; if rows fail only with `KeyError`, so does the traversal |
| `TakeOn.LatestAnswer` | ingest_takeon_data_method.py:81-85 | an answer is found for a column only if the column is a question label |
| `TakeOn.LatestAnswerIsLast` | ingest_takeon_data_method.py:81-85 | there is an answer for a column exactly when some response node answers it with numeric text, and it is the value of the last such node |
| `TakeOn.AnswerStep` | ingest_takeon_data_method.py:82-85 | one response node: `KeyError` without `questioncode`, success exactly when a labelled node's response is text; then only the column it answers with numeric text changes, to the integer read |
| `TakeOn.ApplyAnswers` | ingest_takeon_data_method.py:81-85 | the response loop raises exactly when a node lacks `questioncode`, or a labelled node lacks a string `response`; every column then holds its latest numeric answer or keeps its value |
| `TakeOn.DefaultRow` | ingest_takeon_data_method.py:68-78 | the row before answers has the six identity columns and every label column; label columns are 0; identity values are translated or stringified unless a label of the same name overrides them |
| `TakeOn.BuildRecord` | ingest_takeon_data_method.py:65-96 | a row builds exactly when the contributor's survey code is mapped, it has every identity field, responses and a status, and every response can be read; its keys are the fixed columns plus every label |
| `TakeOn.ResponseType` | ingest_takeon_data_method.py:91-94 | the response type is an entry of `statuses` or the default 1, and the default whenever the status is not a key |
| `TakeOn.BuildRecordContents` | ingest_takeon_data_method.py:68-94 | row contents: each label column is the latest numeric answer, else 0; `response_type` is the status's entry, else 1; identity fields translated or stringified |
| `TakeOn.NumericGuard` | ingest_takeon_data_method.py:82-85 | a label column that no response answers with numeric text stays 0 |
| `TakeOn.Extract` | ingest_takeon_data_method.py:59-96 | the extraction succeeds exactly when the document is well formed for these rules, and yields the rows of the qualifying contributors in order |
| `TakeOn.TakeOnSelection` | ingest_takeon_data_method.py:61-64 | a contributor yields a row exactly when its survey node's code is a key of `survey_codes` and its period is the run's or the previous one |
| `TakeOn.TakeOnMethod` | ingest_takeon_data_method.py:24-111 | the handler succeeds exactly when extraction does, with the previous period from the adjacent-period function, and returns the qualifying rows in order |
| `LegacyTakeOn.QuestionTables` | ingest_takeon_data.py:57-66 | the seven question codes are exactly the label keys; no label is a fixed column or `land_or_marine` |
| `LegacyTakeOn.LatestResponse` | ingest_takeon_data.py:97-99 | a response is found for a column only if the column is one of the seven labels |
| `LegacyTakeOn.LatestResponseIsLast` | ingest_takeon_data.py:97-99 | there is a response for a column exactly when some node with a known code answers it, and it is the raw response of the last such node |
| `LegacyTakeOn.AnswerStep` | ingest_takeon_data.py:97-99 | one response node: it raises (`KeyError` only) exactly when it lacks `questioncode`, or has a known code and lacks `response`; then only the column it answers changes, to the raw response |
| `LegacyTakeOn.ApplyAnswers` | ingest_takeon_data.py:97-99 | the response loop raises (`KeyError` only) exactly when a node lacks `questioncode`, or a known-code node lacks `response`; every column then holds its latest raw response or keeps its value |
| `LegacyTakeOn.DefaultRow` | ingest_takeon_data.py:86-94 | the row before answers: the five identity fields copied verbatim and the seven question columns at `""` |
| `LegacyTakeOn.BuildRecord` | ingest_takeon_data.py:84-105 | a row builds exactly when the contributor has every identity field, responses, readable answers and a survey code; its only failure is `KeyError` |
| `LegacyTakeOn.Marker` | ingest_takeon_data.py:101-105 | the marker is `L` exactly for survey "066", `M` exactly for "076", and absent otherwise |
| `LegacyTakeOn.BuildRecordContents` | ingest_takeon_data.py:84-107 | row contents: identity fields verbatim; each question column the latest raw response or `""`; `land_or_marine` present exactly for "066" (`L`) or "076" (`M`) |
| `LegacyTakeOn.Extract` | ingest_takeon_data.py:79-107 | one row per contributor of a "066" or "076" survey node whose period is exactly the run's, in order; succeeds exactly when the document is well formed; fails only with `KeyError` |
| `LegacyTakeOn.LegacySelection` | ingest_takeon_data.py:80-83 | a contributor yields a row exactly when its survey node is coded "066" or "076" and its period equals the run's |
| `IngestHandler.Repr` | ingest_takeon_data.py:116 | `repr` of a string wraps it in matching quotes, double quotes exactly when it holds a single quote and no double quote |
| `IngestHandler.ErrorMessageAsWritten` | ingest_takeon_data.py:113-161 | as written, the message starts with the head of its exception's class and ends with the label and the literal text "aws_request_id" |
| `IngestHandler.ErrorMessage` | ingest_takeon_data.py:113-161 | corrected: the message is non-empty, starts with the head of its exception's class and ends with the invocation's request id |
| `IngestHandler.ClassifyMessage` | ingest_takeon_data.py:113-161 | the six message heads are told apart: reading a message's prefix recovers its exception's class |
| `IngestHandler.ErrorMessageReportsRequestId` | ingest_takeon_data.py:113-161 | two messages for the same exception are equal if and only if their request ids are |
| `IngestHandler.RequestIdIgnored` | ingest_takeon_data.py:116-117 | as written, the message equals the one for the request id "aws_request_id", and differs from the message for any other id |
| `IngestHandler.Process` | ingest_takeon_data.py:72-111 | read, extract and write succeed exactly when the read succeeds, the document is well formed and the write of the extracted rows succeeds; a document that lacks a field or node list the extraction reads gives a `KeyError`-class exception |
| `IngestHandler.FirstMissing` | ingest_takeon_data.py:51-53 | the reported parameter is one of the three and absent from the environment, and every parameter looked up before it (`bucket_name`, then `file_name`, then `period`) is present |
| `IngestHandler.RunAsWritten` | ingest_takeon_data.py:50-111 | a run succeeds exactly when the schema reports no errors, the three parameters are present and processing succeeds; an absent parameter raises `KeyError` on the first one looked up, whatever the schema reported; with all three present, schema errors raise the validation exception |
| `IngestHandler.LegacyHandlerAsWritten` | ingest_takeon_data.py:30-169 | the handler as written succeeds exactly when the schema reports no errors, the parameters are present and processing succeeds, then with checkpoint 0 and no error; otherwise the message names the exception's class and ends with the literal "aws_request_id" |
| `IngestHandler.MissingParamIsKeyError` | ingest_takeon_data.py:50-53 | an absent parameter makes the handler fail with the `Key Error` message on its name, whatever the schema reported |
| `IngestHandler.SchemaErrorIsValidationError` | ingest_takeon_data.py:50-68 | with the three parameters present, schema errors make the handler fail with the `Parameter validation error` message |
| `IngestHandler.LegacyHandler` | ingest_takeon_data.py:30-169 | corrected: the same outcome as the handler as written, with the message ending in the invocation's request id |
| `IngestHandler.HandlerReportsRequestId` | ingest_takeon_data.py:113-169 | the handler as written is the corrected one at the id "aws_request_id"; when it fails, it agrees with the corrected one at no other id |

## Left out

- Schema validation of runtime variables and environment (marshmallow). The validated values are the models' inputs. For the legacy handler, the schema's result (`Environment`) is an input.
- The legacy handler reads line 50 as marshmallow 2's `load`, which returns the loaded data and an error dictionary without raising; the repository's test of a missing `file_name` expects the `KeyError` that reading gives. Under marshmallow 3, which the two method handlers are written against (`EXCLUDE`, `handle_error(self, e, data, **kwargs)`), `load(os.environ)` would raise `ValidationError` on the environment's unknown keys before line 51, and the handler would answer with "General Error"; that outcome is not modelled.
- The shape of the export: node lists are arrays and nodes are objects (`Documents.Document`). A node list that is `null` or a node that is not an object makes Python raise `TypeError`, reported as "General Error"; the model has no such documents, so `IngestHandler.Process` speaks only of missing fields and node lists.
- Reading `run_id` and the event envelope, and `handle_exception` of the shared helper library. A method handler's error is reported as the `Error` value, not as a formatted message.
- Logging, `json.dumps` of the output, and the unused `send_sns_message` helper.
- S3 access. Reads and writes are the `Storage` parameter, and `json.loads` is folded into the read: a decoding error is a `BadValue` exception the read returns.
- `calculate_adjacent_periods`: it is the `adjacentPeriod` parameter of `TakeOn.TakeOnMethod`.
- JSON booleans, floats, lists and objects in scalar positions. Values are integers, strings or `null`.
- Behaviour that needs those values is not modelled: a `TypeError` from hashing a list; a float brick type such as 2.0, which equals the listed 2 on line 58 so its answers are copied, and whose `str()` "2.0" is then looked up on line 69.
- `isnumeric()` and `int()` on non-ASCII digits. Only `0`-`9` count.
- Python's string escaping inside `repr`, and `str()` of non-string `KeyError` arguments.
- The key named by a `KeyError` for a missing node list. The model names the whole path (`data.allSurveys.nodes`), where Python names the single missing step.
- A `KeyError` on a non-string value is named by its `str()` (`TakeOn.BuildRecord`), where Python keeps the value itself.
- `BrickTypes.ExpandRespondent`: its own contract states only the presence of the brick-type column. Its meaning is stated by the lemmas `ExpandSucceedsIff`, `ExpandedKeys` and `ExpandLastWriterWins`, under `Separated`.
- `BrickTypes.CopyAnswers`: its raise-iff and value clauses are stated only when the type's answer keys are not among its own columns. Otherwise a copy can create the key a later entry reads, as Python's sequential writes do (`{"a": 1}` with `a → b, b → c` succeeds), and the model keeps that behaviour without characterising it.
- `BrickTypes.ExpandTypesSucceedsIff`: stated only when neither the brick-type column nor an answer key of the respondent's own type is a listed column, so that every read sees the original record.
- `BrickTypes.ExpandTypesColumn`: stated under the same hypothesis as `ExpandTypesSucceedsIff`.
- `BrickTypes.ExpandedKeys`: stated only when the brick-type column is not a listed column, so that the own type read on line 69 is the original one.
- `BrickTypes.ExpandTypesZeroOnly`: stated only when the brick-type column is not a listed column; otherwise a zero-fill can turn the respondent's type into a listed one and a later type copies answers instead.
- `BrickTypes.ExpandUnlistedTypeZeroFills`: stated only when the brick-type column is not a listed column, for the reason given for `ExpandTypesZeroOnly`.
- `BrickTypes.ExpandLastWriterWins`: stated under `Separated`. Without it, the sequential reads can make a copy pick up a value an earlier type wrote, and the model keeps that behaviour.

## Findings

| source | as written | input that shows it | evidently intended | confidence | as-written member | corrected member |
|---|---|---|---|---|---|---|
| ingest_takeon_data.py:113-161 | every error message ends with `str("aws_request_id")`: the literal text, not the invocation's id (`context` is never read) | any exception, in an invocation whose request id is anything other than "aws_request_id" | the message ends with the request id of the invocation | high; not executed | `IngestHandler.LegacyHandlerAsWritten`, `IngestHandler.RequestIdIgnored` | `IngestHandler.LegacyHandler`, `IngestHandler.ErrorMessageReportsRequestId` |

Rest of the model: `IngestHandler.LegacyHandler` is the handler with `ErrorMessage`, the message ending in the invocation's request id. `IngestHandler.LegacyHandlerAsWritten` and `ErrorMessageAsWritten` keep the code as written.
