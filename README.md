# hl7-unbundler in Dafny

A model of the worker in `docker/Hl7UnbundlerService.py`. The worker takes
FHIR/HL7 bundle documents, announced one per queue message. For each one it:

1. downloads the document;
2. flattens every record in the document's `"entry"` field into a single-level
   key/value record;
3. writes the records to a local CSV file, uploads that file to the output
   bucket, and removes both local files;
4. acknowledges the message by deleting it, or, if anything went wrong, makes
   it visible again (timeout 0) so it is retried.

The modules follow the parts of the worker:

| module | file | models |
|---|---|---|
| `Wrappers` | `wrappers.dfy` | `Option` and `Result` |
| `JsonValue` | `json_value.dfy` | the value tree `json.load` produces; dictionary lookup |
| `Text` | `text.dfy` | `str.replace`, `s[:-1]` and `str(i)` as the flattener uses them |
| `Flatten` | `flatten.dfy` | `flatten_json` and its inner recursive `flatten` |
| `LeafPaths` | `leaf_paths.dfy` | an independent description of the same traversal, by leaf paths, and the theorems about the record |
| `FlattenExamples` | `flatten_examples.dfy` | concrete records: nesting, empty collections, null, key collisions |
| `Entries` | `entries.dfy` | the entry loop of `flatten_file` |
| `Naming` | `naming.dfy` | `os.path.splitext`, the output name, the local CSV path and the upload key |
| `Service` | `service.dfy` | `process_files`, `flatten_file`, `upload_file`, `cleanup_file` |

`flatten_json` is modelled twice:

- **As the source runs it.** `Flatten.FlattenInto` is a recursive method with
  one loop over a dictionary's fields and one over a list's items. It threads
  the `out` dictionary the source closes over.
- **As a specification.** `Flatten.Leaves` lists the writes
  `out[name[:-1]] = value` in the order they happen. `Flatten.Store` performs
  them on a map, so a later write to a key replaces an earlier one.

The method is proved to equal the specification. The specification is in turn
proved equal to a reference built from leaf paths, `LeafPaths.Paths` joined
by `_` (`LeafPaths.FlattenWrites`). Every property of the record is proved on
that reference.

In `process_files`, every call into the queue, the object store, the JSON
parser and the file system is reduced to its outcome, and the `Service.Message`
datatype carries those outcomes. `Service.Worker` keeps three fields, updated
in place:

- the local files, as a map from path to content;
- the log of uploads;
- the log of delete and change-visibility calls.

The pure functions `Service.TryBlock`, `Service.Step` and `Service.Run` specify
one message and one batch. The worker's methods are proved against them.

The model keeps these behaviours of the code, which a reader might not expect:

- **Keys can collide.** Two different traversal paths can produce the same key:
  `{"a_b": 1, "a": {"b": 2}}` gives the single key `a_b`. So "one key per
  leaf" holds exactly when the joined paths are distinct
  (`LeafPaths.FlatSize`), and on a collision the later leaf's value is kept
  (`FlattenExamples.CollisionLaterWins`).
- **Cleanup is not guaranteed.** The local files are removed by the last step of
  the `try` block, not on every outcome. When an earlier step fails, every local
  file stays behind. When the document is removed but removing the CSV file
  fails, the message is retried with the document gone and the CSV file left
  (`Service.FailureKeepsFiles`).
- **`"entry"` need not be a list.** The loop iterates whatever is there: a
  dictionary yields its keys and a string yields its characters. Only a
  number, a boolean or null raises (`Entries.EntriesErrors`).
- **There is no recursion-limit handling in the code.** A stack overflow is
  an exception inside the `try`, like any other.
- **A failed CSV write is swallowed.** When the CSV write raises `IOError`, the
  exception is caught and the worker carries on to the upload. It then uploads
  whatever is at the CSV path: a file left there earlier when opening the path
  failed (`Service.UnwrittenCsvUploadsStaleFile`), or the truncated file when
  writing stopped part way (`Service.TruncatedCsvUploaded`).

## Model

| member | source | states |
|---|---|---|
| JsonValue.FieldIndex | docker/Hl7UnbundlerService.py:73 | dictionary lookup: the position found holds the key; no earlier field has it; None exactly when no field has it (KeyError) |
| JsonValue.FieldIndexOfDistinct | docker/Hl7UnbundlerService.py:94-96 | in a dictionary, `x[a]` for an iterated key `a` reaches that key's own field |
| Text.RemoveAll | docker/Hl7UnbundlerService.py:106 | `s.replace(pat, '')`: occurrences removed left to right without overlap; specified by `Text.StripNewlinesIsFilter` through `Text.RemoveCharIsFilter` |
| Text.StripNewlines | docker/Hl7UnbundlerService.py:106 | the three chained `replace` calls; specified by `Text.StripNewlinesIsFilter` and `Text.WithoutLineBreaksSpec` |
| Text.DropLast | docker/Hl7UnbundlerService.py:106-109 | `name[:-1]`, which is `''` for `''`; specified by `LeafPaths.TrailIsJoin` and `FlattenExamples.TopLevelScalar` |
| Text.StripNewlinesIsFilter | docker/Hl7UnbundlerService.py:106 | the three chained `replace` calls remove exactly the characters `\n` and `\r`, nothing else |
| Text.WithoutLineBreaksSpec | docker/Hl7UnbundlerService.py:106 | the cleaned string has no `\n` or `\r`; every other character keeps its number of occurrences; it is no longer than the input |
| Text.JoinedLines | docker/Hl7UnbundlerService.py:106 | lines separated by any run of line breaks are glued together with no separator |
| Text.StripNewlinesExample | docker/Hl7UnbundlerService.py:106 | `"line1\r\nline2"` becomes `"line1line2"` |
| Text.Decimal | docker/Hl7UnbundlerService.py:101 | `str(i)` is non-empty and all digits, one digit exactly below 10, with no leading zero except for 0 itself |
| Text.DecimalRoundTrip | docker/Hl7UnbundlerService.py:101 | reading `str(i)` back as a decimal number gives `i` |
| Text.DecimalInjective | docker/Hl7UnbundlerService.py:98-102 | different list positions get different labels |
| Flatten.Stored | docker/Hl7UnbundlerService.py:103-109 | a string leaf is stored as a string with its line breaks removed; any other scalar is stored unchanged |
| Flatten.Leaves | docker/Hl7UnbundlerService.py:91-109 | the writes `flatten(x, name)` makes, in order; specified by `LeafPaths.LeavesAsPaths`, `LeafPaths.VisitsEachLeafOnce` and `Flatten.FlattenInto` |
| Flatten.FieldLeaves | docker/Hl7UnbundlerService.py:94-96 | the writes of the field loop from the k-th field on; specified by `LeafPaths.FieldLeavesAsPaths` |
| Flatten.ItemLeaves | docker/Hl7UnbundlerService.py:98-102 | the writes of the item loop from position i on; specified by `LeafPaths.ItemLeavesAsPaths` |
| Flatten.Store | docker/Hl7UnbundlerService.py:106-109 | performing writes on the `out` dictionary; specified by `Flatten.StoreKeys`, `Flatten.StoreLastWriteWins`, `Flatten.StoreUntouched`, `Flatten.StoreValues`, `Flatten.StoreSize` |
| Flatten.Flat | docker/Hl7UnbundlerService.py:88-111 | the record `flatten_json(y)` returns; specified by `LeafPaths.FlatKeys`, `LeafPaths.FlatLastWins`, `LeafPaths.FlatSize`, `LeafPaths.FlatValues` |
| Flatten.FlattenInto | docker/Hl7UnbundlerService.py:91-109 | the recursive walk with its field loop and item loop leaves `out` as the given map with the listed writes performed in order |
| Flatten.FlattenJson | docker/Hl7UnbundlerService.py:88-111 | `flatten_json(y)` returns the empty map with every write of the walk from name `''` performed in order |
| Flatten.StoreAppend | docker/Hl7UnbundlerService.py:94-102 | performing the writes of one child and then the remaining children equals performing all of them |
| Flatten.StoreKeys | docker/Hl7UnbundlerService.py:106-109 | the keys after the writes are the previous keys plus every key written |
| Flatten.StoreLastWriteWins | docker/Hl7UnbundlerService.py:106-109 | a key holds the value of the last write to it |
| Flatten.StoreUntouched | docker/Hl7UnbundlerService.py:106-109 | a key never written keeps its earlier value |
| Flatten.StoreValues | docker/Hl7UnbundlerService.py:106-109 | every value in the result was there before or was written under that key |
| Flatten.StoreSize | docker/Hl7UnbundlerService.py:106-109 | at most one key per write, and exactly one per write if and only if the written keys are distinct |
| LeafPaths.LeavesAsPaths | docker/Hl7UnbundlerService.py:91-109 | the walk's writes are the leaf paths rendered under the current name: key name + labels each followed by `_`, minus the last character |
| LeafPaths.RenderPrefixed | docker/Hl7UnbundlerService.py:96 | descending into a child extends the name by its label and `_` |
| LeafPaths.TrailIsJoin | docker/Hl7UnbundlerService.py:106 | the accumulated name without its last character is the labels joined by `_`; an empty path gives `""` |
| LeafPaths.FlattenWrites | docker/Hl7UnbundlerService.py:88-111 | from the top, each write's key is its leaf path joined by `_` and its value is the stored leaf |
| LeafPaths.PathsEndAtScalars | docker/Hl7UnbundlerService.py:103-109 | only scalars are written: dictionaries and lists are always descended into |
| LeafPaths.PathsLeadToLeaves | docker/Hl7UnbundlerService.py:92-102 | every listed path, followed through the value, reaches the listed leaf |
| LeafPaths.LeavesAreListed | docker/Hl7UnbundlerService.py:92-102 | every path that reaches a scalar is listed: no leaf is skipped |
| LeafPaths.PathsDistinct | docker/Hl7UnbundlerService.py:94-102 | no path is listed twice |
| LeafPaths.VisitsEachLeafOnce | docker/Hl7UnbundlerService.py:91-102 | the walk visits exactly the scalars of the value, each once |
| LeafPaths.FlatKeys | docker/Hl7UnbundlerService.py:88-111 | a key is in the record if and only if some leaf path joins to it |
| LeafPaths.FlatLastWins | docker/Hl7UnbundlerService.py:106-109 | a key that several leaves produce holds the stored value of the last of them |
| LeafPaths.FlatSize | docker/Hl7UnbundlerService.py:88-111 | keys never outnumber leaves, and equal them if and only if no two leaf paths join to the same key |
| LeafPaths.FlatValues | docker/Hl7UnbundlerService.py:103-109 | every value in the record is a scalar, and no stored string holds `\n` or `\r` |
| FlattenExamples.ScalarLeaf | docker/Hl7UnbundlerService.py:103-109 | a scalar under name `key_` is written once under `key` |
| FlattenExamples.CleanString | docker/Hl7UnbundlerService.py:106 | a string without line breaks is stored as it is |
| FlattenExamples.CollisionLaterWins | docker/Hl7UnbundlerService.py:94-109 | `{"a_b": 1, "a": {"b": 2}}` flattens to `{"a_b": 2}` |
| FlattenExamples.CollisionOrderMatters | docker/Hl7UnbundlerService.py:94-109 | with the fields in the other order the result is `{"a_b": 1}` |
| FlattenExamples.SingleItemLeaves | docker/Hl7UnbundlerService.py:97-102 | the item of a one-item list is walked under label `0` |
| FlattenExamples.TwoFieldLeaves | docker/Hl7UnbundlerService.py:92-96 | the fields of a dictionary are walked one after the other, each under its key |
| FlattenExamples.NameLeaves | docker/Hl7UnbundlerService.py:92-109 | `{"given": [g], "family": f}` under `name_` writes `name_given_0` then `name_family` |
| FlattenExamples.NestedRecord | docker/Hl7UnbundlerService.py:88-111 | `{"name": {"given": ["Jane"], "family": "Doe"}, "active": true}` flattens to `{"name_given_0": "Jane", "name_family": "Doe", "active": true}` |
| FlattenExamples.OneFieldFlat | docker/Hl7UnbundlerService.py:88-111 | a one-field dictionary with a scalar value flattens to that key and the stored value |
| FlattenExamples.NoteWithLineBreak | docker/Hl7UnbundlerService.py:106 | `{"note": "line1\r\nline2"}` flattens to `{"note": "line1line2"}` |
| FlattenExamples.EmptyListAddsNothing | docker/Hl7UnbundlerService.py:97-102 | `{"tags": [], "id": "x"}` flattens to `{"id": "x"}` |
| FlattenExamples.NullKeptEmptyObjectDropped | docker/Hl7UnbundlerService.py:92-109 | `{"a": {}, "b": null}` flattens to `{"b": null}` |
| FlattenExamples.TopLevelScalar | docker/Hl7UnbundlerService.py:103-110 | a scalar at the top is stored under the empty key |
| FlattenExamples.ShallowObject | docker/Hl7UnbundlerService.py:92-109 | a dictionary of scalars flattens to its own keys, each holding the stored value |
| Entries.Subscript | docker/Hl7UnbundlerService.py:73 | `data["entry"]` succeeds exactly on a dictionary holding the key; a dictionary without it raises KeyError, anything else TypeError |
| Entries.Iterated | docker/Hl7UnbundlerService.py:73 | iteration yields a list's items, a dictionary's keys, a string's characters; any other scalar raises TypeError |
| Entries.EntriesOf | docker/Hl7UnbundlerService.py:73 | the values `for entry in data["entry"]` runs over, or the exception it raises first; specified by `Entries.EntriesErrors` and `Entries.ListEntries` |
| Entries.FlattenEntries | docker/Hl7UnbundlerService.py:72-75 | fails exactly when reading the entries fails, with the same exception; otherwise returns one record per entry, in order, each the entry flattened |
| Entries.EntriesErrors | docker/Hl7UnbundlerService.py:73 | a non-dictionary document raises TypeError, a missing `"entry"` raises KeyError; the loop runs exactly when the field exists and is not a number, boolean or null |
| Entries.ListEntries | docker/Hl7UnbundlerService.py:72-75 | when `"entry"` is a list, its elements are the entries, in order |
| Naming.SplitExt | docker/Hl7UnbundlerService.py:43 | POSIX `os.path.splitext`; specified by `Naming.SplitExtSpec` |
| Naming.OutputName | docker/Hl7UnbundlerService.py:43 | `os.path.splitext(file)[0] + "tabular.csv"`; specified by `Naming.OutputNameSpec` and `Naming.OutputNameSlashes` |
| Naming.CsvPath | docker/Hl7UnbundlerService.py:80 | `flattened_dir + '/' + outFileName`, also used at lines 59 and 64; specified by `Naming.PathsDetermineName` and `Naming.CsvPathIsNotDocument` |
| Naming.UploadKey | docker/Hl7UnbundlerService.py:65 | `'flattened/' + outFileName`; specified by `Naming.PathsDetermineName` |
| Naming.RFind | docker/Hl7UnbundlerService.py:43 | the position found holds the character and none after it does; -1 when absent |
| Naming.SplitExtSpec | docker/Hl7UnbundlerService.py:43 | root and extension concatenate to the path; the extension has no `/`; it starts at the extension dot when there is one and is empty otherwise |
| Naming.OutputNameSpec | docker/Hl7UnbundlerService.py:43 | the output name is the document name without its extension, followed by `tabular.csv` |
| Naming.OutputNameExample | docker/Hl7UnbundlerService.py:43 | `bundle.json` gives `bundletabular.csv` |
| Naming.OutputNameLastExtension | docker/Hl7UnbundlerService.py:43 | only the last extension goes: `a.tar.gz` gives `a.tartabular.csv` |
| Naming.OutputNameHiddenFile | docker/Hl7UnbundlerService.py:43 | leading dots are not an extension: `.json` gives `.jsontabular.csv` |
| Naming.DirectoryDotKept | docker/Hl7UnbundlerService.py:43 | a dot before the last `/` is not an extension: the whole name is kept |
| Naming.OutputNameDottedDirectory | docker/Hl7UnbundlerService.py:43 | `v1.2/bundle` gives `v1.2/bundletabular.csv` |
| Naming.OutputNameSlashes | docker/Hl7UnbundlerService.py:43 | the output name has as many `/` as the document name |
| Naming.DirectorySlashes | docker/Hl7UnbundlerService.py:9 | the local output directory with its separator holds three `/` |
| Naming.CsvPathIsNotDocument | docker/Hl7UnbundlerService.py:56-59 | the local CSV path is never the document's own path, so writing or removing one leaves the other |
| Naming.PathsDetermineName | docker/Hl7UnbundlerService.py:62-65 | the local path is the output directory, `/` and the name; the upload key is `flattened/` and the name |
| Service.FlattenFileStep | docker/Hl7UnbundlerService.py:68-85 | `flatten_file`: fails on an unreadable document or entries; otherwise writes, leaves or truncates the CSV file according to the write outcome; specified by `Service.UnreadableDocumentKept`, `Service.UploadedRows`, `Service.UnwrittenCsvUploadsStaleFile`, `Service.TruncatedCsvUploaded` |
| Service.UploadStep | docker/Hl7UnbundlerService.py:62-65 | `upload_file`: appends the local CSV file under its upload key when it exists and is accepted; specified by `Service.CompletedCleansUp` and `Service.DeletedOnlyIfUploaded` |
| Service.CleanupStep | docker/Hl7UnbundlerService.py:56-59 | `cleanup_file`: removes the document, then the CSV file, stopping at the first failure; specified by `Service.CompletedCleansUp` and `Service.FailureKeepsFiles` |
| Service.TryBlock | docker/Hl7UnbundlerService.py:34-47 | the `try` block, stopping at the first step that raises; specified by `Service.CompletesIff`, `Service.CompletedCleansUp`, `Service.FailureKeepsFiles` |
| Service.Verdict | docker/Hl7UnbundlerService.py:48-53 | delete on completion, visibility 0 otherwise; specified by `Service.OneActionPerMessage` |
| Service.Step | docker/Hl7UnbundlerService.py:34-53 | one pass of the loop body; specified by `Service.OneActionPerMessage` and `Service.DeletedOnlyIfUploaded` |
| Service.Run | docker/Hl7UnbundlerService.py:33-53 | the loop over one batch; specified by `Service.OneActionPerMessage` |
| Service.CompletesIff | docker/Hl7UnbundlerService.py:34-47 | the `try` block completes exactly when the key is read, the download succeeds, the document is JSON with iterable entries, a CSV file exists to upload, the upload is accepted and both removals succeed |
| Service.CompletedCleansUp | docker/Hl7UnbundlerService.py:45-59 | on success the document and the CSV file are removed and no other local file changes; exactly one object is uploaded, under `flattened/` + the output name |
| Service.UploadedRows | docker/Hl7UnbundlerService.py:72-82 | once the CSV file is written and the upload accepted, exactly one object is uploaded, under `flattened/` + the output name, holding one row per entry, each the entry flattened, whether or not the removals that follow succeed |
| Service.UnwrittenCsvUploadsStaleFile | docker/Hl7UnbundlerService.py:78-85 | when opening the CSV path fails, a CSV file left at that path earlier is uploaded in its place, and the message is deleted if both removals succeed |
| Service.TruncatedCsvUploaded | docker/Hl7UnbundlerService.py:78-85 | when writing the CSV file fails part way, the truncated file is uploaded, and the message is deleted exactly when both removals succeed |
| Service.FailureKeepsFiles | docker/Hl7UnbundlerService.py:48-51 | on failure no earlier local file other than the document is removed; the document goes only with its CSV file left behind; at most one upload was made |
| Service.UnreadableDocumentKept | docker/Hl7UnbundlerService.py:68-75 | a document that is not JSON or has no iterable `"entry"` stays on disk as downloaded; nothing is written or uploaded; the attempt fails |
| Service.OneActionPerMessage | docker/Hl7UnbundlerService.py:33-53 | every message of the batch gets exactly one action, in batch order, with its own id: a delete when its `try` completed, a visibility change to 0 otherwise |
| Service.DeletedOnlyIfUploaded | docker/Hl7UnbundlerService.py:46-53 | a message is deleted only after its CSV file was uploaded under the name derived from its key |
| Service.Worker.ProcessFiles | docker/Hl7UnbundlerService.py:33-53 | the loop over a batch leaves the files, uploads and actions as the batch specification says |
| Service.Worker.ProcessMessage | docker/Hl7UnbundlerService.py:34-53 | one message: the `try` block, then a delete or a visibility change to 0 |
| Service.Worker.TryProcessing | docker/Hl7UnbundlerService.py:34-47 | the `try` block stops at the first failing step, with the state that step left |
| Service.Worker.FlattenFile | docker/Hl7UnbundlerService.py:68-85 | reads the document, flattens its entries and writes the table to the CSV path when the write succeeds |
| Service.Worker.UploadFile | docker/Hl7UnbundlerService.py:62-65 | uploads the local CSV file under `flattened/` + name when it exists and the store accepts it |
| Service.Worker.CleanupFile | docker/Hl7UnbundlerService.py:56-59 | removes the document and then the CSV file, stopping at the first removal that fails |

## Left out

- Calls to the queue and the object store are not modelled, and neither are `json.loads` of the message body, `unquote_plus`, `json.load` and `os.remove`. Each is reduced to its outcome, carried by `Service.Message`.
- `pandas.json_normalize` and `to_csv` are not modelled: the CSV file is modelled as holding the flat records themselves. The column union and the CSV text are not modelled.
- Any exception from `json_normalize`, and any exception from `to_csv` other than `IOError`, is not modelled.
- Logging to stdout and stderr is left out; it has no effect on state.
- `create_dirs`, `main` and its endless loop are left out; the model starts from one batch.
- `get_messages_from_sqs` is left out: a batch is a parameter, and the receive settings (visibility 120 s, wait 20 s, at most 10 messages) are not modelled.
- An exception raised by `message.delete()` or `change_visibility` itself is not modelled.
- Service.FlattenFileStep: local files are keyed by their path string. The document is downloaded to the relative path `file` and the CSV file goes to an absolute path, so two strings the file system resolves to the same file (through the working directory, `//`, `./` or `..`) are two files in the model.
- Naming.CsvPathIsNotDocument: proves that the two path strings differ, not that they name different files once the file system resolves them.
- Service.TruncatedCsvUploaded: the truncated file left by a failed write is one value, `Truncated`; its partial contents are not modelled.
- Recursion depth is not modelled: the stack overflow on very deep documents is not part of the model.
- The dictionary order of Python 2 is not modelled: a `JsonValue.Json` object lists its fields in the order they are iterated.
- `JsonValue.Json` objects may repeat a key, which no parsed dictionary does. The lemmas that need distinct keys require `JsonValue.DistinctKeys`.
- `json.load` also accepts `NaN`, `Infinity` and `-Infinity`, which `JsonValue.Json`'s `JFloat(real)` cannot hold. Numbers are only copied, never computed with, so nothing else depends on them.
- Non-ASCII text and its UTF-8 encoding are not modelled: strings are sequences of characters.
- The upload fails in the model only when the local CSV file is missing or the store refuses it; partial uploads are not modelled.
- A downloaded document that cannot be read back from disk is modelled only as a document that is not JSON.
- The files under `unbundler/` are not part of this model.
