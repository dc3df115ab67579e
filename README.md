# API specification change detector — Dafny model

This project models `APISpecDiffDetector` (`diff_detector.py`). The detector
takes two revisions of an OpenAPI document and reports what changed between
them as `{added, changed, removed}`. Each of the three parts maps a category
name (`paths`, `operations`, `security_schemes`, `schemas`, ...) to a list of
strings.

The model has three layers, as the detector does:

- **Entry point** (`detector.dfy`, module `Detector`). `detect_changes`
  returns nothing in three cases: no current document, a categorisation that
  wrote no category, or an exception during the comparison. With no previous
  document it returns a first-version report.
- **Categoriser** (`categorizer.dfy` and `process.dfy`). `Categorizer` gives
  each of the six `_process_*` steps as a function from the report before the
  step to the report after it, and proves what the whole categorisation
  reports. `Processing` runs the same steps the way the source does: a class
  `Changes` holds the shared `changes` dict, and methods with loops update it
  in place. Each method is proved equal to its function.
- **String-path extractors** (`extractors.dfy`, module `Extractors`). These
  recover the API path, the HTTP method or the component name from a location
  that the diff library prints, such as `root['paths']['/users']['get']`.
  `pystr.dfy` models the Python string operations they use: `in`,
  `startswith`, `split` on a literal separator, `strip(chars)` and `upper`.

The structural diff library is not modelled. Its result is an input
(`deepdiff_output.dfy`): the `dictionary_item_added` and
`dictionary_item_removed` locations, and the `values_changed` locations with
their old and new values, each in the order Python iterates them. When the
library raises an exception, the input is `Raised(DeepDiffError)`. Documents
are JSON values (`pyjson.dfy`). A dict keeps its keys in insertion order,
and Python truthiness, `.get`, `.keys()` and `in` are modelled with the
exceptions they raise.

The central proved fact is about `_extract_operation_from_key`
(`Extractors.OperationFromKeyNeverSucceeds`). It splits a location on `']`
and then looks for a marker `['get']` in each fragment. Every marker ends in
`']`, and no fragment of that split contains `']`, so no method is ever found
and the function returns `None` for every string. Everything built on it is
therefore empty:

- `_extract_parameter_info` and `_check_if_required_parameter` also return
  `None` for every string.
- A comparison never reports `required_parameters`, `request_formats`,
  `response_formats` or `operation_security` (`Categorizer.CategorizeOmitsDetails`).

The model keeps this behaviour as written, because the detector's own tests
expect it.

Some behaviour of the detector that a reader might not expect:

- Locations are printed strings such as `root['paths']['/users']['get']`.
  The detector parses them by splitting on `']`, `]` or a key prefix.
- Categories are lists and keep duplicates. The third operation loop adds a
  changed operation only if it is not listed yet, and the request/response
  format lists go through `list(set(...))`.
- A required-parameter flip is never reported
  (`Extractors.OperationFromKeyNeverSucceeds`).
- An operation appears under `changed.operations` only when its location
  parses to a path and a method.

## Model

| member | source | states |
|---|---|---|
| `Detector.Bootstrap` | diff_detector.py:22-32 | With no previous document, the report lists every key of `current.paths` as added `paths` and every key of `current.components.securitySchemes` as added `security_schemes`, even when the list is empty. `changed` and `removed` are empty. It raises `AttributeError` exactly when the current document, its `paths`, its `components` or their `securitySchemes` is present but not a dict. |
| `Detector.Detect` | diff_detector.py:13-50 | An exception escapes exactly in the first-version branch, when that branch raises. A missing or empty current document gives None. With no previous document, the first-version report of `Bootstrap` is returned, or the exception it raises escapes. |
| `Detector.DetectChanges` | diff_detector.py:13-50 | The entry point, run with the in-place categorisation, returns what `Detect` specifies. |
| `Detector.ComparisonReports` | diff_detector.py:34-50 | With both documents present, a report is returned exactly when the diff and the categorisation both succeed and some category was written. The report returned is then the categorisation. |
| `Detector.ComparisonReportShape` | diff_detector.py:41-50 | A returned comparison report has no empty list and at least one category. It never holds `required_parameters`, `request_formats`, `response_formats` or `operation_security`. |
| `Detector.IdenticalSpecifications` | diff_detector.py:41-46 | An empty diff, as two identical documents give, yields None. |
| `Detector.FirstVersionExample` | diff_detector.py:22-32 | A concrete first version with path `/users` and scheme `bearerAuth` reports exactly those two as added. |
| `Processing.Changes.constructor` | diff_detector.py:54-58 | The shared report starts with three empty dicts. |
| `Processing.ProcessPathChanges` | diff_detector.py:80-95 | Updates the shared report to the path step's report. |
| `Processing.ScanAddedOperations` | diff_detector.py:106-118 | The first operation loop returns the added operations, the changed operations and the processed paths that `ScanAdded` specifies, or the exception raised by looking a path up in the previous document. |
| `Processing.RemovedOperations` | diff_detector.py:120-125 | Returns the operation named by each removed location that names one, in order. |
| `Processing.MergeChangedOperations` | diff_detector.py:127-134 | Returns `MergeChanged`: the changed operations plus each new operation named by a changed value whose path was processed. |
| `Processing.ProcessOperationChanges` | diff_detector.py:97-141 | Updates the report to the operation step's report. When that step raises, it returns the exception and leaves the report unchanged. |
| `Processing.RequiredParameterChanges` | diff_detector.py:148-162 | Returns the parameters that became required (old value false, new value true) and, through the `elif`, those that stopped being required. |
| `Processing.NewRequiredParameters` | diff_detector.py:164-170 | Returns the entries found for added locations under some `parameters`. |
| `Processing.ProcessParameterChanges` | diff_detector.py:143-175 | Updates the report to the parameter step's report. |
| `Processing.FormatChanges` | diff_detector.py:182-195 | Returns the request-format and response-format entries for changed values under a `requestBody` or `responses` and their `schema` or `content`. |
| `Processing.NewContentTypes` | diff_detector.py:197-207 | Returns the `(new content type)` entries for added request or response content. The response case applies only when the request case does not. |
| `Processing.ProcessRequestResponseChanges` | diff_detector.py:177-212 | Updates the report to the format step's report, with `list(set(...))` as duplicate removal. |
| `Processing.GlobalSecurityChanges` | diff_detector.py:220-224 | Returns one fixed marker for each changed value whose location is exactly `root['security']`. |
| `Processing.OperationSecurityChanges` | diff_detector.py:226-232 | Returns the operation-security entries for changed values under `security` and `paths`. |
| `Processing.ProcessSecurityChanges` | diff_detector.py:214-245 | Updates the report to the security step's report. |
| `Processing.ProcessComponentType` | diff_detector.py:250-263 | One pass of the component loop writes one component type into the three dicts. |
| `Processing.ProcessComponentChanges` | diff_detector.py:247-263 | Updates the report to the component step's report, over the five component types in order. |
| `Processing.CategorizeChanges` | diff_detector.py:52-78 | Running the six steps in place on a fresh report gives `Categorize`, or the exception of the operation step. |
| `Categorizer.Record` | diff_detector.py:84-95 | `if entries: d[c] = entries` writes category `c` only when something was found. It touches no other category and keeps a dict free of empty lists. |
| `Categorizer.PathChanges` | diff_detector.py:80-95 | The path step: `paths` in each dict gets what `_extract_paths` finds in the added, changed and removed locations. Characterised by `PathChangesFrame` and `CategorizePaths`. |
| `Categorizer.ScanAdded` | diff_detector.py:107-118 | The first operation loop over the added locations. Characterised by `ScanAddedRaises` and `ScanAddedSorts`. |
| `Categorizer.KnownPath` | diff_detector.py:112 | `path in previous.get('paths', {})` succeeds exactly when the previous document is a dict whose `paths` is a container. |
| `Categorizer.ScanAddedRaises` | diff_detector.py:107-118 | The first operation loop raises exactly when some added location names an operation and the previous document's `paths` cannot be searched. |
| `Categorizer.ScanAddedSorts` | diff_detector.py:107-118 | An operation whose path the previous document lacked goes to added. One whose path it had goes to changed. Every named operation's path is recorded as processed. |
| `Categorizer.MergeChanged` | diff_detector.py:127-134 | The third operation loop over the changed values. Characterised by `MergeChangedExtends` and `MergeChangedMember`. |
| `Categorizer.OperationChanges` | diff_detector.py:97-141 | The operation step: the three loops, then `operations` in each dict. Characterised by `OperationChangesFrame` and `CategorizeOperations`. |
| `Categorizer.MergeChangedExtends` | diff_detector.py:127-134 | The third loop only appends to the changed operations. Each appended operation is new to the list and is appended once. |
| `Categorizer.MergeChangedMember` | diff_detector.py:127-134 | After the third loop, an operation is listed as changed exactly when it already was, or a changed value under a processed path names it. |
| `Categorizer.ParameterChanges` | diff_detector.py:143-175 | The parameter step. Characterised by `ParameterChangesWriteNothing`. |
| `Categorizer.ParameterChangesWriteNothing` | diff_detector.py:143-175 | The parameter step never changes the report. |
| `Categorizer.RequestResponseChanges` | diff_detector.py:177-212 | The request/response step, with `list(set(...))` as duplicate removal. Characterised by `RequestResponseChangesWriteNothing`. |
| `Categorizer.RequestResponseChangesWriteNothing` | diff_detector.py:177-212 | The request/response step never changes the report. |
| `Categorizer.SecurityChanges` | diff_detector.py:214-245 | The security step. Characterised by `SecurityChangesReport`, `SecurityChangesFrame` and `CategorizeSecurity`. |
| `Categorizer.SecurityChangesReport` | diff_detector.py:220-232 | Global security is reported exactly when `root['security']` changed, and only with the fixed marker. Operation security is never reported. |
| `Categorizer.PathChangesFrame` | diff_detector.py:80-95 | The path step writes only `paths` and keeps the report free of empty lists. |
| `Categorizer.OperationChangesFrame` | diff_detector.py:97-141 | The operation step writes only `operations` and keeps the report free of empty lists. |
| `Categorizer.SecurityChangesFrame` | diff_detector.py:214-245 | The security step writes only `security_schemes`, `global_security` and `operation_security`. |
| `Categorizer.ComponentChanges` | diff_detector.py:247-263 | The component step over the five component types in order. Characterised by `ComponentTypesKeep`, `ComponentTypesWrite` and `CategorizeComponents`. |
| `Categorizer.ComponentTypesKeep` | diff_detector.py:250-263 | The component loop leaves every category outside the listed component types alone. |
| `Categorizer.ComponentTypesWrite` | diff_detector.py:250-263 | Each listed component type gets exactly the components found for it, in each dict. |
| `Categorizer.Categorize` | diff_detector.py:52-78 | The six steps in order from an empty report, stopping at the exception of the operation step. Characterised by `CategorizeRaises`, `CategorizeOmitsDetails`, `CategorizePaths`, `CategorizeOperations`, `CategorizeSecurity`, `CategorizeComponents` and `CategorizeNoDiff`. |
| `Categorizer.CategorizeRaises` | diff_detector.py:52-78 | The categorisation raises exactly when the first operation loop does. |
| `Categorizer.CategorizeOmitsDetails` | diff_detector.py:52-78 | A categorisation has no empty list, and never holds required parameters, request or response formats, or operation security. |
| `Categorizer.CategorizePaths` | diff_detector.py:80-95 | Added, changed and removed `paths` are present exactly when `_extract_paths` finds something, and then hold exactly what it finds. |
| `Categorizer.CategorizeOperations` | diff_detector.py:97-141 | Added operations are those on paths new to the previous document. Changed operations are those on known paths, then the new ones named by changed values under a processed path. Removed operations are those named by removed locations. |
| `Categorizer.CategorizeSecurity` | diff_detector.py:214-245 | Global security is reported exactly when `root['security']` changed. Security schemes are reported as `_extract_components` finds them under `components.securitySchemes`. |
| `Categorizer.CategorizeComponents` | diff_detector.py:247-263 | Each of the five component types holds exactly what `_extract_components` finds for it, in each of added, changed and removed. |
| `Categorizer.CategorizeNoDiff` | diff_detector.py:52-78 | An empty diff categorises to the empty report, whatever the previous document is. |
| `Extractors.IsOperationChange` | diff_detector.py:265-273 | True exactly when the location contains `root['paths']` and the marker `['m']` of one of the eight HTTP methods. |
| `Extractors.RenderedOperationIsOperationChange` | diff_detector.py:265-273 | Any location printed as `root['paths'][p][m]...` with `m` an HTTP method is an operation change. |
| `Extractors.ExtractOperationInfo` | diff_detector.py:275-286 | With fewer than three `']` fragments the result is `(None, None)`. A path is only found in a location that contains `['/`. |
| `Extractors.OperationInfoOfRendered` | diff_detector.py:275-286 | A location printed from plain keys as `root['paths'][p][m]...`, with `p` starting with `/`, gives back `(p, m)` and the operation `M p`. `m` does not have to be an HTTP method. |
| `Extractors.OperationOf` | diff_detector.py:109-111 | The operation `M /p` of a location from which `_extract_operation_info` gets a non-empty path and method, as the `if path and method` test of the callers requires. A path found this way is non-empty and comes from a location containing `['/`. Characterised by `OperationInfoOfRendered`. |
| `Extractors.FindMethod` | diff_detector.py:300-304 | The inner loop returns the first method of the list whose marker is in the fragment. |
| `Extractors.ExtractOperationFromKey` | diff_detector.py:288-310 | The loop over the fragments computes `OperationFromKey`, and the result is always None. |
| `Extractors.OperationFromKey` | diff_detector.py:288-310 | What `_extract_operation_from_key` returns, as a function of the key. Characterised by `OperationFromKeyNeverSucceeds`. |
| `Extractors.OperationFromKeyNeverSucceeds` | diff_detector.py:288-310 | `_extract_operation_from_key` returns None for every string, because no `']` fragment can hold a marker `['m']`. |
| `PyStr.SplitPiecesLackSeparator` | diff_detector.py:293 | No piece of `s.split(sep)` contains `sep`. |
| `Extractors.ExtractParameterInfo` | diff_detector.py:312-322 | Always returns None. |
| `Extractors.CheckIfRequiredParameter` | diff_detector.py:324-334 | Always returns None. The document it is given is not consulted. |
| `Extractors.PathOf` | diff_detector.py:354-361 | A path is found only in a location that starts with the prefix and splits on `]` into at least three fragments. A found path neither starts nor ends with `[` or `'`. |
| `Extractors.ExtractPaths` | diff_detector.py:346-368 | Returns, in order, the path found in each item that yields one, duplicates kept, and `[]` for no items. |
| `Extractors.PathsIn` | diff_detector.py:346-368 | The paths `_extract_paths` recovers, in item order. Characterised by `PathsInMember` and `PathsInOrderFree`. |
| `Extractors.PathOfRendered` | diff_detector.py:356-361 | Any location `root['kp'][p]...` printed from plain keys yields `p`, however deep the change. |
| `Extractors.PathsInMember` | diff_detector.py:346-368 | A path is reported exactly when some item yields it. |
| `Extractors.PathsInOrderFree` | diff_detector.py:354-368 | Reordering the items only reorders the result, as a multiset. |
| `Extractors.ComponentOf` | diff_detector.py:376-385 | A component name is found only in a location that contains `root['group']['kind']`. |
| `Extractors.ExtractComponents` | diff_detector.py:370-392 | Returns, in order, the component name found in each item that yields one, duplicates kept, and `[]` for no items. |
| `Extractors.ComponentsIn` | diff_detector.py:370-392 | The component names `_extract_components` recovers, in item order. Characterised by `ComponentOfRendered` and `ComponentsInOrderFree`. |
| `Extractors.ComponentOfRendered` | diff_detector.py:376-385 | Any location `root['g']['c'][name]...` printed from plain keys yields `name` for the key prefix `g.c`. |
| `Extractors.ComponentsInOrderFree` | diff_detector.py:378-392 | Reordering the items only reorders the result, as a multiset. |
| `Extractors.MethodsOf` | diff_detector.py:341-343 | With at least one method, testing `m in path_item` on a path item that is not a container raises `TypeError`. |
| `Extractors.AllOperations` | diff_detector.py:336-344 | A document that is not a dict, or whose `paths` is present but not a dict, raises `AttributeError`. A dict without `paths` gives `[]`. |
| `Extractors.GetAllOperations` | diff_detector.py:336-344 | The nested loops return what `AllOperations` specifies, including the exception it raises. |
| `Extractors.OperationsOfPathsOffered` | diff_detector.py:340-343 | With at least one method, the loops succeed exactly when every path item is a container. They then list each path's operations, path by path. |
| `Extractors.AllOperationsListed` | diff_detector.py:336-344 | With at least one method and every path item a container, `M /p` is listed exactly when method `m` is in the method list and `in` finds it in path `/p`'s item. |

## Left out

- The structural diff library (diff_detector.py:36) is not modelled. Its
  result, or the exception it raises, is an input. Only the three parts the
  detector reads are represented: `dictionary_item_added`,
  `dictionary_item_removed` and `values_changed`.
- Logging calls are not modelled. They have no effect on the result.
- The `isinstance(item, dict)` branches of `_extract_paths` and
  `_extract_components` (diff_detector.py:362-366, 386-390) are not modelled.
  The library lists locations as strings, so a dict item never occurs.
- The order in which Python iterates the library's sets is an input: each
  collection is a sequence in iteration order. The order-independence lemmas
  state the extractors' results up to permutation.
- The order of the list that `list(set(...))` produces is not fixed by
  Python. The model fixes it to first-occurrence order (`Seqs.Distinct`).
  No result depends on it, since the request/response step never writes.
- `Extractors.ExtractComponents` requires a dotted key prefix. The detector
  passes only `components.<type>` constants. An undotted prefix would raise
  `IndexError`, which is not modelled.
- `str.upper()` is modelled on the ASCII letters only. Every other
  character is kept as it is.
- A JSON object is a list of key/value pairs in insertion order. The model
  treats its keys as distinct, as in a Python dict. The type itself allows a
  repeated key, and on such an input `Bootstrap` would list the key twice.
- JSON numbers are mathematical reals. Only their comparison with `True` and
  `False` (1 and 0) and their truthiness (non-zero) matter to the detector.
- A `values_changed` record always carries both `old_value` and
  `new_value`. The library always supplies both.
- The breaking-change verdict, the summary, the changelog and the external
  compatibility-tool backend are not modelled, because no code of the
  detector computes them.
- The webhook notifier and server, the document fetcher, snapshot storage,
  the scheduler and the command-line front end are not part of this model.
  They are I/O and orchestration around the detector.
