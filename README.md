# nexus-runner pipeline and history pages, modelled in Dafny

The dashboard keeps a list of test pipelines (Newman API-collection runs and
mobile test suites). Two of its pages hold the only logic the application
has:

- **Pipelines** (`src/pages/Pipelines.tsx`). The page keeps the list of
  pipelines in state. "Run" marks a pipeline running, and a timer later marks
  it successful and stamps its last run. "Delete" drops it. The visible cards
  are the pipelines that pass a case-insensitive search on name or
  description, a type selector and a status selector. Both selectors use
  `'all'` for "no restriction".
- **History** (`src/pages/History.tsx`). The page writes a duration in
  seconds as `"Ns"` or `"Mm Ss"`. It filters executions by a search on the
  pipeline name and a status selector, and counts the executions that
  succeeded.

Modules:

- `Wrappers`: `Option`, for the optional fields.
- `Seqs`: `Array.prototype.filter` and `map` on sequences. It proves
  membership, order, multiplicity, fusion and commutation of filters.
- `Text`: `toLowerCase` for ASCII letters, `includes` as a substring
  search, and the case-insensitive search both pages run. It proves
  `includes` equivalent to "occurs at some position".
- `Decimal`: how `${n}` writes an integer below 10^21 in magnitude, with a
  parser as its inverse.
- `PipelineTypes`: the records of `src/types/pipeline.ts`, the string
  literals of kinds and statuses, and the `'all'` selector sentinel.
- `Pipelines`: the list page. The class `PipelineList` holds the list, and
  its methods `Run`, `Complete` and `Delete` are specified by the pure
  functions `Started`, `Completed` and `Deleted`.
- `History`: the history page.

The clock reading `new Date()` of the completion step is the parameter
`now`. The three-second `setTimeout` becomes an explicit call of `Complete`.
The search text and the two selectors are parameters of the filter
functions; in the page they are React state.

The pages do not do the following:

- Running a pipeline that is already running raises no conflict error. The
  list is left as it is (`Pipelines.StartedIdempotent`).
- Completion always sets `success` and stamps `lastRun` with the completion
  time. It does not derive the status from a test result.
- There is no execution log, no summary aggregation and no date-range
  filter. The date selector of the history page is state that no filter
  reads.

## Model

| member | source | states |
|---|---|---|
| Seqs.Filter | src/pages/Pipelines.tsx:135 | `filter` keeps exactly the elements that pass, as an order-preserving subsequence of its input |
| Seqs.FilterMultiset | src/pages/History.tsx:128 | a kept value occurs in the result as often as in the input; a dropped value does not occur |
| Seqs.FilterFuse | src/pages/Pipelines.tsx:141 | filtering by one condition and then another equals filtering once by their conjunction |
| Seqs.FilterCommute | src/pages/Pipelines.tsx:141 | two filters give the same result in either order |
| Seqs.FilterKeepsAll | src/pages/Pipelines.tsx:135 | a filter returns its whole input exactly when every element passes |
| Seqs.FilterAppend | src/pages/History.tsx:124 | filtering a concatenation concatenates the filtered parts |
| Seqs.FilterPartition | src/pages/History.tsx:124 | the elements kept by a condition and by its negation together number the whole input |
| Seqs.Map | src/pages/Pipelines.tsx:110 | `map` keeps the length and applies the function at every position |
| Text.LowerChar | src/pages/Pipelines.tsx:136 | lowering maps `A`-`Z` to `a`-`z`, keeps every other character, and never yields a letter in `A`-`Z` |
| Text.Lower | src/pages/Pipelines.tsx:136 | `toLowerCase` keeps the length and lowers each character |
| Text.LowerIdempotent | src/pages/Pipelines.tsx:136 | lowering twice is lowering once |
| Text.Includes | src/pages/Pipelines.tsx:136 | `includes`: whether the needle equals the prefix of the string at some position, tried from the front; false once the needle is longer than what is left |
| Text.SearchMatches | src/pages/History.tsx:129 | the search both pages run: the lower-cased text includes the lower-cased query |
| Text.IncludesIff | src/pages/Pipelines.tsx:136 | `includes` holds exactly when the needle occurs at some position of the string |
| Text.IncludesEmpty | src/pages/Pipelines.tsx:136 | every string includes the empty string |
| Text.EmptyQueryMatches | src/pages/History.tsx:129 | the case-insensitive search both pages share matches every text when the query is empty |
| Text.SearchIgnoresQueryCase | src/pages/History.tsx:129 | the shared search gives the same answer for a query and its lower-cased form |
| Decimal.NatToString | src/pages/History.tsx:117 | a natural number is written as at least one decimal digit; the first digit is `0` exactly when the number is 0, which is written `0` |
| Decimal.IntToString | src/pages/History.tsx:117 | a non-negative integer is written as its decimal digits (`NatToString`), 0 as `0`; a negative integer as `-` followed by the digits of its magnitude, with no leading zero |
| Decimal.NatRoundTrip | src/pages/History.tsx:120 | parsing the digits written for `n` gives back `n` |
| Decimal.IntRoundTrip | src/pages/History.tsx:117 | parsing `${i}` gives back `i`, negatives included |
| Decimal.IntToStringInjective | src/pages/History.tsx:117 | different integers are written differently |
| PipelineTypes.TypeNameDistinct | src/types/pipeline.ts:1 | the runner-kind literals are pairwise different and none is `'all'` |
| PipelineTypes.StatusNameDistinct | src/types/pipeline.ts:2 | the five status literals are pairwise different and none is `'all'` |
| PipelineTypes.TypeName | src/types/pipeline.ts:1 | the string literal of each runner kind: `newman`, `mobile` |
| PipelineTypes.StatusName | src/types/pipeline.ts:2 | the string literal of each status: `idle`, `running`, `success`, `failed`, `cancelled` |
| PipelineTypes.TypeSelected | src/pages/Pipelines.tsx:138 | a kind passes the type selector when the selector is `'all'` or equals the kind's literal |
| PipelineTypes.StatusSelected | src/pages/History.tsx:130 | a status passes the status selector when the selector is `'all'` or equals the status's literal |
| Pipelines.FilteredPipelines | src/pages/Pipelines.tsx:135-142 | a pipeline is in the view exactly when it is in the list and the search, type and status conditions all hold; the view keeps list order |
| Pipelines.MatchesSearch | src/pages/Pipelines.tsx:136-137 | the search matches the name, or else the description when there is one; a missing description (`description?.` giving `undefined`) does not match |
| Pipelines.MatchesType | src/pages/Pipelines.tsx:138 | the type selector is `'all'` or names the pipeline's kind |
| Pipelines.MatchesStatus | src/pages/Pipelines.tsx:139 | the status selector is `'all'`, or the pipeline has a status and the selector names it; a missing status passes only `'all'` |
| Pipelines.Matches | src/pages/Pipelines.tsx:141 | the conjunction of the search, type and status conditions |
| Pipelines.FilteredPipelinesCount | src/pages/Pipelines.tsx:135-142 | a matching pipeline appears in the view as often as in the list; a non-matching one never appears |
| Pipelines.NoFilterShowsAll | src/pages/Pipelines.tsx:77-79 | with an empty search and both selectors on `'all'`, the view is the whole list |
| Pipelines.NoStatusOnlyUnderAll | src/pages/Pipelines.tsx:139 | a pipeline with no status passes the status condition only under `'all'` |
| Pipelines.NoDescriptionSearchesName | src/pages/Pipelines.tsx:136-137 | for a pipeline with no description, the search matches exactly when the lower-cased name includes the lower-cased query |
| Pipelines.StatusFilterSelects | src/pages/Pipelines.tsx:139 | the status selector set to a status literal keeps exactly the pipelines with that status |
| Pipelines.TypeFilterSelects | src/pages/Pipelines.tsx:138 | the type selector set to a kind literal keeps exactly the pipelines of that kind |
| Pipelines.SearchIgnoresQueryCase | src/pages/Pipelines.tsx:136-137 | a query and its lower-cased form match the same pipelines |
| Pipelines.FilterOrderIrrelevant | src/pages/Pipelines.tsx:135-142 | applying the search, type and status filters one after another, in any of the six orders, gives the combined view |
| Pipelines.CreateFirstOnlyWhenEmpty | src/pages/Pipelines.tsx:315-329 | the "create your first pipeline" prompt appears exactly when the list is empty and no filter is set |
| Pipelines.EmptyState | src/pages/Pipelines.tsx:315-325 | no hint while the view is non-empty; otherwise "adjust the filters" when a search text or a selector other than `'all'` is set, and "create your first pipeline" when none is |
| Pipelines.Started | src/pages/Pipelines.tsx:109-112 | the run step keeps length and order; every pipeline with the id gets status `running`; every other pipeline is unchanged |
| Pipelines.Completed | src/pages/Pipelines.tsx:119-124 | the completion step keeps length and order; every pipeline with the id gets status `success` and last run `now`; every other pipeline is unchanged |
| Pipelines.Deleted | src/pages/Pipelines.tsx:127-128 | the delete step keeps exactly the pipelines whose id differs, in their original order |
| Pipelines.DeletedCount | src/pages/Pipelines.tsx:128 | delete drops every copy of a pipeline with the id and keeps every other pipeline as often as it occurred |
| Pipelines.DeleteAbsent | src/pages/Pipelines.tsx:128 | deleting an id that no pipeline has leaves the list unchanged |
| Pipelines.StartedIdempotent | src/pages/Pipelines.tsx:109-112 | running an id a second time before completion leaves the list unchanged; there is no conflict error |
| Pipelines.CompletedAfterStarted | src/pages/Pipelines.tsx:110-123 | run followed by completion gives the same list as completion alone |
| Pipelines.CompletedAfterDeleted | src/pages/Pipelines.tsx:120-128 | a completion that fires after the pipeline was deleted changes nothing |
| Pipelines.RunDisablesButton | src/pages/Pipelines.tsx:288-295 | after the run step, the run button of every pipeline with the id is disabled; after the completion step it is enabled again |
| Pipelines.RunButtonEnabled | src/pages/Pipelines.tsx:295 | the card's run button is enabled unless the pipeline's status is `running`; a pipeline with no status can be run |
| Pipelines.PipelineList.constructor | src/pages/Pipelines.tsx:80 | the page's list starts as the given pipelines |
| Pipelines.PipelineList.Run | src/pages/Pipelines.tsx:109-112 | replaces the list by `Started`: pipelines with the id are `running`; all others and the length are unchanged |
| Pipelines.PipelineList.RunFromButton | src/pages/Pipelines.tsx:288-295 | the card button starts only a pipeline of the list that is not running, with the same effect as `Run` |
| Pipelines.PipelineList.Complete | src/pages/Pipelines.tsx:119-124 | replaces the list by `Completed`: pipelines with the id are `success` with last run `now`; all others and the length are unchanged |
| Pipelines.PipelineList.Delete | src/pages/Pipelines.tsx:127-128 | replaces the list by `Deleted`: no pipeline has the id afterwards; every other pipeline is kept |
| Pipelines.PipelineList.Filtered | src/pages/Pipelines.tsx:135-142 | the view of the current list holds exactly the listed pipelines that match |
| History.FormatDuration | src/pages/History.tsx:116-121 | under 60 seconds, the seconds followed by `s`; from 60 on, `m` minutes and `r` seconds written as `"{m}m {r}s"` with `m >= 1`, `r < 60` and `m*60 + r` equal to the input |
| History.DurationRoundTrip | src/pages/History.tsx:116-121 | reading a formatted duration back gives the seconds it was formatted from |
| History.FormatDurationInjective | src/pages/History.tsx:116-121 | different durations are formatted differently |
| History.MinutesFormFromOneMinute | src/pages/History.tsx:117-120 | the text contains `m` exactly when the duration is at least 60 seconds |
| History.ZeroDurationShownBare | src/pages/History.tsx:275 | the duration cell as written shows `0`, not `0s`, for a zero-second execution |
| History.DurationCellAsWritten | src/pages/History.tsx:275 | the duration cell as written: empty for a missing duration, the bare number `0` for a zero duration, the formatted duration otherwise |
| History.DurationCell | src/pages/History.tsx:275 | the corrected cell is empty exactly when the duration is missing, and otherwise reads back as that duration |
| History.FilteredExecutions | src/pages/History.tsx:128-132 | an execution is in the view exactly when it is in the list, its lower-cased pipeline name includes the lower-cased query, and the status selector is `'all'` or names its status; the view keeps list order |
| History.NameMatches | src/pages/History.tsx:129 | the lower-cased pipeline name includes the lower-cased query |
| History.ExecutionStatusMatches | src/pages/History.tsx:130 | the status selector is `'all'` or names the execution's status |
| History.MatchesExecution | src/pages/History.tsx:131 | the conjunction of the name search and the status condition |
| History.FilteredExecutionsCount | src/pages/History.tsx:128-132 | a matching execution appears in the view as often as in the list; a non-matching one never appears |
| History.NoExecutionFilterShowsAll | src/pages/History.tsx:87-88 | with an empty search and the status selector on `'all'`, every execution is shown |
| History.ExecutionStatusFilterSelects | src/pages/History.tsx:130 | the status condition with a status literal holds exactly for the executions with that status, and so does the whole filter under the empty search |
| History.ExecutionFilterOrderIrrelevant | src/pages/History.tsx:128-132 | applying the name search and the status condition one after the other, in either order, gives the combined view |
| History.SuccessCount | src/pages/History.tsx:124 | the number of successful executions never exceeds the number of executions |
| History.Succeeded | src/pages/History.tsx:124 | an execution counts as a success when its status is `success` |
| History.SuccessCountComplement | src/pages/History.tsx:124 | the successful and the other executions together number all executions |
| History.SuccessCountAppend | src/pages/History.tsx:124 | the count over two lists joined is the sum of their counts |
| History.SuccessCountExtremes | src/pages/History.tsx:124 | the count equals the list length exactly when every execution succeeded, and is 0 exactly when none did |

## Left out

- Text.Lower: lowers only the ASCII letters `A`-`Z`. JavaScript's `toLowerCase` applies full Unicode case mapping, which this model does not tabulate.
- History.FormatDuration: takes whole seconds. A fractional `number` (which JavaScript would write as e.g. `1m 30.5s`) is not modelled.
- History.SuccessCount: only the integer count is modelled. The percentage `calculateSuccessRate` returns uses floating-point division and `toFixed(1)`. On an empty list it is `NaN`, and nothing guards against that.
- The three-second `setTimeout` is not modelled as time. Completion is an explicit `Complete` call, and any number of calls may come between `Run` and it.
- The date-range selector of the history page is held in state but never used by any filter, so it is not modelled.
- Date rendering with `toLocaleString`, icons, badges, the status-to-icon and status-to-badge mappings, toasts, routing and the rest of the markup are presentation.
- The sample pipeline and execution arrays are data, not behaviour. The model takes any list.
- Number fields (`iterations`, `timeout`, `duration`, result counts) are unbounded integers. Floating point is not modelled.
- Pipelines.Completed: stamps every pipeline with the id with the same `now`. The source calls `new Date()` inside the `map` callback, once per matching pipeline, so pipelines sharing an id may get slightly different times there.
- Strings are Dafny `string`s, sequences of Unicode scalar values; JavaScript strings are sequences of UTF-16 code units. `includes` gives the same answer on well-formed text, but a lone surrogate cannot be represented in the model.
- Decimal.IntToString: writes every integer in plain digits. JavaScript switches to exponent form (`1e+21`) from 10^21 on; that form is not modelled.
- `src/pages/Dashboard.tsx` shows hard-coded statistics and sample rows.
- `src/pages/Settings.tsx` has toggles whose handlers only show notifications.
- `src/pages/Login.tsx` calls an authentication service that is not part of this model.
- `User`, `UserRole` and `SlackConfig` from `src/types/pipeline.ts` are used by no modelled operation.

## Findings

| source | as written | input that shows it | evidently intended | confidence | as-written member | corrected member |
|---|---|---|---|---|---|---|
| src/pages/History.tsx:275 | `{execution.duration && formatDuration(execution.duration)}` renders the number itself when the duration is `0`, because React renders the falsy number `0` as text | an execution with `duration: 0` shows `0` in the duration column | a present duration is always formatted, so `0` seconds shows `0s` | medium, not executed | History.DurationCellAsWritten (exhibited by History.ZeroDurationShownBare) | History.DurationCell |
