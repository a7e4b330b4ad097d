# DataPipe Pro: the pipeline runner and the quality gate

This project models the core of DataPipe Pro, a browser dashboard that
simulates an end-to-end data pipeline, in Dafny, and proves properties of it:

- **The task registry** (`constants.tsx`). Seven tasks are declared with
  ids, names, categories, an Idle status and a declared dependency list:
  three Ingestion fetches, two Processing steps, one Storage step and one
  Analytics step. This is `Registry.InitialTasks`.
- **The dashboard state** (`App.tsx`). It holds the task list, the
  "pipeline running" flag and the log feed. This is the class
  `App.Dashboard`, and each handler of the component is one of its methods:
  - `addLog`
  - "Clear Logs"
  - `performFetch`
  - `runPipeline`, whose loop body is the method `RunTask`

  `runPipeline` does the following:
  - It refuses to start while a run is in flight.
  - It resets every task to Idle and logs the start line.
  - It walks the task list in array order. After the first failure it marks
    every later task Skipped. Otherwise it marks the task Running, does its
    work (a fetch for an Ingestion task, a random draw for any other task)
    and records Success or Failed.
  - It logs `Pipeline run FAILED.` or `Pipeline run COMPLETED.`.

  The log panel's colour rule is the function `App.ColourOf`.
- **The quality gate** (`pipeline/quality/check_quality.py`). It checks the
  cleaned metrics table, and the first guard that fires decides. The guards,
  in order:
  1. A missing file.
  2. Missing required columns, listed in sorted order.
  3. Nulls.
  4. Negative `metric_value`.
  5. Fewer than three rows.

  This is `Quality.Check`.

The network, the clock and `Math.random()` are not part of the model. A run
is given one `App.Effect` per task position instead. An Effect holds the
settled `fetch` reply that an Ingestion task would receive, and the outcome
of `Math.random() > 0.02` that any other task would draw. Each method is
proved against a specification function:
- `RunTask` against `App.Step`.
- `RunPipeline` against `App.Run`, the fold `App.Steps` plus the completion
  line.
- `PerformFetch` against `App.FetchOutcome`.

The lemmas state what a run guarantees, measured against an independent
reference definition. `App.Expected` gives each task's final status from
the effects alone.

Modules:
- `Wrappers`: Option.
- `Text`: substring test and number rendering.
- `Types`: the task record and status enum of `types.ts`.
- `Registry`: the task registry.
- `App`: the dashboard.
- `Quality`: the quality gate.

The start line promises "parallel ingestion" and the tasks declare
dependencies, but the loop awaits each task in array order and never reads
`dependencies`. The model is therefore sequential, and
`App.RunIgnoresDependencies` proves that dependencies cannot influence a run.

The status updates locate a task by id and update every task carrying it.
The run lemmas therefore assume pairwise distinct ids, which the registry
has (`Registry.InitialTasksDistinct`) and which a run keeps
(`App.RunKeepsIds`, and the `Valid` predicate of `App.Dashboard`). With a
repeated id, a later Skipped overwrites an earlier Failed, and the run says
FAILED while no task is Failed (`App.DuplicateIdsHideFailure`).

## Model

| member | source | states |
|---|---|---|
| Registry.InitialTasksDistinct | constants.tsx:5-62 | the registry holds seven tasks whose ids are pairwise distinct |
| Registry.InitialTasksIdle | constants.tsx:5-62 | every registered task starts Idle with an empty task log |
| Registry.IngestionFirst | constants.tsx:5-62 | the three Ingestion tasks come first with no dependencies, and no later task is Ingestion |
| Registry.InitialTasksTopological | constants.tsx:30-61 | every declared dependency names a task listed earlier, so array order is a topological order of the declared graph |
| App.Dashboard.constructor | App.tsx:89-91 | initial state: the registry's tasks, not running, one "Ready for execution" log line |
| App.Dashboard.AddLog | App.tsx:116-118 | exactly one entry is appended to the log, and tasks and the running flag are unchanged |
| App.Dashboard.ClearLogs | App.tsx:315 | the log becomes empty, and tasks and the running flag are unchanged |
| App.FetchOutcome | App.tsx:120-160 | an unknown id resolves to true and logs nothing. A known id logs a request line and one more line. It resolves to true exactly when the reply arrived with a 2xx status and a readable body. The second line is tagged [FETCH] on success and [ERROR] on failure |
| App.Dashboard.PerformFetch | App.tsx:120-160 | returns the verdict of FetchOutcome and appends exactly its lines to the log, and nothing else changes |
| App.Dashboard.RunTask | App.tsx:172-199 | one loop pass: the new task list, log and failure flag are Step of the old ones |
| App.Dashboard.RunPipeline | App.tsx:162-204 | while a run is in flight nothing changes. Otherwise tasks and log become Run of the old ones and the running flag ends false. Distinct ids stay distinct |
| App.Run | App.tsx:162-202 | the run keeps the number of tasks, and its last log line is the completion line for its verdict |
| App.SetStatusAt | App.tsx:174 | the by-id status update changes only the task at that position when the id is unique |
| App.StepTracked | App.tsx:173-198 | one pass sets only the current task's status: Skipped after a failure, otherwise Success or Failed by its own work. The failure flag becomes "failed so far or this task failed". A skipped pass logs nothing; a worked pass appends exactly the started line, the fetch lines and the verdict line |
| App.StepsTrack | App.tsx:166-199 | after n tasks, each of the first n carries its reference status Expected, the rest are Idle, and the failure flag holds exactly when one of the first n failed |
| App.RunStatuses | App.tsx:166-199 | after a run every task is its original record with status Expected, and the run failed exactly when some task's work failed |
| App.RunTerminal | App.tsx:172-199 | after a run no task is Idle or Running, and at most one task is Failed |
| App.RunSkipsAfterFailure | App.tsx:173-176 | every task after the Failed one is Skipped, and every task before it is Success |
| App.StepsAfterFailure | App.tsx:173-176 | once the run has failed, later passes log nothing and the flag stays set |
| App.RunLogStopsAtFailure | App.tsx:173-202 | after the first failing task the log receives only "Pipeline run FAILED.": no later task logs a start, a fetch or a verdict |
| App.StepsAfterFailureSkip | App.tsx:173-176 | once the run has failed, the remaining passes only mark their tasks Skipped, whatever the environment holds for them |
| App.StepsPrefix | App.tsx:172-199 | environments that agree on the first n positions give the same state after n passes |
| App.RunIgnoresLaterEffects | App.tsx:173-188 | the environment after the first failing task is never consulted: no later fetch or draw happens |
| App.RunKeepsIds | App.tsx:166-191 | a run changes only statuses, so a list with distinct ids keeps them distinct |
| App.DuplicateIdsHideFailure | App.tsx:174-191 | with two tasks sharing an id, the first failing, both end Skipped and the run still says FAILED |
| App.RunAllSucceed | App.tsx:190-202 | when every unit of work succeeds, all tasks end Success and the last line is "Pipeline run COMPLETED." |
| App.RunFirstFails | App.tsx:173-202 | when the first task's work fails, it ends Failed, all others Skipped, and the last line is "Pipeline run FAILED." |
| App.RegistryIngestionFetches | App.tsx:124-139 | every Ingestion task of the registry has an endpoint, so it does a real fetch |
| App.RegistryFirstFetchFails | App.tsx:144 | on the registry, an HTTP 500 for the first fetch fails that task, skips the other six and ends the run FAILED |
| App.WorkLinesTagged | App.tsx:142-157 | every line a fetch logs starts with a bracketed tag |
| App.StepLines | App.tsx:179-197 | one pass only appends to the log and never appends the start line |
| App.StepsExtendLog | App.tsx:172-199 | the loop only appends to the log and never appends the start line |
| App.RunLog | App.tsx:165-202 | the old log and the start line are a prefix of the new log, the last line is the completion line, and it says FAILED exactly when some task ended Failed |
| App.RunStartLineOnce | App.tsx:167 | the start line is written exactly once, right after the old log |
| App.RunIgnoresDependencies | App.tsx:172-199 | two task lists that differ only in dependencies give the same statuses, the same log and the same verdict |
| App.RunRespectsDependencies | App.tsx:172-199 | on a list whose dependencies point backwards (as the registry's do), every task that ran finds each dependency earlier and Success |
| App.StampedColour | App.tsx:117 | the bracketed time prefix never changes a line's colour when the time has no upper-case E |
| App.NoKeywordWithoutE | App.tsx:324 | a line without an upper-case E is Gray |
| App.CompletionLineColour | App.tsx:324 | the completion line is Rose when the run failed and Gray (not Emerald) when it completed |
| App.ErrorLineColour | App.tsx:324 | every fetch error line is Rose |
| App.TaskLinesGray | App.tsx:324 | "started" and "finished successfully" lines are Gray for a name without an upper-case E: the rule looks for upper-case SUCCESS |
| Text.ContainsAfterPrefix | App.tsx:324 | a prefix that lacks a character of the pattern and ends in a character the pattern does not use adds no occurrence of the pattern |
| Text.NatToString | App.tsx:144 | the rendering of a status or a length is a non-empty string of decimal digits |
| Text.NatToStringValue | App.tsx:144 | those digits denote the number, with no leading zero |
| Quality.CheckPassesIff | pipeline/quality/check_quality.py:14-34 | the gate passes exactly when the file exists and the table has the required columns, no missing cell, only non-negative numeric metric values and at least three rows |
| Quality.CheckFileFirst | pipeline/quality/check_quality.py:15-17 | the "not found" exit happens exactly when the file is missing |
| Quality.CheckMissingColumns | pipeline/quality/check_quality.py:20-23 | with a required column absent, the gate exits with the missing-columns message, whose list is strictly ascending and holds exactly the absent required names |
| Quality.CheckNulls | pipeline/quality/check_quality.py:25-26 | with the columns present, the null exit fires exactly when some cell is missing |
| Quality.CheckNegative | pipeline/quality/check_quality.py:28-29 | with columns present and no nulls, a text metric raises the comparison error; with numbers only, the negative exit fires exactly when some metric is below 0 |
| Quality.CheckRows | pipeline/quality/check_quality.py:31-32 | once the earlier guards pass, the rows exit fires exactly when there are fewer than three rows |
| Quality.EmptyIsRedundant | pipeline/quality/check_quality.py:31 | once the required columns exist, `df.empty` adds nothing to `len(df) < 3` |
| Quality.KeepSpec | pipeline/quality/check_quality.py:23 | filtering a strictly sorted list keeps it strictly sorted and keeps exactly the selected names |
| Quality.SortedMissingSpec | pipeline/quality/check_quality.py:23 | the printed list is strictly ascending and holds exactly the missing names |
| Quality.SortedUnique | pipeline/quality/check_quality.py:23 | two strictly ascending lists of the same names are equal |
| Quality.MissingListIsSorted | pipeline/quality/check_quality.py:23 | the printed list is the one strictly ascending list of the missing names, that is, Python's `sorted(missing)` |

## Left out

- App.Dashboard.AddLog: it stores the bare message without the `[time] ` prefix, because the clock is outside the model. `App.StampedColour` shows that the prefix cannot change a line's colour for a time without an upper-case E.
- Line order across awaits: the React state updates (`setTasks`, `setLogs`) are applied at once and in program order. The batching and re-rendering of React are not modelled.
- App.Dashboard.RunPipeline: a run is modelled as one atomic call. In the program it suspends at each `await` (App.tsx:183, 186), where another handler may run. "Clear Logs" is not disabled during a run, so clicking it mid-run empties the log, and the run then appends to the empty list. App.RunLog and App.RunStartLineOnce therefore hold only when no other handler runs during the run.
- The stale closure: `runPipeline` reads `tasks` and `isPipelineRunning` from the component state at the call, as the render that created the callback would.
- Network, timer and randomness: these are replaced by the injected `Effect` per task position. The real URLs and the API key are not modelled. Neither is the 1.5 to 2.5 second delay of non-ingestion tasks, which changes no state.
- `response.json()`: it is abstracted to a body that is an array of some length, another value with or without a truthy `top_news`, or an error with its message.
- `fetchInsights`: it is left out together with `services/geminiService.ts`, because it is a call to an outside language model and only sets the insights panel.
- The mock metrics series (App.tsx:105-114): it is random chart data with no effect on the pipeline.
- The view components (`SidebarItem`, `TaskNode`, `SchemaCard`), tab switching, auto-scroll and `DATA_SCHEMA`: they are presentational only. The log colour rule is the one view rule modelled.
- `startTime` and `endTime` of a task: they are optional and never set by the code.
- App.TaskLinesGray: it is stated for any name without an upper-case E rather than for each registry name one by one. The registry names have none.
- Quality.Check: the read of the parquet file is given as an optional frame. Errors raised by `pd.read_parquet` on a corrupt file are not modelled, and neither is the final `logger.info` line.
- Quality.Check: a cell is missing, a number or text. pandas dtypes are not modelled beyond the comparison of text with 0 raising an error.
- The Python ingestion, processing, storage, orchestration, visualisation and logging scripts under `pipeline/`: they are not part of this model.
