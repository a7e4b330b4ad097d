/**
 * The dashboard's pipeline runner and log feed (App.tsx).
 *
 * The component's state (`tasks`, `isPipelineRunning`, `logs`) is the class
 * `Dashboard`; `runPipeline`, `addLog`, `performFetch` and the clear-logs
 * button are its methods. Each awaited step of the source (a network reply, a
 * timer followed by a random draw) is an `Effect` handed to the run, one per
 * task position. The functions below the class are the specification the
 * methods are proved against, and the lemmas state what a run guarantees.
 */
module App {
  import opened Wrappers
  import opened Text
  import opened Types
  import Registry

  // ---------------------------------------------------------------------------
  // Log lines
  // ---------------------------------------------------------------------------

  const ReadyLine := "[SYSTEM] Pipeline initialized. Ready for execution."
  const StartLine := "Pipeline run started. " + "Initializing parallel ingestion..."

  function StartedLine(name: string): string { "Task '" + name + "' started." }
  function FinishedLine(name: string): string { "Task '" + name + "' finished successfully." }
  function HaltedLine(name: string): string { "Pipeline execution halted at task: " + name }
  function CompletionLine(failed: bool): string
  {
    "Pipeline run " + (if failed then "FAILED" else "COMPLETED") + "."
  }

  function RequestLine(description: string): string { "[FETCH] Requesting " + description + "..." }
  function ErrorLine(description: string, message: string): string
  {
    "[ERROR] " + description + " failed: " + message + ". Check for CORS or Network issues."
  }

  // ---------------------------------------------------------------------------
  // performFetch
  // ---------------------------------------------------------------------------

  /** The three ingestion ids `performFetch` knows, with the description it logs. */
  function Endpoint(taskId: string): Option<string>
  {
    if taskId == "extract_world_news" then Some("World News API")
    else if taskId == "extract_world_bank" then Some("World Bank Regions API")
    else if taskId == "extract_pony_api" then Some("PonyAPI Characters")
    else None
  }

  /**
   * What `response.json()` yields: an array of some length, any other JSON
   * value (with whether its `top_news` property is truthy), or a failure
   * carrying the thrown message (a body that does not parse, or a `null`
   * whose property read throws).
   */
  datatype Body = JsonArray(length: nat) | JsonValue(topNews: bool) | Unreadable(message: string)

  /** The settled `fetch(url)`: a rejection with its message, or a reply with a status. */
  datatype Response = Rejected(message: string) | Reply(status: nat, body: Body)

  /** `response.ok`: the status is in the range 200 to 299. */
  predicate IsOk(status: nat) { 200 <= status <= 299 }

  /** The request completed, reported success and its body was read. */
  predicate Delivered(response: Response)
  {
    response.Reply? && IsOk(response.status) && !response.body.Unreadable?
  }

  datatype FetchResult = FetchResult(ok: bool, lines: seq<string>)

  /** The value `performFetch(taskId)` resolves to and the lines it logs on the way. */
  function FetchOutcome(taskId: string, response: Response): (r: FetchResult)
    ensures Endpoint(taskId).None? ==> r == FetchResult(true, [])
    ensures Endpoint(taskId).Some? ==>
      |r.lines| == 2 && r.lines[0] == RequestLine(Endpoint(taskId).value) &&
      (r.ok <==> Delivered(response)) &&
      (if r.ok then "[FETCH]" else "[ERROR]") <= r.lines[1]
  {
    match Endpoint(taskId)
    case None => FetchResult(true, [])
    case Some(desc) =>
      var request := RequestLine(desc);
      match response
      case Rejected(message) => FetchResult(false, [request, ErrorLine(desc, message)])
      case Reply(status, body) =>
        if !IsOk(status) then
          FetchResult(false, [request, ErrorLine(desc, "HTTP Error " + NatToString(status))])
        else
          match body
          case Unreadable(message) => FetchResult(false, [request, ErrorLine(desc, message)])
          case JsonArray(n) =>
            FetchResult(true, [request, "[FETCH] Received " + NatToString(n) + " items from " + desc + "."])
          case JsonValue(topNews) =>
            FetchResult(true, [request,
              if topNews then "[FETCH] Received top news articles from " + desc + "."
              else "[FETCH] Success! Received payload from " + desc + "."])
  }

  // ---------------------------------------------------------------------------
  // One run, as a specification
  // ---------------------------------------------------------------------------

  /**
   * What the environment does at one task position: the reply the task's
   * fetch receives (read only by an Ingestion task with a known id) and the
   * outcome of `Math.random() > 0.02` (read only by the other categories).
   */
  datatype Effect = Effect(response: Response, draw: bool)

  /** Whether the task's unit of work reports success. */
  function Succeeds(t: PipelineTask, e: Effect): bool
  {
    if t.category == Ingestion then FetchOutcome(t.id, e.response).ok else e.draw
  }

  /** The lines the task's unit of work logs between "started" and its verdict. */
  function WorkLines(t: PipelineTask, e: Effect): seq<string>
  {
    if t.category == Ingestion then FetchOutcome(t.id, e.response).lines else []
  }

  /** `prev.map(t => ({ ...t, status: IDLE }))` */
  function Reset(ts: seq<PipelineTask>): seq<PipelineTask>
  {
    seq(|ts|, i requires 0 <= i < |ts| => ts[i].(status := Idle))
  }

  /** `prev.map(t => t.id === id ? { ...t, status } : t)` */
  function SetStatus(ts: seq<PipelineTask>, id: string, status: TaskStatus): seq<PipelineTask>
  {
    seq(|ts|, i requires 0 <= i < |ts| => if ts[i].id == id then ts[i].(status := status) else ts[i])
  }

  /** The task list, the log and the local `pipelineFailed` flag during a run. */
  datatype RunState = RunState(tasks: seq<PipelineTask>, logs: seq<string>, failed: bool)

  /** One pass of the loop body for task `t`. */
  function Step(s: RunState, t: PipelineTask, e: Effect): RunState
  {
    if s.failed then
      s.(tasks := SetStatus(s.tasks, t.id, Skipped))
    else
      var ok := Succeeds(t, e);
      RunState(
        SetStatus(SetStatus(s.tasks, t.id, Running), t.id, if ok then Success else Failed),
        s.logs + [StartedLine(t.name)] + WorkLines(t, e)
               + [if ok then FinishedLine(t.name) else HaltedLine(t.name)],
        !ok)
  }

  /** The state after the loop has handled the first `n` tasks of the queue. */
  function Steps(queue: seq<PipelineTask>, effects: seq<Effect>, start: RunState, n: nat): (s: RunState)
    requires n <= |queue| == |effects|
    ensures |s.tasks| == |start.tasks|
  {
    if n == 0 then start
    else Step(Steps(queue, effects, start, n - 1), queue[n - 1], effects[n - 1])
  }

  /** The state right after the guard: every task Idle, one start line logged. */
  function Start(queue: seq<PipelineTask>, logs: seq<string>): RunState
  {
    RunState(Reset(queue), logs + [StartLine], false)
  }

  /** A whole run over `queue`, ending with the completion line. */
  function Run(queue: seq<PipelineTask>, logs: seq<string>, effects: seq<Effect>): (r: RunState)
    requires |queue| == |effects|
    ensures |r.tasks| == |queue|
    ensures |r.logs| > 0 && r.logs[|r.logs| - 1] == CompletionLine(r.failed)
  {
    var s := Steps(queue, effects, Start(queue, logs), |queue|);
    s.(logs := s.logs + [CompletionLine(s.failed)])
  }

  // ---------------------------------------------------------------------------
  // The component state
  // ---------------------------------------------------------------------------

  class Dashboard {
    var tasks: seq<PipelineTask>
    var isPipelineRunning: bool
    var logs: seq<string>

    /**
     * The run lemmas hold for task lists with pairwise distinct ids: the
     * by-id updates of a list with a repeated id touch every copy.
     */
    ghost predicate Valid()
      reads this
    {
      Registry.DistinctIds(tasks)
    }

    /** The initial `useState` values. */
    constructor ()
      ensures tasks == Registry.InitialTasks && !isPipelineRunning && logs == [ReadyLine]
      ensures Valid()
    {
      tasks := Registry.InitialTasks;
      isPipelineRunning := false;
      logs := [ReadyLine];
      Registry.InitialTasksDistinct();
    }

    /** `addLog`: exactly one entry is appended; earlier entries are kept. */
    method AddLog(msg: string)
      modifies this
      ensures logs == old(logs) + [msg]
      ensures tasks == old(tasks) && isPipelineRunning == old(isPipelineRunning)
    {
      logs := logs + [msg];
    }

    /** The "Clear Logs" button. */
    method ClearLogs()
      modifies this
      ensures logs == []
      ensures tasks == old(tasks) && isPipelineRunning == old(isPipelineRunning)
    {
      logs := [];
    }

    /** `performFetch`: an unknown id resolves to true without a request or a log line. */
    method PerformFetch(taskId: string, response: Response) returns (ok: bool)
      modifies this
      ensures ok == FetchOutcome(taskId, response).ok
      ensures logs == old(logs) + FetchOutcome(taskId, response).lines
      ensures tasks == old(tasks) && isPipelineRunning == old(isPipelineRunning)
    {
      var description;
      match Endpoint(taskId) {
        case None => return true;
        case Some(d) => description := d;
      }
      AddLog(RequestLine(description));
      match response {
        case Rejected(message) =>
          AddLog(ErrorLine(description, message));
          return false;
        case Reply(status, body) =>
          if !IsOk(status) {
            AddLog(ErrorLine(description, "HTTP Error " + NatToString(status)));
            return false;
          }
          match body {
            case Unreadable(message) =>
              AddLog(ErrorLine(description, message));
              return false;
            case JsonArray(n) =>
              AddLog("[FETCH] Received " + NatToString(n) + " items from " + description + ".");
            case JsonValue(topNews) =>
              if topNews {
                AddLog("[FETCH] Received top news articles from " + description + ".");
              } else {
                AddLog("[FETCH] Success! Received payload from " + description + ".");
              }
          }
          return true;
      }
    }

    /**
     * One iteration of `runPipeline`'s loop: skip the task when the run has
     * failed, otherwise mark it Running, do its work and record the verdict.
     * Returns the new value of `pipelineFailed`.
     */
    method RunTask(task: PipelineTask, effect: Effect, pipelineFailed: bool) returns (failed: bool)
      modifies this
      ensures RunState(tasks, logs, failed) ==
        Step(RunState(old(tasks), old(logs), pipelineFailed), task, effect)
      ensures isPipelineRunning == old(isPipelineRunning)
    {
      if pipelineFailed {
        tasks := SetStatus(tasks, task.id, Skipped);
        return true;
      }
      tasks := SetStatus(tasks, task.id, Running);
      AddLog(StartedLine(task.name));
      var success;
      if task.category == Ingestion {
        success := PerformFetch(task.id, effect.response);
      } else {
        success := effect.draw;
      }
      var finalStatus := if success then Success else Failed;
      tasks := SetStatus(tasks, task.id, finalStatus);
      if !success {
        AddLog(HaltedLine(task.name));
        failed := true;
      } else {
        AddLog(FinishedLine(task.name));
        failed := false;
      }
    }

    /**
     * `runPipeline`: refused while a run is in flight; otherwise resets every
     * task, walks the task list in array order and logs the verdict.
     */
    method RunPipeline(effects: seq<Effect>)
      requires |effects| == |tasks|
      modifies this
      ensures old(isPipelineRunning) ==>
        tasks == old(tasks) && logs == old(logs) && isPipelineRunning
      ensures !old(isPipelineRunning) ==>
        var r := Run(old(tasks), old(logs), effects);
        tasks == r.tasks && logs == r.logs && !isPipelineRunning
      ensures old(Valid()) ==> Valid()
    {
      if isPipelineRunning {
        return;
      }
      isPipelineRunning := true;
      // The loop walks the list captured when the run was requested; the
      // reset below replaces the state, not this copy.
      var taskQueue := tasks;
      tasks := Reset(tasks);
      AddLog(StartLine);
      ghost var start := Start(taskQueue, old(logs));
      var pipelineFailed := false;
      var i := 0;
      while i < |taskQueue|
        invariant 0 <= i <= |taskQueue| == |effects|
        invariant RunState(tasks, logs, pipelineFailed) == Steps(taskQueue, effects, start, i)
        invariant isPipelineRunning
      {
        pipelineFailed := RunTask(taskQueue[i], effects[i], pipelineFailed);
        i := i + 1;
      }
      ghost var finished := Steps(taskQueue, effects, start, |taskQueue|);
      assert Run(taskQueue, old(logs), effects) ==
        finished.(logs := finished.logs + [CompletionLine(finished.failed)]);
      isPipelineRunning := false;
      AddLog(CompletionLine(pipelineFailed));
      if Registry.DistinctIds(taskQueue) {
        RunKeepsIds(taskQueue, old(logs), effects);
      }
    }
  }

  // ---------------------------------------------------------------------------
  // What a run guarantees
  // ---------------------------------------------------------------------------

  /** Some task before position `n` reports failure. */
  predicate FailsBefore(queue: seq<PipelineTask>, effects: seq<Effect>, n: nat)
    requires n <= |queue| == |effects|
  {
    exists j :: 0 <= j < n && !Succeeds(queue[j], effects[j])
  }

  /**
   * Reference definition of a task's final status, independent of the loop:
   * Skipped when an earlier task failed, otherwise the verdict of its own work.
   */
  function Expected(queue: seq<PipelineTask>, effects: seq<Effect>, k: nat): TaskStatus
    requires k < |queue| == |effects|
  {
    if FailsBefore(queue, effects, k) then Skipped
    else if Succeeds(queue[k], effects[k]) then Success
    else Failed
  }

  /** A status update touches only the task carrying the id, when that id is unique. */
  lemma SetStatusAt(ts: seq<PipelineTask>, k: nat, status: TaskStatus)
    requires k < |ts|
    requires forall j :: 0 <= j < |ts| && j != k ==> ts[j].id != ts[k].id
    ensures SetStatus(ts, ts[k].id, status) == ts[k := ts[k].(status := status)]
  {
  }

  /** One pass of the loop body, on a task list whose ids line up with the queue's. */
  lemma StepTracked(queue: seq<PipelineTask>, effects: seq<Effect>, s: RunState, n: nat)
    requires Registry.DistinctIds(queue)
    requires n < |queue| == |effects|
    requires |s.tasks| == |queue| && forall j :: 0 <= j < |queue| ==> s.tasks[j].id == queue[j].id
    ensures var s' := Step(s, queue[n], effects[n]);
      s'.tasks == s.tasks[n := s.tasks[n].(status :=
        if s.failed then Skipped else if Succeeds(queue[n], effects[n]) then Success else Failed)] &&
      s'.failed == (s.failed || !Succeeds(queue[n], effects[n])) &&
      (s.failed ==> s'.logs == s.logs) &&
      (!s.failed ==>
        var verdict := if Succeeds(queue[n], effects[n]) then FinishedLine(queue[n].name) else HaltedLine(queue[n].name);
        s'.logs == s.logs + [StartedLine(queue[n].name)] + WorkLines(queue[n], effects[n]) + [verdict])
  {
    var t := queue[n];
    if s.failed {
      SetStatusAt(s.tasks, n, Skipped);
    } else {
      SetStatusAt(s.tasks, n, Running);
      var running := s.tasks[n := s.tasks[n].(status := Running)];
      SetStatusAt(running, n, if Succeeds(t, effects[n]) then Success else Failed);
    }
  }

  /** Invariant of the loop: finished positions hold their expected status, the rest are Idle. */
  lemma {:induction false} StepsTrack(queue: seq<PipelineTask>, effects: seq<Effect>, logs: seq<string>, n: nat)
    requires Registry.DistinctIds(queue)
    requires n <= |queue| == |effects|
    ensures var s := Steps(queue, effects, Start(queue, logs), n);
      |s.tasks| == |queue| &&
      (forall k :: 0 <= k < |queue| ==>
        s.tasks[k] == queue[k].(status := if k < n then Expected(queue, effects, k) else Idle)) &&
      (s.failed <==> FailsBefore(queue, effects, n))
  {
    if n > 0 {
      StepsTrack(queue, effects, logs, n - 1);
      var s := Steps(queue, effects, Start(queue, logs), n - 1);
      StepTracked(queue, effects, s, n - 1);
      FailsBeforeNext(queue, effects, n - 1);
      var s' := Steps(queue, effects, Start(queue, logs), n);
      assert s' == Step(s, queue[n - 1], effects[n - 1]);
      var last := Expected(queue, effects, n - 1);
      assert s'.tasks == s.tasks[n - 1 := queue[n - 1].(status := last)];
      forall k | 0 <= k < |queue|
        ensures s'.tasks[k] == queue[k].(status := if k < n then Expected(queue, effects, k) else Idle)
      {
        if k != n - 1 {
          assert s'.tasks[k] == s.tasks[k];
        }
      }
    }
  }

  /** A failure before `n + 1` is one before `n` or the task at `n` itself. */
  lemma FailsBeforeNext(queue: seq<PipelineTask>, effects: seq<Effect>, n: nat)
    requires n < |queue| == |effects|
    ensures FailsBefore(queue, effects, n + 1) <==>
      FailsBefore(queue, effects, n) || !Succeeds(queue[n], effects[n])
  {
    if FailsBefore(queue, effects, n + 1) && Succeeds(queue[n], effects[n]) {
      var j :| 0 <= j < n + 1 && !Succeeds(queue[j], effects[j]);
      assert j < n;
    }
  }

  /** After a run each task carries its expected status and is otherwise unchanged. */
  lemma RunStatuses(queue: seq<PipelineTask>, logs: seq<string>, effects: seq<Effect>)
    requires Registry.DistinctIds(queue)
    requires |queue| == |effects|
    ensures var r := Run(queue, logs, effects);
      |r.tasks| == |queue| &&
      (forall k :: 0 <= k < |queue| ==> r.tasks[k] == queue[k].(status := Expected(queue, effects, k))) &&
      (r.failed <==> FailsBefore(queue, effects, |queue|))
  {
    StepsTrack(queue, effects, logs, |queue|);
  }

  /** A run changes only statuses, so distinct ids stay distinct. */
  lemma RunKeepsIds(queue: seq<PipelineTask>, logs: seq<string>, effects: seq<Effect>)
    requires Registry.DistinctIds(queue)
    requires |queue| == |effects|
    ensures Registry.DistinctIds(Run(queue, logs, effects).tasks)
  {
    RunStatuses(queue, logs, effects);
  }

  /**
   * Why the run lemmas need distinct ids: when two tasks share an id, the
   * Skipped update for the second overwrites the first one's Failed, so the
   * run ends FAILED with no task Failed.
   */
  lemma DuplicateIdsHideFailure(t: PipelineTask, e: Effect)
    requires t.category != Ingestion && !e.draw
    ensures var r := Run([t, t], [], [e, e]);
      r.failed && r.tasks[0].status == Skipped && r.tasks[1].status == Skipped
  {
    var start := Start([t, t], []);
    var queue, effects := [t, t], [e, e];
    assert queue[0] == queue[1] == t && effects[0] == effects[1] == e;
    assert Steps(queue, effects, start, 0) == start;
    var s1 := Steps(queue, effects, start, 1);
    assert s1 == Step(start, t, e);
    assert s1.failed && |s1.tasks| == 2;
    assert Steps(queue, effects, start, 2) == Step(s1, t, e);
  }

  /** No task is left Idle or Running, and at most one task is Failed. */
  lemma RunTerminal(queue: seq<PipelineTask>, logs: seq<string>, effects: seq<Effect>)
    requires Registry.DistinctIds(queue)
    requires |queue| == |effects|
    ensures var r := Run(queue, logs, effects);
      (forall k :: 0 <= k < |r.tasks| ==> r.tasks[k].status.IsTerminal()) &&
      (forall i, j :: (0 <= i < |r.tasks| && 0 <= j < |r.tasks| &&
         r.tasks[i].status == Failed && r.tasks[j].status == Failed) ==> i == j)
  {
    RunStatuses(queue, logs, effects);
    var r := Run(queue, logs, effects);
    forall i, j | 0 <= i < |r.tasks| && 0 <= j < |r.tasks| &&
        r.tasks[i].status == Failed && r.tasks[j].status == Failed
      ensures i == j
    {
    }
  }

  /** Every task after a Failed one ends Skipped, and no task before it is Skipped. */
  lemma RunSkipsAfterFailure(queue: seq<PipelineTask>, logs: seq<string>, effects: seq<Effect>, f: nat)
    requires Registry.DistinctIds(queue)
    requires |queue| == |effects|
    requires f < |queue| && Run(queue, logs, effects).tasks[f].status == Failed
    ensures var r := Run(queue, logs, effects);
      (forall k :: f < k < |r.tasks| ==> r.tasks[k].status == Skipped) &&
      (forall k :: 0 <= k < f ==> r.tasks[k].status == Success)
  {
    RunStatuses(queue, logs, effects);
    var r := Run(queue, logs, effects);
    forall k | f < k < |r.tasks| ensures r.tasks[k].status == Skipped {
      assert FailsBefore(queue, effects, k);
    }
    forall k | 0 <= k < f ensures r.tasks[k].status == Success {
      if !Succeeds(queue[k], effects[k]) || FailsBefore(queue, effects, k) {
        assert FailsBefore(queue, effects, f);
      }
    }
  }

  /**
   * Once the run has failed, a pass logs nothing and keeps the flag: a
   * skipped task does no work.
   */
  lemma {:induction false} StepsAfterFailure(queue: seq<PipelineTask>, effects: seq<Effect>, start: RunState, m: nat, n: nat)
    requires m <= n <= |queue| == |effects|
    requires Steps(queue, effects, start, m).failed
    ensures Steps(queue, effects, start, n).logs == Steps(queue, effects, start, m).logs
    ensures Steps(queue, effects, start, n).failed
  {
    if n > m {
      StepsAfterFailure(queue, effects, start, m, n - 1);
      var s := Steps(queue, effects, start, n - 1);
      assert Steps(queue, effects, start, n) == Step(s, queue[n - 1], effects[n - 1]);
    }
  }

  /**
   * After the first failure at `f` the log receives only the completion line:
   * no later task logs a start, a fetch or a verdict.
   */
  lemma RunLogStopsAtFailure(queue: seq<PipelineTask>, logs: seq<string>, effects: seq<Effect>, f: nat)
    requires Registry.DistinctIds(queue)
    requires f < |queue| == |effects|
    requires !Succeeds(queue[f], effects[f]) && !FailsBefore(queue, effects, f)
    ensures Run(queue, logs, effects).logs ==
      Steps(queue, effects, Start(queue, logs), f + 1).logs + ["Pipeline run FAILED."]
  {
    var start := Start(queue, logs);
    StepsTrack(queue, effects, logs, f + 1);
    assert FailsBefore(queue, effects, f + 1);
    StepsAfterFailure(queue, effects, start, f + 1, |queue|);
    CompletionLineText();
  }

  /** The passes `m` to `n` of a failed run: each marks its task Skipped and nothing else. */
  function Skips(s: RunState, queue: seq<PipelineTask>, m: nat, n: nat): (r: RunState)
    requires m <= n <= |queue|
    ensures r.logs == s.logs && r.failed == s.failed
    decreases n - m
  {
    if n == m then s
    else
      var prev := Skips(s, queue, m, n - 1);
      prev.(tasks := SetStatus(prev.tasks, queue[n - 1].id, Skipped))
  }

  /** Once the run has failed, the remaining passes are `Skips`, whatever the effects. */
  lemma {:induction false} StepsAfterFailureSkip(
    queue: seq<PipelineTask>, effects: seq<Effect>, start: RunState, m: nat, n: nat)
    requires m <= n <= |queue| == |effects|
    requires Steps(queue, effects, start, m).failed
    ensures Steps(queue, effects, start, n) == Skips(Steps(queue, effects, start, m), queue, m, n)
  {
    if n > m {
      StepsAfterFailureSkip(queue, effects, start, m, n - 1);
      var prev := Steps(queue, effects, start, n - 1);
      assert prev.failed;
      assert Steps(queue, effects, start, n) == prev.(tasks := SetStatus(prev.tasks, queue[n - 1].id, Skipped));
    }
  }

  /** Effects that agree on the first `n` positions give the same state after `n` passes. */
  lemma {:induction false} StepsPrefix(queue: seq<PipelineTask>, e1: seq<Effect>, e2: seq<Effect>, start: RunState, n: nat)
    requires n <= |queue| == |e1| == |e2|
    requires forall k :: 0 <= k < n ==> e1[k] == e2[k]
    ensures Steps(queue, e1, start, n) == Steps(queue, e2, start, n)
  {
    if n > 0 {
      StepsPrefix(queue, e1, e2, start, n - 1);
      assert e1[n - 1] == e2[n - 1];
    }
  }

  /**
   * The environment after a failing task is never consulted: effects that
   * agree up to that task give the same run.
   */
  lemma RunIgnoresLaterEffects(queue: seq<PipelineTask>, logs: seq<string>, e1: seq<Effect>, e2: seq<Effect>, f: nat)
    requires Registry.DistinctIds(queue)
    requires f < |queue| == |e1| == |e2|
    requires !Succeeds(queue[f], e1[f])
    requires forall k :: 0 <= k <= f ==> e1[k] == e2[k]
    ensures Run(queue, logs, e1) == Run(queue, logs, e2)
  {
    var start := Start(queue, logs);
    StepsTrack(queue, e1, logs, f + 1);
    assert FailsBefore(queue, e1, f + 1);
    StepsPrefix(queue, e1, e2, start, f + 1);
    StepsAfterFailureSkip(queue, e1, start, f + 1, |queue|);
    StepsAfterFailureSkip(queue, e2, start, f + 1, |queue|);
  }

  /** Every line a fetch logs starts with a bracketed tag. */
  lemma WorkLinesTagged(t: PipelineTask, e: Effect)
    ensures forall i :: 0 <= i < |WorkLines(t, e)| ==> WorkLines(t, e)[i][0] == '['
  {
    if t.category == Ingestion && Endpoint(t.id).Some? {
      var r := FetchOutcome(t.id, e.response);
      assert r.lines[0] == RequestLine(Endpoint(t.id).value);
      assert (if r.ok then "[FETCH]" else "[ERROR]") <= r.lines[1];
    }
  }

  /** The task lines differ from the start line in their first or tenth character. */
  lemma TaskLinesAreNotStart(name: string)
    ensures StartedLine(name) != StartLine && FinishedLine(name) != StartLine
    ensures HaltedLine(name) != StartLine
  {
    assert StartLine[0] == 'P' && StartLine[9] == 'r';
    assert StartedLine(name)[0] == 'T' && FinishedLine(name)[0] == 'T';
    assert HaltedLine(name)[9] == 'e';
  }

  /** None of the lines one pass of the loop appends is the run's start line. */
  lemma StepLines(s: RunState, t: PipelineTask, e: Effect)
    ensures var s' := Step(s, t, e);
      s.logs <= s'.logs &&
      forall i :: |s.logs| <= i < |s'.logs| ==> s'.logs[i] != StartLine
  {
    if !s.failed {
      var work := WorkLines(t, e);
      var verdict := if Succeeds(t, e) then FinishedLine(t.name) else HaltedLine(t.name);
      var added := [StartedLine(t.name)] + work + [verdict];
      assert Step(s, t, e).logs == s.logs + added;
      TaskLinesAreNotStart(t.name);
      WorkLinesTagged(t, e);
      assert StartLine[0] == 'P';
      forall i | 0 <= i < |added| ensures added[i] != StartLine {
        if 0 < i < |added| - 1 {
          assert added[i] == work[i - 1];
        }
      }
    }
  }

  /** The loop only appends to the log, and never the start line. */
  lemma {:induction false} StepsExtendLog(queue: seq<PipelineTask>, effects: seq<Effect>, start: RunState, n: nat)
    requires n <= |queue| == |effects|
    ensures var s := Steps(queue, effects, start, n);
      start.logs <= s.logs &&
      forall i :: |start.logs| <= i < |s.logs| ==> s.logs[i] != StartLine
  {
    if n > 0 {
      var s := Steps(queue, effects, start, n - 1);
      StepsExtendLog(queue, effects, start, n - 1);
      StepLines(s, queue[n - 1], effects[n - 1]);
      var s' := Step(s, queue[n - 1], effects[n - 1]);
      assert Steps(queue, effects, start, n) == s';
      forall i | |start.logs| <= i < |s'.logs| ensures s'.logs[i] != StartLine {
        if i < |s.logs| {
          assert s'.logs[i] == s.logs[i];
        }
      }
    }
  }

  /**
   * The log after a run is the old log, the start line, the task lines and
   * the completion line, which says FAILED exactly when some task Failed.
   */
  lemma RunLog(queue: seq<PipelineTask>, logs: seq<string>, effects: seq<Effect>)
    requires Registry.DistinctIds(queue)
    requires |queue| == |effects|
    ensures var r := Run(queue, logs, effects);
      logs + [StartLine] <= r.logs &&
      r.logs[|r.logs| - 1] == CompletionLine(r.failed) &&
      (r.failed <==> exists k :: 0 <= k < |r.tasks| && r.tasks[k].status == Failed)
  {
    StepsExtendLog(queue, effects, Start(queue, logs), |queue|);
    RunStatuses(queue, logs, effects);
    var r := Run(queue, logs, effects);
    if r.failed {
      var j :| 0 <= j < |queue| && !Succeeds(queue[j], effects[j]);
      var f := FirstFailure(queue, effects, j);
      assert r.tasks[f].status == Failed;
    }
  }

  lemma CompletionLineText()
    ensures CompletionLine(false) == "Pipeline run COMPLETED."
    ensures CompletionLine(true) == "Pipeline run FAILED."
  {
  }

  lemma CompletionIsNotStart(failed: bool)
    ensures CompletionLine(failed) != StartLine
  {
    assert CompletionLine(failed)[13] != StartLine[13];
  }

  /** A run writes its start line exactly once, right after the old log. */
  lemma RunStartLineOnce(queue: seq<PipelineTask>, logs: seq<string>, effects: seq<Effect>)
    requires |queue| == |effects|
    ensures var r := Run(queue, logs, effects);
      |logs| < |r.logs| && r.logs[|logs|] == StartLine &&
      forall i :: |logs| < i < |r.logs| ==> r.logs[i] != StartLine
  {
    var start := Start(queue, logs);
    StepsExtendLog(queue, effects, start, |queue|);
    var s := Steps(queue, effects, start, |queue|);
    var r := Run(queue, logs, effects);
    assert r.logs == s.logs + [CompletionLine(s.failed)];
    assert r.logs[|logs|] == start.logs[|logs|] == StartLine;
    forall i | |logs| < i < |r.logs| ensures r.logs[i] != StartLine {
      if i == |r.logs| - 1 {
        CompletionIsNotStart(s.failed);
      } else {
        assert r.logs[i] == s.logs[i];
      }
    }
  }

  /** The earliest failing position at or before `j`. */
  function FirstFailure(queue: seq<PipelineTask>, effects: seq<Effect>, j: nat): (f: nat)
    requires j < |queue| == |effects| && !Succeeds(queue[j], effects[j])
    ensures f <= j && !Succeeds(queue[f], effects[f]) && !FailsBefore(queue, effects, f)
  {
    if FailsBefore(queue, effects, j) then
      var i :| 0 <= i < j && !Succeeds(queue[i], effects[i]);
      FirstFailure(queue, effects, i)
    else j
  }

  /** When every unit of work succeeds, every task ends Success and the run is COMPLETED. */
  lemma RunAllSucceed(queue: seq<PipelineTask>, logs: seq<string>, effects: seq<Effect>)
    requires Registry.DistinctIds(queue)
    requires |queue| == |effects|
    requires forall k :: 0 <= k < |queue| ==> Succeeds(queue[k], effects[k])
    ensures var r := Run(queue, logs, effects);
      (forall k :: 0 <= k < |r.tasks| ==> r.tasks[k].status == Success) &&
      r.logs[|r.logs| - 1] == "Pipeline run COMPLETED."
  {
    RunStatuses(queue, logs, effects);
    assert !FailsBefore(queue, effects, |queue|);
    CompletionLineText();
  }

  /** When the first task fails, it ends Failed, every other task Skipped, and the run FAILED. */
  lemma RunFirstFails(queue: seq<PipelineTask>, logs: seq<string>, effects: seq<Effect>)
    requires Registry.DistinctIds(queue)
    requires 0 < |queue| == |effects|
    requires !Succeeds(queue[0], effects[0])
    ensures var r := Run(queue, logs, effects);
      r.tasks[0].status == Failed &&
      (forall k :: 0 < k < |r.tasks| ==> r.tasks[k].status == Skipped) &&
      r.logs[|r.logs| - 1] == "Pipeline run FAILED."
  {
    RunStatuses(queue, logs, effects);
    var r := Run(queue, logs, effects);
    forall k | 0 < k < |r.tasks| ensures r.tasks[k].status == Skipped {
      assert FailsBefore(queue, effects, k);
    }
    assert FailsBefore(queue, effects, |queue|);
    CompletionLineText();
  }

  /** Two task lists that differ at most in their `dependencies` fields. */
  predicate SameButDependencies(a: seq<PipelineTask>, b: seq<PipelineTask>)
  {
    |a| == |b| && forall k :: 0 <= k < |a| ==> a[k].(dependencies := b[k].dependencies) == b[k]
  }

  lemma SetStatusKeepsSame(a: seq<PipelineTask>, b: seq<PipelineTask>, id: string, status: TaskStatus)
    requires SameButDependencies(a, b)
    ensures SameButDependencies(SetStatus(a, id, status), SetStatus(b, id, status))
  {
    var a', b' := SetStatus(a, id, status), SetStatus(b, id, status);
    forall k | 0 <= k < |a'| ensures a'[k].(dependencies := b'[k].dependencies) == b'[k] {
      assert a[k].(dependencies := b[k].dependencies) == b[k];
    }
  }

  lemma StepIgnoresDependencies(sa: RunState, sb: RunState, ta: PipelineTask, tb: PipelineTask, e: Effect)
    requires SameButDependencies(sa.tasks, sb.tasks) && sa.logs == sb.logs && sa.failed == sb.failed
    requires ta.(dependencies := tb.dependencies) == tb
    ensures var ra, rb := Step(sa, ta, e), Step(sb, tb, e);
      SameButDependencies(ra.tasks, rb.tasks) && ra.logs == rb.logs && ra.failed == rb.failed
  {
    assert ta.id == tb.id && ta.name == tb.name && ta.category == tb.category;
    if sa.failed {
      SetStatusKeepsSame(sa.tasks, sb.tasks, ta.id, Skipped);
    } else {
      SetStatusKeepsSame(sa.tasks, sb.tasks, ta.id, Running);
      var ok := Succeeds(ta, e);
      SetStatusKeepsSame(SetStatus(sa.tasks, ta.id, Running), SetStatus(sb.tasks, ta.id, Running),
        ta.id, if ok then Success else Failed);
    }
  }

  lemma {:induction false} StepsIgnoreDependencies(
    a: seq<PipelineTask>, b: seq<PipelineTask>, effects: seq<Effect>, xa: RunState, xb: RunState, n: nat)
    requires SameButDependencies(a, b)
    requires n <= |a| == |effects|
    requires SameButDependencies(xa.tasks, xb.tasks) && xa.logs == xb.logs && xa.failed == xb.failed
    ensures var sa, sb := Steps(a, effects, xa, n), Steps(b, effects, xb, n);
      SameButDependencies(sa.tasks, sb.tasks) && sa.logs == sb.logs && sa.failed == sb.failed
  {
    if n > 0 {
      var sa, sb := Steps(a, effects, xa, n - 1), Steps(b, effects, xb, n - 1);
      StepsIgnoreDependencies(a, b, effects, xa, xb, n - 1);
      assert a[n - 1].(dependencies := b[n - 1].dependencies) == b[n - 1];
      StepIgnoresDependencies(sa, sb, a[n - 1], b[n - 1], effects[n - 1]);
    }
  }

  /**
   * The run never reads `dependencies`: changing them changes no status, no
   * log line and not the verdict.
   */
  lemma RunIgnoresDependencies(a: seq<PipelineTask>, b: seq<PipelineTask>, logs: seq<string>, effects: seq<Effect>)
    requires SameButDependencies(a, b)
    requires |a| == |effects|
    ensures var ra := Run(a, logs, effects);
      var rb := Run(b, logs, effects);
      SameButDependencies(ra.tasks, rb.tasks) && ra.logs == rb.logs && ra.failed == rb.failed
  {
    var ra, rb := Reset(a), Reset(b);
    forall k | 0 <= k < |ra| ensures ra[k].(dependencies := rb[k].dependencies) == rb[k] {
      assert a[k].(dependencies := b[k].dependencies) == b[k];
    }
    StepsIgnoreDependencies(a, b, effects, Start(a, logs), Start(b, logs), |a|);
  }

  /**
   * On a list whose dependencies point backwards (as the registry's do), array
   * order happens to respect the graph: every task that did work finds each of
   * its dependencies already Success.
   */
  lemma RunRespectsDependencies(queue: seq<PipelineTask>, logs: seq<string>, effects: seq<Effect>)
    requires Registry.DistinctIds(queue) && Registry.DeclaredEarlier(queue)
    requires |queue| == |effects|
    ensures var r := Run(queue, logs, effects);
      forall k, d :: 0 <= k < |r.tasks| && r.tasks[k].status != Skipped && d in queue[k].dependencies ==>
        exists j :: 0 <= j < k && r.tasks[j].id == d && r.tasks[j].status == Success
  {
    RunStatuses(queue, logs, effects);
    var r := Run(queue, logs, effects);
    forall k, d | 0 <= k < |r.tasks| && r.tasks[k].status != Skipped && d in queue[k].dependencies
      ensures exists j :: 0 <= j < k && r.tasks[j].id == d && r.tasks[j].status == Success
    {
      var j :| 0 <= j < k && queue[j].id == d;
      assert !FailsBefore(queue, effects, k);
      if FailsBefore(queue, effects, j) || !Succeeds(queue[j], effects[j]) {
        assert FailsBefore(queue, effects, k);
      }
      assert r.tasks[j].id == d && r.tasks[j].status == Success;
    }
  }

  /** Every Ingestion task of the registry has an endpoint, so its run does a real fetch. */
  lemma RegistryIngestionFetches()
    ensures forall k :: 0 <= k < |Registry.InitialTasks| && Registry.InitialTasks[k].category == Ingestion ==>
      Endpoint(Registry.InitialTasks[k].id).Some?
  {
  }

  /**
   * On the registry: an HTTP 500 for the first ingestion fetch fails that task,
   * skips the six others and ends the run FAILED.
   */
  lemma RegistryFirstFetchFails(logs: seq<string>, effects: seq<Effect>, body: Body)
    requires |effects| == |Registry.InitialTasks|
    requires effects[0].response == Reply(500, body)
    ensures var r := Run(Registry.InitialTasks, logs, effects);
      r.tasks[0].status == Failed &&
      (forall k :: 0 < k < |r.tasks| ==> r.tasks[k].status == Skipped) &&
      r.logs[|r.logs| - 1] == "Pipeline run FAILED."
  {
    Registry.InitialTasksDistinct();
    assert !Succeeds(Registry.InitialTasks[0], effects[0]);
    RunFirstFails(Registry.InitialTasks, logs, effects);
  }

  // ---------------------------------------------------------------------------
  // Log colouring
  // ---------------------------------------------------------------------------

  datatype LogColour = Rose | Emerald | Gray

  /** The colour class of a log line: a substring test in a fixed priority. */
  function ColourOf(line: string): LogColour
  {
    if Contains(line, "FAILED") || Contains(line, "ERROR") then Rose
    else if Contains(line, "SUCCESS") || Contains(line, "FETCH") then Emerald
    else Gray
  }

  /** The line `addLog` stores: the message behind a bracketed local time. */
  function Stamped(time: string, msg: string): string
  {
    "[" + time + "] " + msg
  }

  /**
   * The time prefix never changes a line's colour when the time has no
   * upper-case E (digits, colons and AM or PM do not).
   */
  lemma StampedColour(time: string, msg: string)
    requires 'E' !in time
    ensures ColourOf(Stamped(time, msg)) == ColourOf(msg)
  {
    var q := "[" + time + "] ";
    assert Stamped(time, msg) == q + msg;
    assert q[|q| - 1] == ' ' && 'E' !in q;
    ContainsAfterPrefix(q, msg, "FAILED", 'E');
    ContainsAfterPrefix(q, msg, "ERROR", 'E');
    ContainsAfterPrefix(q, msg, "SUCCESS", 'E');
    ContainsAfterPrefix(q, msg, "FETCH", 'E');
  }

  /** A line without an upper-case E matches none of the four keywords. */
  lemma NoKeywordWithoutE(line: string)
    requires 'E' !in line
    ensures ColourOf(line) == Gray
  {
    AbsentChar(line, "FAILED", 'E');
    AbsentChar(line, "ERROR", 'E');
    AbsentChar(line, "SUCCESS", 'E');
    AbsentChar(line, "FETCH", 'E');
  }

  /** The completion line is Rose when the run failed and plain Gray, not Emerald, when it completed. */
  lemma CompletionLineColour(failed: bool)
    ensures ColourOf(CompletionLine(failed)) == if failed then Rose else Gray
  {
    if failed {
      ContainsInfix("Pipeline run ", "FAILED", ".");
    } else {
      var line := CompletionLine(false);
      AbsentChar(line, "FAILED", 'F');
      AbsentChar(line, "ERROR", 'R');
      AbsentChar(line, "SUCCESS", 'S');
      AbsentChar(line, "FETCH", 'F');
    }
  }

  /** Every fetch error line is Rose. */
  lemma ErrorLineColour(description: string, message: string)
    ensures ColourOf(ErrorLine(description, message)) == Rose
  {
    var line := ErrorLine(description, message);
    assert line[1..][..5] == "ERROR";
  }

  /**
   * A task's "started" and "finished successfully" lines are Gray when its
   * name has no upper-case E (none of the registered names has one): the success line
   * is not Emerald, because the rule looks for upper-case SUCCESS.
   */
  lemma TaskLinesGray(name: string)
    requires 'E' !in name
    ensures ColourOf(StartedLine(name)) == Gray
    ensures ColourOf(FinishedLine(name)) == Gray
  {
    assert 'E' !in StartedLine(name) && 'E' !in FinishedLine(name);
    NoKeywordWithoutE(StartedLine(name));
    NoKeywordWithoutE(FinishedLine(name));
  }
}
