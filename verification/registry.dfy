/** The static task registry `INITIAL_TASKS` (constants.tsx) and the facts it satisfies. */
module Registry {
  import opened Types

  const InitialTasks: seq<PipelineTask> := [
    PipelineTask("extract_world_news", "World News API (Top US News)", Ingestion, Idle, [], []),
    PipelineTask("extract_world_bank", "World Bank Regions API", Ingestion, Idle, [], []),
    PipelineTask("extract_pony_api", "PonyAPI Characters", Ingestion, Idle, [], []),
    PipelineTask("clean_and_merge", "Pandas Data Merge & Cleaning", Processing, Idle,
                 ["extract_world_news", "extract_world_bank", "extract_pony_api"], []),
    PipelineTask("spark_transform", "PySpark Sentiment Analysis", Processing, Idle,
                 ["clean_and_merge"], []),
    PipelineTask("load_dw", "PostgreSQL DW Sync", Storage, Idle, ["spark_transform"], []),
    PipelineTask("refresh_dashboards", "Dashboard Cache Update", Analytics, Idle, ["load_dw"], [])
  ]

  /** No two tasks of the list share an id. */
  predicate DistinctIds(ts: seq<PipelineTask>)
  {
    forall i, j :: 0 <= i < j < |ts| ==> ts[i].id != ts[j].id
  }

  /** Every dependency names a task that comes earlier in the list. */
  predicate DeclaredEarlier(ts: seq<PipelineTask>)
  {
    forall k, d :: 0 <= k < |ts| && d in ts[k].dependencies ==>
      exists j :: 0 <= j < k && ts[j].id == d
  }

  /** The registry holds seven tasks with pairwise distinct ids. */
  lemma InitialTasksDistinct()
    ensures |InitialTasks| == 7
    ensures DistinctIds(InitialTasks)
  {
  }

  /** Every registered task starts Idle with an empty log. */
  lemma InitialTasksIdle()
    ensures forall k :: 0 <= k < |InitialTasks| ==>
      InitialTasks[k].status == Idle && InitialTasks[k].logs == []
  {
  }

  /** The three Ingestion tasks come first, with no dependencies; no later task is Ingestion. */
  lemma IngestionFirst()
    ensures forall k :: 0 <= k < 3 ==>
      InitialTasks[k].category == Ingestion && InitialTasks[k].dependencies == []
    ensures forall k :: 3 <= k < |InitialTasks| ==> InitialTasks[k].category != Ingestion
  {
  }

  /**
   * Array order is a topological order of the declared dependency graph:
   * each dependency id is the id of a task listed before the dependent one.
   */
  lemma InitialTasksTopological()
    ensures DeclaredEarlier(InitialTasks)
  {
    forall k, d | 0 <= k < |InitialTasks| && d in InitialTasks[k].dependencies
      ensures exists j :: 0 <= j < k && InitialTasks[j].id == d
    {
      if k == 3 {
        if d == "extract_world_news" { assert InitialTasks[0].id == d; }
        else if d == "extract_world_bank" { assert InitialTasks[1].id == d; }
        else { assert InitialTasks[2].id == d; }
      } else {
        assert InitialTasks[k - 1].id == d;
      }
    }
  }
}
