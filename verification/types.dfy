/** The task record and its status enumeration (types.ts). */
module Types {

  /** TaskStatus: a run moves a task from Idle to one of the three terminal statuses. */
  datatype TaskStatus = Idle | Running | Success | Failed | Skipped
  {
    predicate IsTerminal()
    {
      Success? || Failed? || Skipped?
    }
  }

  datatype Category = Ingestion | Processing | Storage | Analytics

  /**
   * PipelineTask. `dependencies` names other tasks by id; nothing in the
   * runner reads it. The optional `startTime` and `endTime` fields are never
   * set anywhere and are not carried.
   */
  datatype PipelineTask = PipelineTask(
    id: string,
    name: string,
    category: Category,
    status: TaskStatus,
    dependencies: seq<string>,
    logs: seq<string>)
}
