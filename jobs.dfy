/** Jobs: a sequence number, an optional name and the opaque processing capability. */
module Jobs {

  /**
   * The JobProcessor interface value a job carries. The pool never looks inside it;
   * a handle identifies the caller's processor, and NilProcessor is Go's nil interface.
   */
  datatype JobProcessor = NilProcessor | Processor(handle: nat)

  datatype Job = Job(id: int, name: string, data: JobProcessor) {

    function GetId(): int { id }

    function GetName(): string { name }

    function GetData(): JobProcessor { data }
  }

  /** What a receive from a closed, drained job queue yields: Go's zero Job. */
  const ZeroJob: Job := Job(0, "", NilProcessor)

  /** The three accessors together give back the whole job. */
  lemma AccessorsRebuild(j: Job)
    ensures Job(j.GetId(), j.GetName(), j.GetData()) == j
  {
  }
}
