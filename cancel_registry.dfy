/** The process-wide set of run ids whose cancellation was requested
    (PipelineRunner's CANCELLED_RUNS, a concurrent map used as a set). */
module CancelRegistry {
  import opened Wrappers

  /** cancelRun: a null or empty id is ignored; adding twice is adding once */
  function AfterCancel(ids: set<string>, runId: Option<string>): (r: set<string>)
    ensures runId.Some? && runId.value != [] ==> r == ids + {runId.value}
    ensures runId.None? || runId.value == [] ==> r == ids
  {
    match runId
    case Some(id) => if id != [] then ids + {id} else ids
    case None => ids
  }

  /** isCancelled: false for a null id */
  predicate IsCancelledIn(ids: set<string>, runId: Option<string>) {
    runId.Some? && runId.value in ids
  }

  /** Requesting a cancellation twice has the effect of requesting it once */
  lemma CancelIdempotent(ids: set<string>, runId: Option<string>)
    ensures AfterCancel(AfterCancel(ids, runId), runId) == AfterCancel(ids, runId)
  {
  }

  /** After a request for a non-empty id, that id is seen as cancelled, and no other id changes */
  lemma CancelThenCancelled(ids: set<string>, runId: Option<string>, other: Option<string>)
    ensures runId.Some? && runId.value != [] ==> IsCancelledIn(AfterCancel(ids, runId), runId)
    ensures other != runId ==> (IsCancelledIn(AfterCancel(ids, runId), other) <==> IsCancelledIn(ids, other))
    ensures !IsCancelledIn(AfterCancel(ids, runId), None)
  {
  }

  class Registry {
    var ids: set<string>

    constructor()
      ensures ids == {}
    {
      ids := {};
    }

    method Cancel(runId: Option<string>)
      modifies this
      ensures ids == AfterCancel(old(ids), runId)
    {
      if runId.Some? && runId.value != [] {
        ids := ids + {runId.value};
      }
    }

    method IsCancelled(runId: Option<string>) returns (b: bool)
      ensures b == IsCancelledIn(ids, runId)
    {
      b := runId.Some? && runId.value in ids;
    }

    /** The entry dropped in executePipelineSteps' finally block */
    method Remove(runId: string)
      modifies this
      ensures ids == old(ids) - {runId}
    {
      ids := ids - {runId};
    }
  }
}
