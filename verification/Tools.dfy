/** `ToolRuntime` of src/m2harness/application/tools.py as an object with its cache and its set of running keys,
    with or without a durable store: one call after another, from the idempotency check on. */
module Tools {
  import opened Wrappers
  import opened ToolStore

  function InProgress(callId: string): ToolResult {
    ToolResult(callId, false, "idempotency_in_progress")
  }

  function LeaseLostResult(callId: string): ToolResult {
    ToolResult(callId, false, "idempotency_lease_lost")
  }

  class ToolRuntime {
    const store: ToolExecutionStore?
    const seconds: int
    var completed: map<string, ToolResult>
    var running: set<string>
    /** How often the handler ran for each key. */
    ghost var runs: map<string, nat>

    ghost predicate Valid()
      reads this, store
    {
      && running == {}
      && completed.Keys <= runs.Keys
      && (store == null ==> runs.Keys == completed.Keys && forall key | key in runs :: runs[key] == 1)
      && (store != null ==> forall key | key in completed :: RowOf(store.rows, key) == Some(Done(completed[key])))
    }

    constructor (store: ToolExecutionStore?, seconds: int)
      ensures Valid() && this.store == store && this.seconds == seconds && completed == map[]
    {
      this.store, this.seconds := store, seconds;
      completed, running, runs := map[], {}, map[];
    }

    /** The result on record for a key before a call. */
    ghost function Recorded(key: string): Option<ToolResult>
      reads this, store
    {
      if key in completed then Some(completed[key])
      else if store != null && key in store.rows && store.rows[key].Done? then Some(store.rows[key].result)
      else None
    }

    /** May this call run its handler? */
    ghost predicate MayRun(key: string, now: int)
      reads this, store
    {
      Recorded(key).None? && (store != null ==> Reserved(RowOf(store.rows, key), now, seconds, "").Some?)
    }

    ghost function Runs(key: string): nat
      reads this
    {
      if key in runs then runs[key] else 0
    }

    /** `execute` from the idempotency check on; `outcome` is what handler and middleware made of the call, and
        `storeFails` says that the store raises on completion. A recorded result is given back unchanged and
        nothing runs; otherwise the handler runs if nobody else holds the key, and its outcome is on record
        afterwards, in the process and in the store. If the store fails, nothing is on record and the reservation
        stays. */
    method Execute(callId: string, key: string, now: int, token: string, outcome: ToolResult, storeFails: bool)
      returns (r: ToolResult, ran: bool)
      requires Valid()
      modifies this, store
      ensures Valid()
      ensures ran <==> old(MayRun(key, now))
      ensures !ran ==> runs == old(runs) && completed == old(completed) && (store != null ==> store.rows == old(store.rows))
      ensures !ran ==> r == if old(Recorded(key)).Some? then old(Recorded(key)).value else InProgress(callId)
      ensures ran ==> runs == old(runs)[key := old(Runs(key)) + 1]
      ensures ran && (store == null || !storeFails) ==>
        r == outcome && Recorded(key) == Some(outcome) && completed == old(completed)[key := outcome]
      ensures ran && store != null && !storeFails ==> store.rows == old(store.rows)[key := Done(outcome)]
      ensures ran && store != null && storeFails ==>
        r == LeaseLostResult(callId) && Recorded(key).None? && store.rows == old(store.rows)[key := Running(now, token)]
    {
      if key in completed {
        return completed[key], false;
      }
      var reserved := false;
      if store != null {
        var recorded := store.Lookup(key);
        if recorded.Some? {
          return recorded.value, false;
        }
        reserved := store.Reserve(key, seconds, token, now);
        if !reserved {
          return InProgress(callId), false;
        }
      } else if key in running {
        return InProgress(callId), false;
      } else {
        running := running + {key};
      }
      runs := runs[key := Runs(key) + 1];
      r, ran := outcome, true;
      completed := completed[key := r];
      running := running - {key};
      if store != null && reserved {
        var done: Result<()> := Err(IntegrityError);
        if !storeFails {
          done := store.Complete(key, r, Some(token));
        }
        if done.Err? {
          completed := completed - {key};
          r := LeaseLostResult(callId);
        }
      }
    }
  }
}
