/** `SQLiteToolExecutionStore` of src/m2harness/infrastructure/db/tool_runs.py: reservations with expiring leases
    and fencing tokens, and completed results. Times are microseconds. */
module ToolStore {
  import opened Wrappers

  datatype ToolResult = ToolResult(callId: string, ok: bool, body: string)

  datatype Run =
    | Running(started: int, token: string)
    | Done(result: ToolResult)

  function Max(a: int, b: int): int {
    if a < b then b else a
  }

  /** `max(1, lease_seconds)` as microseconds. */
  function Lease(seconds: int): int {
    1_000_000 * Max(1, seconds)
  }

  predicate Expired(run: Run, now: int, seconds: int) {
    run.Running? && run.started < now - Lease(seconds)
  }

  /** The row after `reserve`, or None when the key cannot be reserved. */
  function Reserved(row: Option<Run>, now: int, seconds: int, token: string): Option<Run> {
    if row.None? || Expired(row.value, now, seconds) then Some(Running(now, token)) else None
  }

  /** `complete` may update: the row is running, and the token, when given, is the row's. */
  predicate Completes(row: Option<Run>, token: Option<string>) {
    row.Some? && row.value.Running? && (token.Some? ==> row.value.token == token.value)
  }

  function RowOf(rows: map<string, Run>, key: string): Option<Run> {
    if key in rows then Some(rows[key]) else None
  }

  class ToolExecutionStore {
    var rows: map<string, Run>

    constructor ()
      ensures rows == map[]
    {
      rows := map[];
    }

    method Lookup(key: string) returns (r: Option<ToolResult>)
      ensures r == if key in rows && rows[key].Done? then Some(rows[key].result) else None
    {
      if key in rows && rows[key].Done? {
        return Some(rows[key].result);
      }
      return None;
    }

    method Reserve(key: string, seconds: int, token: string, now: int) returns (ok: bool)
      modifies this
      ensures ok <==> Reserved(RowOf(old(rows), key), now, seconds, token).Some?
      ensures key !in old(rows) ==> ok
      ensures key in old(rows) && old(rows)[key].Running? ==>
        (ok <==> old(rows)[key].started + 1_000_000 * Max(1, seconds) < now)
      ensures rows == if ok then old(rows)[key := Running(now, token)] else old(rows)
      ensures key in old(rows) && old(rows)[key].Done? ==> !ok
    {
      var expiry := now - Lease(seconds);
      if key !in rows {
        rows := rows[key := Running(now, token)];
        return true;
      }
      if rows[key].Done? {
        return false;
      }
      if rows[key].started < expiry {
        rows := rows[key := Running(now, token)];
        return true;
      }
      return false;
    }

    method Complete(key: string, result: ToolResult, token: Option<string>) returns (r: Result<()>)
      modifies this
      ensures r.Ok? <==> Completes(RowOf(old(rows), key), token)
      ensures rows == if r.Ok? then old(rows)[key := Done(result)] else old(rows)
    {
      if key in rows && rows[key].Running? && (token.None? || rows[key].token == token.value) {
        rows := rows[key := Done(result)];
        return Ok(());
      }
      return Err(LeaseLost);
    }
  }
}
