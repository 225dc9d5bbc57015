/** What every sequence of store calls keeps of the rows, whatever the log says. */
module StoreRuns {
  import opened Wrappers
  import opened Contracts
  import opened Store
  import Fencing

  /** The tables that some sequence of store calls makes of the empty store. */
  ghost predicate Reachable(t: Tables) {
    exists calls :: t == Run(EMPTY, calls)
  }

  lemma ReachStep(t: Tables, c: Call)
    requires Reachable(t)
    ensures Reachable(Store.After(t, c))
  {
    var calls :| t == Run(EMPTY, calls);
    assert (calls + [c])[..|calls|] == calls;
    assert Store.After(t, c) == Run(EMPTY, calls + [c]);
  }

  lemma ReachableInv(t: Tables)
    requires Reachable(t)
    ensures Fencing.Inv(t)
  {
    var calls :| t == Run(EMPTY, calls);
    Fencing.ReachableInv(calls);
  }

  /** One activity per question, stage and revision, with columns that fit its status. */
  ghost predicate RowsSound(t: Tables) {
    UniqueKeys(t.activities) && forall id | id in t.activities :: Fencing.StatusColumns(t.activities[id])
  }

  lemma RowChanges(s: Tables, t: Tables, id: Uuid)
    requires RowsSound(s) && id in s.activities && id in t.activities
    requires t.activities == s.activities[id := t.activities[id]]
    requires HasKey(t.activities[id], s.activities[id].questionId, s.activities[id].stage, s.activities[id].revision)
    requires Fencing.StatusColumns(t.activities[id])
    ensures RowsSound(t)
  {
    Fencing.SameKeysUnique(s.activities, id, t.activities[id]);
  }

  lemma CreateKeepsRows(s: Tables, q: Uuid, p: Uuid, revision: int, stage: Stage, id: Uuid, now: string)
    requires RowsSound(s)
    ensures RowsSound(GetOrCreateActivity(s, q, p, revision, stage, id, now).tables)
  {
  }

  lemma ClaimKeepsRows(s: Tables, id: Uuid, w: string, now: string, expires: string, max: nat, request: string)
    requires RowsSound(s)
    ensures RowsSound(ClaimActivity(s, id, w, now, expires, max, request).tables)
  {
    var t := ClaimActivity(s, id, w, now, expires, max, request).tables;
    if t != s { RowChanges(s, t, id); }
  }

  lemma RenewKeepsRows(s: Tables, id: Uuid, w: string, now: string, expires: string, attempt: Option<nat>)
    requires RowsSound(s)
    ensures RowsSound(RenewActivityLease(s, id, w, now, expires, attempt).tables)
  {
    var t := RenewActivityLease(s, id, w, now, expires, attempt).tables;
    if t != s { RowChanges(s, t, id); }
  }

  lemma FailKeepsRows(s: Tables, id: Uuid, w: string, now: string, error: string, attempt: Option<nat>)
    requires RowsSound(s)
    ensures RowsSound(FailActivity(s, id, w, now, error, attempt).tables)
  {
    var t := FailActivity(s, id, w, now, error, attempt).tables;
    if t != s { RowChanges(s, t, id); }
  }

  lemma CompleteKeepsRows(s: Tables, id: Uuid, w: string, now: string, result: Response, artifacts: seq<Artifact>,
                          attempt: Option<nat>)
    requires RowsSound(s)
    ensures RowsSound(CompleteActivity(s, id, w, now, result, artifacts, attempt).tables)
  {
    var out := CompleteActivity(s, id, w, now, result, artifacts, attempt);
    if out.result.Ok? && id in s.activities && s.activities[id].status != Succeeded {
      Fencing.CompleteShape(s, id, w, now, result, artifacts, attempt);
      RowChanges(s, out.tables, id);
    }
  }

  lemma CallKeepsRows(s: Tables, c: Call)
    requires RowsSound(s)
    ensures RowsSound(Store.After(s, c))
  {
    match c {
      case CallGetOrCreate(q, p, revision, stage, id, now) => CreateKeepsRows(s, q, p, revision, stage, id, now);
      case CallClaim(id, w, now, expires, max, request) => ClaimKeepsRows(s, id, w, now, expires, max, request);
      case CallRenewActivity(id, w, now, expires, attempt) => RenewKeepsRows(s, id, w, now, expires, attempt);
      case CallComplete(id, w, now, result, artifacts, attempt) => CompleteKeepsRows(s, id, w, now, result, artifacts, attempt);
      case CallFail(id, w, now, error, attempt) => FailKeepsRows(s, id, w, now, error, attempt);
      case _ =>
    }
  }

  /** `RowsSound` under a cover: proofs look below it only where they call `OpenRows`. */
  ghost predicate Covered(t: Tables, depth: nat) {
    if depth == 0 then RowsSound(t) else Covered(t, depth - 1)
  }

  ghost predicate RowsHold(t: Tables) {
    exists depth: nat :: depth >= 1 && Covered(t, depth)
  }

  lemma {:induction false} Uncover(t: Tables, depth: nat)
    requires Covered(t, depth)
    ensures RowsSound(t)
  {
    if depth > 0 {
      Uncover(t, depth - 1);
    }
  }

  lemma OpenRows(t: Tables)
    requires RowsHold(t)
    ensures RowsSound(t)
  {
    var depth: nat :| depth >= 1 && Covered(t, depth);
    Uncover(t, depth);
  }

  lemma CoverRows(t: Tables)
    requires RowsSound(t)
    ensures RowsHold(t)
  {
    assert Covered(t, 1);
  }

  lemma CallKeepsHold(s: Tables, c: Call)
    requires RowsHold(s)
    ensures RowsHold(Store.After(s, c))
  {
    OpenRows(s);
    CallKeepsRows(s, c);
    CoverRows(Store.After(s, c));
  }

  lemma RowHolds(t: Tables, id: Uuid)
    requires RowsHold(t) && id in t.activities
    ensures Fencing.StatusColumns(t.activities[id])
  {
    OpenRows(t);
  }

  lemma KeysAreUnique(t: Tables)
    requires RowsHold(t)
    ensures UniqueKeys(t.activities)
  {
    OpenRows(t);
  }
}
