/** How often can the activities of a question be attempted? Each regular activity `maxAttempts` times; the late
    modeling activity only once, because only the worker that created it ever gets to claim it. */
module WorkflowAttempts {
  import opened Contracts
  import opened Store
  import opened Workflow
  import opened WorkflowSafety
  import opened WorkflowBounds
  import opened WorkflowCounts
  import WorkflowRaces
  import Fencing

  // ---------- who claims the late modeling activity ----------

  /** The worker is about to claim a modeling activity of a later revision. */
  predicate LateClaim(sys: System, p: Proc) {
    PcOf(sys, p).Claiming? && Remodel(sys.tables, PcOf(sys, p).activity)
  }

  /** A late activity is claimed at most once: as long as a worker is about to, nobody has, and no other is. */
  ghost predicate ClaimedOnce(sys: System) {
    && (forall p | LateClaim(sys, p) :: sys.tables.activities[PcOf(sys, p).activity].attempts == 0)
    && (forall p, x | LateClaim(sys, p) && LateClaim(sys, x) && PcOf(sys, p).activity == PcOf(sys, x).activity :: p == x)
    && (forall id | Remodel(sys.tables, id) :: sys.tables.activities[id].attempts <= 1)
  }

  /** The rows that were there have the attempts they had. */
  ghost predicate KeepsAttempts(s: Tables, t: Tables) {
    forall id | id in s.activities :: id in t.activities && t.activities[id].attempts == s.activities[id].attempts
  }

  lemma CallKeepsAttempts(s: Tables, c: Call)
    requires !c.CallClaim?
    ensures KeepsAttempts(s, Store.After(s, c))
  {
    if c.CallComplete? {
      CompleteKeepsAttempts(s, c);
    }
  }

  lemma CompleteKeepsAttempts(s: Tables, c: Call)
    requires c.CallComplete?
    ensures KeepsAttempts(s, Store.After(s, c))
  {
    if c.id in s.activities && s.activities[c.id].status != Succeeded
      && CompleteActivity(s, c.id, c.worker, c.now, c.result, c.artifacts, c.attempt).result.Ok? {
      Fencing.CompleteShape(s, c.id, c.worker, c.now, c.result, c.artifacts, c.attempt);
    }
  }

  lemma NextKeepsAttempts(cfg: Config, sys: System, a: Action)
    requires !a.ActClaim?
    ensures KeepsAttempts(sys.tables, Next(cfg, sys, a).tables)
  {
    if WorkflowRaces.Transiting(a) {
      WorkflowRaces.TransitingLeavesActivities(cfg, sys, a);
    } else {
      WorkflowRaces.NextIsCall(cfg, sys, a);
      if Next(cfg, sys, a).tables != sys.tables {
        CallKeepsAttempts(sys.tables, WorkflowRaces.CallOf(cfg, sys, a).value);
      }
    }
  }

  lemma OthersDoNotGetToClaim(cfg: Config, sys: System, a: Action, p: Proc)
    requires !a.ActStage?
    ensures PcOf(Next(cfg, sys, a), p).Claiming? ==> PcOf(Next(cfg, sys, a), p) == PcOf(sys, p)
  {
  }

  lemma QuietClaims(cfg: Config, sys: System, a: Action)
    requires ClaimedOnce(sys) && !a.ActStage? && !a.ActClaim?
    ensures ClaimedOnce(Next(cfg, sys, a))
  {
    var next := Next(cfg, sys, a);
    NextKeepsAttempts(cfg, sys, a);
    NextKeepsKeys(cfg, sys, a);
    forall p | PcOf(next, p).Claiming? ensures PcOf(next, p) == PcOf(sys, p) {
      OthersDoNotGetToClaim(cfg, sys, a, p);
    }
    SameClaims(sys, next);
  }

  lemma SameClaims(sys: System, next: System)
    requires ClaimedOnce(sys) && KeepsAttempts(sys.tables, next.tables) && KeepsKeys(sys.tables, next.tables)
    requires next.tables.activities.Keys == sys.tables.activities.Keys
    requires forall p | PcOf(next, p).Claiming? :: PcOf(next, p) == PcOf(sys, p)
    ensures ClaimedOnce(next)
  {
    forall id ensures Remodel(next.tables, id) == Remodel(sys.tables, id) {
    }
    forall p | LateClaim(next, p) ensures LateClaim(sys, p) {
    }
  }

  /** One more attempt for one row. */
  lemma ClaimShape(t: Tables, a: Uuid, w: string, now: string, expires: string, max: nat, request: string)
    ensures var next := ClaimActivity(t, a, w, now, expires, max, request).tables;
      && next.activities.Keys == t.activities.Keys
      && (forall id | id in t.activities && id != a :: next.activities[id] == t.activities[id])
      && (a in t.activities ==>
            next.activities[a].attempts <= t.activities[a].attempts + 1
            && HasKey(next.activities[a], t.activities[a].questionId, t.activities[a].stage, t.activities[a].revision))
  {
  }

  lemma ClaimKeepsOnce(cfg: Config, sys: System, p: Proc, now: string, expires: string, request: string)
    requires ClaimedOnce(sys) && PcOf(sys, p).Claiming?
    ensures var pc := PcOf(sys, p); ClaimedOnce(DoClaim(cfg, sys, p, pc.q, pc.stage, pc.activity, now, expires, request))
  {
    var a := PcOf(sys, p).activity;
    var next := DoClaim(cfg, sys, p, PcOf(sys, p).q, PcOf(sys, p).stage, a, now, expires, request);
    ClaimShape(sys.tables, a, p.worker, now, expires, cfg.maxAttempts, request);
    forall id ensures Remodel(next.tables, id) == Remodel(sys.tables, id) {
    }
    assert !PcOf(next, p).Claiming?;
    forall x | LateClaim(next, x) ensures x != p && LateClaim(sys, x) && PcOf(next, x) == PcOf(sys, x) {
    }
    if Remodel(sys.tables, a) {
      assert LateClaim(sys, p);
    }
  }

  // ---------- the creation ----------

  /** A stage step hands out the row of its key, and a new row has no attempts. */
  lemma StageClaims(sys: System, p: Proc, q: Snapshot, stage: Stage, id: Uuid, now: string, next: System)
    requires next == DoStage(sys, p, q, stage, id, now)
    ensures next == sys || (PcOf(next, p).Claiming? ==>
      PcOf(next, p).activity in next.tables.activities && HasKey(next.tables.activities[PcOf(next, p).activity], p.question, stage, q.revision))
    ensures id in next.tables.activities && id !in sys.tables.activities ==> next.tables.activities[id].attempts == 0
  {
  }

  lemma StageKeepsOnce(cfg: Config, sys: System, p: Proc, id: Uuid, now: string)
    requires Inv(cfg, sys) && OneHolder(sys) && ClaimedOnce(sys) && PcOf(sys, p).Staged?
    ensures ClaimedOnce(DoStage(sys, p, PcOf(sys, p).q, PcOf(sys, p).stage, id, now))
  {
    var q, stage := PcOf(sys, p).q, PcOf(sys, p).stage;
    var next := DoStage(sys, p, q, stage, id, now);
    StageShape(sys, p, q, stage, id, now, next);
    StageClaims(sys, p, q, stage, id, now, next);
    if next != sys {
      forall x | x != p && PcOf(next, x).Claiming?
        ensures PcOf(next, x) == PcOf(sys, x) && PcOf(next, x).activity in sys.tables.activities
      {
        PcInv(cfg, sys, x);
      }
      if LateClaim(next, p) {
        NewLateClaim(sys, p, id, next);
      }
      CreatedOnce(sys, next, p, id);
    }
  }

  /** Whoever gets to claim a late activity has just created it. */
  lemma NewLateClaim(sys: System, p: Proc, id: Uuid, next: System)
    requires OneHolder(sys) && PcOf(sys, p).Staged? && LateClaim(next, p)
    requires HasKey(next.tables.activities[PcOf(next, p).activity], p.question, PcOf(sys, p).stage, PcOf(sys, p).q.revision)
    requires MayAdd(sys.tables, next.tables, p.question, PcOf(sys, p).stage, PcOf(sys, p).q.revision, id)
    ensures PcOf(next, p).activity == id && id !in sys.tables.activities
  {
    assert Holder(sys, p);
    var a := PcOf(next, p).activity;
    if a in sys.tables.activities && sys.tables.activities[a] == next.tables.activities[a] {
      assert Remodel(sys.tables, a);
    }
  }

  lemma CreatedOnce(sys: System, next: System, p: Proc, id: Uuid)
    requires ClaimedOnce(sys)
    requires forall i | i in sys.tables.activities :: i in next.tables.activities && next.tables.activities[i] == sys.tables.activities[i]
    requires forall i | i in next.tables.activities && i !in sys.tables.activities :: i == id && next.tables.activities[i].attempts == 0
    requires forall x | x != p && PcOf(next, x).Claiming? ::
      PcOf(next, x) == PcOf(sys, x) && PcOf(next, x).activity in sys.tables.activities
    requires LateClaim(next, p) ==> PcOf(next, p).activity == id && id !in sys.tables.activities
    ensures ClaimedOnce(next)
  {
    forall x | x != p && LateClaim(next, x) ensures LateClaim(sys, x) {
    }
  }

  lemma NextKeepsOnce(cfg: Config, sys: System, a: Action)
    requires Inv(cfg, sys) && Counted(sys) && ClaimedOnce(sys)
    ensures ClaimedOnce(Next(cfg, sys, a))
  {
    if a.ActStage? {
      if PcOf(sys, a.p).Staged? { StageKeepsOnce(cfg, sys, a.p, a.id, a.now); }
    } else if a.ActClaim? {
      if PcOf(sys, a.p).Claiming? { ClaimKeepsOnce(cfg, sys, a.p, a.now, a.expires, a.request); }
    } else {
      QuietClaims(cfg, sys, a);
    }
  }

  lemma {:induction false} EveryRunClaimsOnce(cfg: Config, actions: seq<Action>)
    ensures ClaimedOnce(Workflow.After(cfg, actions))
    decreases |actions|
  {
    if actions != [] {
      var before := actions[..|actions| - 1];
      EveryRunClaimsOnce(cfg, before);
      EveryRunKeepsInv(cfg, before);
      EveryRunIsCounted(cfg, before);
      NextKeepsOnce(cfg, Workflow.After(cfg, before), actions[|actions| - 1]);
    }
  }

  // ---------- the sum ----------

  /** The sum of some counts. */
  ghost function Total(counts: map<Uuid, nat>, ids: set<Uuid>): nat
    requires ids <= counts.Keys
    decreases |ids|
  {
    if ids == {} then 0
    else
      var id :| id in ids;
      counts[id] + Total(counts, ids - {id})
  }

  lemma TotalPick(counts: map<Uuid, nat>, ids: set<Uuid>) returns (id: Uuid)
    requires ids <= counts.Keys && ids != {}
    ensures id in ids && Total(counts, ids) == counts[id] + Total(counts, ids - {id})
  {
    id :| id in ids && Total(counts, ids) == counts[id] + Total(counts, ids - {id});
  }

  lemma {:induction false} TotalBound(counts: map<Uuid, nat>, ids: set<Uuid>, max: nat)
    requires ids <= counts.Keys && forall id | id in ids :: counts[id] <= max
    ensures Total(counts, ids) <= |ids| * max
    decreases |ids|
  {
    if ids != {} {
      var id := TotalPick(counts, ids);
      TotalBound(counts, ids - {id}, max);
      OneMore(|ids|, max);
    }
  }

  /** The sum does not depend on what is added first. */
  lemma {:induction false} TotalWithout(counts: map<Uuid, nat>, ids: set<Uuid>, id: Uuid)
    requires ids <= counts.Keys && id in ids
    ensures Total(counts, ids) == counts[id] + Total(counts, ids - {id})
    decreases |ids|
  {
    var first := TotalPick(counts, ids);
    if first != id {
      TotalWithout(counts, ids - {first}, id);
      TotalWithout(counts, ids - {id}, first);
      assert ids - {first} - {id} == ids - {id} - {first};
    }
  }

  lemma {:induction false} TotalParts(counts: map<Uuid, nat>, ids: set<Uuid>, part: set<Uuid>)
    requires part <= ids <= counts.Keys
    ensures Total(counts, ids) == Total(counts, part) + Total(counts, ids - part)
    decreases |part|
  {
    if part == {} {
      assert ids - part == ids;
    } else {
      var id := TotalPick(counts, part);
      TotalParts(counts, ids - {id}, part - {id});
      TotalWithout(counts, ids, id);
      assert ids - {id} - (part - {id}) == ids - part;
    }
  }

  lemma OneMore(n: nat, max: nat)
    requires n > 0
    ensures n * max == (n - 1) * max + max
  {
  }

  ghost function Attempts(t: Tables): map<Uuid, nat> {
    map id | id in t.activities :: t.activities[id].attempts
  }

  /** Over every interleaving at most (2R+4) x `maxAttempts` attempts are granted for a question, and one more if
      revisions are allowed. */
  lemma AttemptsAreBounded(cfg: Config, actions: seq<Action>, q: Uuid)
    ensures var t := Workflow.After(cfg, actions).tables;
      Total(Attempts(t), ActivitiesOf(t, q)) <= (2 * cfg.maxRevisions + 4) * cfg.maxAttempts + Extra(cfg)
  {
    EveryRunKeepsInv(cfg, actions);
    EveryRunIsCounted(cfg, actions);
    EveryRunClaimsOnce(cfg, actions);
    var sys := Workflow.After(cfg, actions);
    var t := sys.tables;
    var ids := ActivitiesOf(t, q);
    var late := AllButOne(cfg, sys, q);
    RegularAreFew(cfg, sys, q, ids - late);
    TotalBound(Attempts(t), ids - late, cfg.maxAttempts);
    Scale(|ids - late|, 2 * cfg.maxRevisions + 4, cfg.maxAttempts);
    TotalBound(Attempts(t), late, 1);
    TotalParts(Attempts(t), ids, late);
  }

  lemma Scale(a: nat, b: nat, c: nat)
    requires a <= b
    ensures a * c <= b * c
  {
  }
}
